/** The authenticated patient's own record: the profile read and the two-step
    contact change (controllers/userController.js). `id` is `req.user.id`, the
    id claim of the bearer token. */
module UserController {
  import opened Base
  import opened Records

  /** The `select` of `getUserProfile`. */
  function ProfileOf(id: Id, u: User): Profile
  {
    Profile(id, u.name, u.email, u.phone, u.avatar, u.createdAt)
  }

  /** `getUserProfile`: the selected fields of the caller's row, or 404. */
  function GetUserProfile(users: map<Id, User>, id: Id): (r: Response)
    ensures id !in users ==> r == Response(404, "User not found", NoBody)
    ensures id in users ==> r.status == 200 && r.body.ProfileBody? && r.body.profile.id == id
    ensures id in users ==>
              var p := r.body.profile;
              p.name == users[id].name && p.email == users[id].email && p.phone == users[id].phone &&
              p.avatar == users[id].avatar && p.createdAt == users[id].createdAt
  {
    if id !in users then Response(404, "User not found", NoBody)
    else Response(200, "", ProfileBody(ProfileOf(id, users[id])))
  }

  /** The profile reveals nothing of the password, the codes or the reset
      token: two rows that agree on the selected fields give the same answer. */
  lemma ProfileHidesSecrets(users: map<Id, User>, id: Id, u: User, v: User)
    requires u.name == v.name && u.email == v.email && u.phone == v.phone
    requires u.avatar == v.avatar && u.createdAt == v.createdAt
    ensures GetUserProfile(users[id := u], id) == GetUserProfile(users[id := v], id)
  {
  }

  /** `updateUserProfile` reads `user.avatar` before the `const user` it
      declares further down, so every call that gets past the optional upload
      throws (500); a failed upload answers 400 first. The table never
      changes. `hasFile` is `req.file`; `uploadFails` is the outcome of the
      external upload. */
  function UpdateUserProfile(users: map<Id, User>, hasFile: bool, uploadFails: bool): (e: Effect<User>)
    ensures e.table == users && e.sent == []
    ensures e.response.status == 400 <==> hasFile && uploadFails
    ensures e.response.status == 400 || e.response.status == 500
  {
    if hasFile && uploadFails then Reply(users, 400, "Error uploading image")
    else Reply(users, 500, "Internal Server Error")
  }

  /** `requestChangeContact`: store a fresh code first, then send it to the new
      email, else the new phone; with neither, answer 400, the code already
      replaced. The stored contact fields do not change. */
  function RequestChangeContact(users: map<Id, User>, id: Id, newEmail: Option<string>,
                                newPhone: Option<string>, code: int): (e: Effect<User>)
    requires IsSixDigit(code)
    ensures id !in users ==> e == Reply(users, 404, "User not found")
    ensures id in users ==> e.table == users[id := users[id].(verificationCode := Some(code))]
    ensures id in users ==>
              e.table[id].email == users[id].email && e.table[id].phone == users[id].phone
    ensures id in users ==>
              (e.response.status == 200 <==> Truthy(newEmail) || Truthy(newPhone)) &&
              (e.response.status == 400 <==> !Truthy(newEmail) && !Truthy(newPhone))
    ensures id in users ==> e.sent == PreferEmail(newEmail, newPhone, VerificationCode(code))
  {
    if id !in users then Reply(users, 404, "User not found")
    else
      var table := users[id := users[id].(verificationCode := Some(code))];
      if Truthy(newEmail) then
        Effect(Response(200, "Verification code sent to new email", NoBody), table,
               [Notice(Email, newEmail.value, VerificationCode(code))])
      else if Truthy(newPhone) then
        Effect(Response(200, "Verification code sent to new phone", NoBody), table,
               [Notice(Sms, newPhone.value, VerificationCode(code))])
      else
        Effect(Response(400, "No new contact provided", NoBody), table, [])
  }

  /** The row `confirmChangeContact` writes: the code cleared, each contact the
      request supplies overwritten. */
  function ContactChanged(u: User, newEmail: Option<string>, newPhone: Option<string>): User
  {
    u.(verificationCode := None,
       email := if Truthy(newEmail) then newEmail else u.email,
       phone := if Truthy(newPhone) then newPhone else u.phone)
  }

  /** `confirmChangeContact`: compare the code, then overwrite the supplied
      contact fields. No other row is consulted. */
  function ConfirmChangeContact(users: map<Id, User>, id: Id, newEmail: Option<string>,
                                newPhone: Option<string>, code: Option<int>): (e: Effect<User>)
    ensures e.sent == []
    ensures id !in users ==> e == Reply(users, 404, "User not found")
    ensures id in users && !CodeMatches(users[id].verificationCode, code) ==>
              e == Reply(users, 400, "Invalid verification code")
    ensures e.response.status == 200 <==> id in users && CodeMatches(users[id].verificationCode, code)
    ensures e.response.status == 200 ==>
              e.table.Keys == users.Keys &&
              (forall k :: k in users && k != id ==> e.table[k] == users[k]) &&
              e.table[id].verificationCode.None? &&
              e.table[id].email == (if Truthy(newEmail) then newEmail else users[id].email) &&
              e.table[id].phone == (if Truthy(newPhone) then newPhone else users[id].phone) &&
              e.table[id] == users[id].(verificationCode := None, email := e.table[id].email,
                                        phone := e.table[id].phone)
  {
    if id !in users then Reply(users, 404, "User not found")
    else if !CodeMatches(users[id].verificationCode, code) then Reply(users, 400, "Invalid verification code")
    else Effect(Response(200, "Contact information updated successfully", NoBody),
                users[id := ContactChanged(users[id], newEmail, newPhone)], [])
  }

  /** The round trip: the code a request sends confirms the change it asked for. */
  lemma {:induction false} RequestThenConfirm(users: map<Id, User>, id: Id, newEmail: Option<string>,
                                              newPhone: Option<string>, code: int)
    requires id in users && IsSixDigit(code)
    requires Truthy(newEmail) || Truthy(newPhone)
    ensures var t := RequestChangeContact(users, id, newEmail, newPhone, code).table;
            var e := ConfirmChangeContact(t, id, newEmail, newPhone, Some(code));
            e.response.status == 200 &&
            (Truthy(newEmail) ==> e.table[id].email == newEmail) &&
            (Truthy(newPhone) ==> e.table[id].phone == newPhone)
  {
    var t := RequestChangeContact(users, id, newEmail, newPhone, code).table;
    assert t[id].verificationCode == Some(code);
  }

  /** A confirmation code is good once: the second confirm meets a cleared code. */
  lemma ConfirmTwiceFails(users: map<Id, User>, id: Id, newEmail: Option<string>, newPhone: Option<string>,
                          code: Option<int>, email2: Option<string>, phone2: Option<string>)
    requires ConfirmChangeContact(users, id, newEmail, newPhone, code).response.status == 200
    ensures var t := ConfirmChangeContact(users, id, newEmail, newPhone, code).table;
            ConfirmChangeContact(t, id, email2, phone2, code) == Reply(t, 400, "Invalid verification code")
  {
  }

  /** The handler performs no uniqueness check: a confirmed change may take
      another row's email, so unless the database schema declares email
      unique, two rows end up sharing it. */
  lemma ConfirmCanDuplicateEmail(users: map<Id, User>, id: Id, other: Id, code: Option<int>)
    requires id in users && other in users && id != other
    requires CodeMatches(users[id].verificationCode, code)
    requires Truthy(users[other].email)
    ensures var e := ConfirmChangeContact(users, id, users[other].email, None, code);
            e.response.status == 200 && e.table[id].email == e.table[other].email
  {
  }
}
