/** Patient registration, login and account verification, each as a function of
    the `user` table (controllers/authController.js). The handlers that change
    the table are run step by step by `Service.Store`. */
module AuthController {
  import opened Base
  import opened Records

  /** `expiresIn: "1h"` */
  const UserTokenLifetime: Millis := 3_600_000

  /** Salt rounds of the registration hash. */
  const RegisterCost: nat := 12

  /** The row `registerUser` creates. */
  function NewUser(name: Option<string>, phone: Option<string>, email: Option<string>,
                   password: string, code: int, now: Millis): User
  {
    User(name, phone, email, Hash(password, RegisterCost), false, Some(code),
         None, None, None, None, None, now)
  }

  /** `registerUser`: length check, uniqueness check, create, send the code.
      `code` is the drawn verification code, `newId` the id the database assigns. */
  function RegisterUser(users: map<Id, User>, name: Option<string>, phone: Option<string>,
                        email: Option<string>, password: string, code: int, newId: Id,
                        now: Millis): (e: Effect<User>)
    requires IsSixDigit(code)
    requires newId !in users
    ensures |password| < 8 ==> e == Reply(users, 400, "Password must be at least 8 characters long")
    ensures |password| >= 8 && AnyUser(users, ByContact(phone, email)) ==>
              e == Reply(users, 400, "Phone or email already registered")
    ensures e.response.status == 201 <==> |password| >= 8 && !AnyUser(users, ByContact(phone, email))
    ensures e.response.status == 201 ==>
              e.table.Keys == users.Keys + {newId} &&
              (forall k :: k in users ==> e.table[k] == users[k]) &&
              e.table[newId].name == name && e.table[newId].phone == phone && e.table[newId].email == email &&
              !e.table[newId].isVerified &&
              e.table[newId].password == Hash(password, RegisterCost) &&
              e.table[newId].verificationCode == Some(code) && IsSixDigit(code) &&
              e.table[newId].resetToken.None? && e.table[newId].otpCode.None?
    ensures e.response.status == 201 ==> e.sent == PreferEmail(email, phone, VerificationCode(code))
  {
    if |password| < 8 then
      Reply(users, 400, "Password must be at least 8 characters long")
    else if FindUser(users, ByContact(phone, email)).Some? then
      Reply(users, 400, "Phone or email already registered")
    else
      Effect(Response(201, "User registered successfully. Verification code sent.", NoBody),
             users[newId := NewUser(name, phone, email, password, code, now)],
             PreferEmail(email, phone, VerificationCode(code)))
  }

  /** `loginUser`: find by email or phone, then verified, then password. It
      writes nothing: the result is a response alone. */
  function LoginUser(users: map<Id, User>, identifier: Option<string>, password: string): (r: Response)
    ensures r.status == 200 || r.status == 400 || r.status == 403
    ensures r == Response(400, "Invalid email or phone number", NoBody) <==> !AnyUser(users, ByIdentifier(identifier))
    ensures r.status == 403 ==>
              exists k :: k in users && UserMatches(users[k], ByIdentifier(identifier)) && !users[k].isVerified
    ensures r.message == "Invalid password" ==>
              exists k :: k in users && UserMatches(users[k], ByIdentifier(identifier)) &&
                          users[k].isVerified && !Compare(password, users[k].password)
    ensures r.body.TokenBody? <==> r.status == 200
    ensures r.status == 200 ==>
              var k := r.body.grant.payload.id;
              k in users && UserMatches(users[k], ByIdentifier(identifier)) &&
              users[k].isVerified && Compare(password, users[k].password) &&
              r.body.grant == Grant(Payload(k, Some("user")), UserTokenLifetime)
    ensures var hit := FindUser(users, ByIdentifier(identifier));
            hit.Some? ==>
              var u := users[hit.value];
              (r == Response(403, "Please verify your account first", NoBody) <==> !u.isVerified) &&
              (r == Response(400, "Invalid password", NoBody) <==> u.isVerified && !Compare(password, u.password)) &&
              (r.status == 200 <==> u.isVerified && Compare(password, u.password)) &&
              (r.status == 200 ==> r.body.grant.payload.id == hit.value)
  {
    match FindUser(users, ByIdentifier(identifier))
    case None => Response(400, "Invalid email or phone number", NoBody)
    case Some(k) =>
      if !users[k].isVerified then Response(403, "Please verify your account first", NoBody)
      else if !Compare(password, users[k].password) then Response(400, "Invalid password", NoBody)
      else Response(200, "Login successful", TokenBody(Grant(Payload(k, Some("user")), UserTokenLifetime)))
  }

  /** The row `verifyUser` writes on a match. */
  function Verified(u: User): User
  {
    u.(isVerified := true, verificationCode := None)
  }

  /** `verifyUser`: find by email or phone, compare the code, mark verified. */
  function VerifyUser(users: map<Id, User>, identifier: Option<string>, code: Option<int>): (e: Effect<User>)
    ensures e.sent == []
    ensures e.response.status == 200 || e.response.status == 400
    ensures e.response.status == 400 ==> e.table == users
    ensures !AnyUser(users, ByIdentifier(identifier)) ==> e == Reply(users, 400, "User not found")
    ensures (forall k :: k in users && UserMatches(users[k], ByIdentifier(identifier)) ==>
               !CodeMatches(users[k].verificationCode, code)) ==>
              e.response.status == 400
    ensures e.response.status == 200 ==>
              exists k :: k in users && UserMatches(users[k], ByIdentifier(identifier)) &&
                          CodeMatches(users[k].verificationCode, code) &&
                          e.table == users[k := users[k].(isVerified := true, verificationCode := None)]
    ensures var hit := FindUser(users, ByIdentifier(identifier));
            hit.Some? ==>
              (e.response.status == 200 <==> CodeMatches(users[hit.value].verificationCode, code)) &&
              (!CodeMatches(users[hit.value].verificationCode, code) ==>
                 e == Reply(users, 400, "Invalid verification code")) &&
              (e.response.status == 200 ==>
                 e.response == Response(200, "Account verified successfully", NoBody) &&
                 e.table == users[hit.value := Verified(users[hit.value])])
  {
    match FindUser(users, ByIdentifier(identifier))
    case None => Reply(users, 400, "User not found")
    case Some(k) =>
      if !CodeMatches(users[k].verificationCode, code) then Reply(users, 400, "Invalid verification code")
      else Effect(Response(200, "Account verified successfully", NoBody), users[k := Verified(users[k])], [])
  }

  /** An unverified account is refused before its password is looked at: the
      response does not depend on the password. */
  lemma LoginUnverifiedIgnoresPassword(users: map<Id, User>, identifier: Option<string>,
                                       password: string, other: string)
    requires LoginUser(users, identifier, password).status == 403
    ensures LoginUser(users, identifier, other) == LoginUser(users, identifier, password)
  {
  }

  /** A code is good for one verification: the second attempt with the same
      code finds the same row with its code cleared. */
  lemma {:induction false} VerifyTwiceFails(users: map<Id, User>, identifier: Option<string>, code: Option<int>)
    requires VerifyUser(users, identifier, code).response.status == 200
    ensures var t := VerifyUser(users, identifier, code).table;
            VerifyUser(t, identifier, code) == Reply(t, 400, "Invalid verification code")
  {
    var f := ByIdentifier(identifier);
    var k := FindUser(users, f).value;
    var t := VerifyUser(users, identifier, code).table;
    assert t == users[k := Verified(users[k])];
    FindUserStable(users, t, f);
  }

  /** Once verified, the account logs in with the password it registered with. */
  lemma {:induction false} VerifyThenLogin(users: map<Id, User>, identifier: Option<string>,
                                           code: Option<int>, password: string)
    requires VerifyUser(users, identifier, code).response.status == 200
    requires Compare(password, users[FindUser(users, ByIdentifier(identifier)).value].password)
    ensures var t := VerifyUser(users, identifier, code).table;
            LoginUser(t, identifier, password).status == 200
  {
    var f := ByIdentifier(identifier);
    var k := FindUser(users, f).value;
    var t := VerifyUser(users, identifier, code).table;
    assert t == users[k := Verified(users[k])];
    FindUserStable(users, t, f);
  }
}
