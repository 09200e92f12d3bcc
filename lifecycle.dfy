/** Properties of the account lifecycle that span several requests: what every
    handler keeps true of the tables, what follows for the OTP check and the
    doctor lookup by email, the end-to-end patient scenario, and the fact that
    no token the service signs passes the admin check. */
module Lifecycle {
  import opened Base
  import opened Records
  import AuthController
  import PasswordController
  import UserController
  import DoctorController
  import AuthMiddleware

  // ---------------------------------------------------------------------------
  // The `user` table

  /** Every request that writes the `user` table, with the random values and
      the time it draws. */
  datatype UserOp =
    | Register(name: Option<string>, phone: Option<string>, email: Option<string>,
               password: string, code: int, newId: Id, now: Millis)
    | Verify(identifier: Option<string>, submitted: Option<int>)
    | Forgot(identifier: Option<string>, token: string, now: Millis)
    | Reset(resetToken: Option<string>, newPassword: string, now: Millis)
    | CheckOtp(phone: Option<string>, otp: Option<string>, now: Millis)
    | RequestChange(id: Id, newEmail: Option<string>, newPhone: Option<string>, code: int)
    | ConfirmChange(id: Id, newEmail: Option<string>, newPhone: Option<string>, submitted: Option<int>)

  /** The ranges of the drawn values, and a fresh id for a new row. */
  predicate Admissible(users: map<Id, User>, op: UserOp)
  {
    match op
    case Register(_, _, _, _, code, newId, _) => IsSixDigit(code) && newId !in users
    case Forgot(_, token, _) => IsHexToken(token)
    case RequestChange(_, _, _, code) => IsSixDigit(code)
    case _ => true
  }

  function Apply(users: map<Id, User>, op: UserOp): Effect<User>
    requires Admissible(users, op)
  {
    match op
    case Register(name, phone, email, password, code, newId, now) =>
      AuthController.RegisterUser(users, name, phone, email, password, code, newId, now)
    case Verify(identifier, submitted) =>
      AuthController.VerifyUser(users, identifier, submitted)
    case Forgot(identifier, token, now) =>
      PasswordController.ForgotPassword(users, identifier, token, now)
    case Reset(resetToken, newPassword, now) =>
      PasswordController.ResetPassword(users, resetToken, newPassword, now)
    case CheckOtp(phone, otp, now) =>
      PasswordController.VerifyOtp(users, phone, otp, now)
    case RequestChange(id, newEmail, newPhone, code) =>
      UserController.RequestChangeContact(users, id, newEmail, newPhone, code)
    case ConfirmChange(id, newEmail, newPhone, submitted) =>
      UserController.ConfirmChangeContact(users, id, newEmail, newPhone, submitted)
  }

  /** What every handler keeps true of a row: a stored code has six digits, a
      reset token always comes with its expiry, and no OTP is ever stored
      (no handler issues one). */
  predicate RowOk(u: User)
  {
    (u.verificationCode.Some? ==> IsSixDigit(u.verificationCode.value)) &&
    (u.resetToken.Some? <==> u.resetTokenExpiry.Some?) &&
    u.otpCode.None? && u.otpExpiry.None?
  }

  predicate WellFormed(users: map<Id, User>)
  {
    forall k :: k in users ==> RowOk(users[k])
  }

  /** Overwriting or adding one well-formed row keeps the table well formed. */
  lemma UpdateKeepsWellFormed(users: map<Id, User>, k: Id, u: User)
    requires WellFormed(users) && RowOk(u)
    ensures WellFormed(users[k := u])
  {
  }

  lemma RegisterKeeps(users: map<Id, User>, name: Option<string>, phone: Option<string>, email: Option<string>,
                      password: string, code: int, newId: Id, now: Millis)
    requires WellFormed(users) && IsSixDigit(code) && newId !in users
    ensures WellFormed(AuthController.RegisterUser(users, name, phone, email, password, code, newId, now).table)
  {
    UpdateKeepsWellFormed(users, newId, AuthController.NewUser(name, phone, email, password, code, now));
  }

  lemma VerifyKeeps(users: map<Id, User>, identifier: Option<string>, submitted: Option<int>)
    requires WellFormed(users)
    ensures WellFormed(AuthController.VerifyUser(users, identifier, submitted).table)
  {
    var hit := FindUser(users, ByIdentifier(identifier));
    if hit.Some? {
      UpdateKeepsWellFormed(users, hit.value, AuthController.Verified(users[hit.value]));
    }
  }

  lemma ForgotKeeps(users: map<Id, User>, identifier: Option<string>, token: string, now: Millis)
    requires WellFormed(users) && IsHexToken(token)
    ensures WellFormed(PasswordController.ForgotPassword(users, identifier, token, now).table)
  {
    var hit := FindUser(users, ByIdentifier(identifier));
    if hit.Some? {
      var k := hit.value;
      UpdateKeepsWellFormed(users, k, users[k].(resetToken := Some(token),
                                                resetTokenExpiry := Some(now + PasswordController.ResetTokenLifetime)));
    }
  }

  lemma ResetKeeps(users: map<Id, User>, resetToken: Option<string>, newPassword: string, now: Millis)
    requires WellFormed(users)
    ensures WellFormed(PasswordController.ResetPassword(users, resetToken, newPassword, now).table)
  {
    var hit := FindUser(users, ByResetToken(resetToken));
    if hit.Some? {
      var k := hit.value;
      UpdateKeepsWellFormed(users, k, users[k].(password := Hash(newPassword, PasswordController.ResetCost),
                                                resetToken := None, resetTokenExpiry := None));
    }
  }

  lemma CheckOtpKeeps(users: map<Id, User>, phone: Option<string>, otp: Option<string>, now: Millis)
    requires WellFormed(users)
    ensures WellFormed(PasswordController.VerifyOtp(users, phone, otp, now).table)
  {
    var hit := FindUser(users, ByPhoneAndOtp(phone, otp));
    if hit.Some? {
      var k := hit.value;
      UpdateKeepsWellFormed(users, k, users[k].(otpCode := None, otpExpiry := None));
    }
  }

  lemma RequestChangeKeeps(users: map<Id, User>, id: Id, newEmail: Option<string>, newPhone: Option<string>,
                           code: int)
    requires WellFormed(users) && IsSixDigit(code)
    ensures WellFormed(UserController.RequestChangeContact(users, id, newEmail, newPhone, code).table)
  {
    if id in users {
      UpdateKeepsWellFormed(users, id, users[id].(verificationCode := Some(code)));
    }
  }

  lemma ConfirmChangeKeeps(users: map<Id, User>, id: Id, newEmail: Option<string>, newPhone: Option<string>,
                           submitted: Option<int>)
    requires WellFormed(users)
    ensures WellFormed(UserController.ConfirmChangeContact(users, id, newEmail, newPhone, submitted).table)
  {
    if id in users {
      UpdateKeepsWellFormed(users, id, UserController.ContactChanged(users[id], newEmail, newPhone));
    }
  }

  lemma ApplyPreserves(users: map<Id, User>, op: UserOp)
    requires WellFormed(users) && Admissible(users, op)
    ensures WellFormed(Apply(users, op).table)
  {
    match op
    case Register(name, phone, email, password, code, newId, now) =>
      RegisterKeeps(users, name, phone, email, password, code, newId, now);
    case Verify(identifier, submitted) =>
      VerifyKeeps(users, identifier, submitted);
    case Forgot(identifier, token, now) =>
      ForgotKeeps(users, identifier, token, now);
    case Reset(resetToken, newPassword, now) =>
      ResetKeeps(users, resetToken, newPassword, now);
    case CheckOtp(phone, otp, now) =>
      CheckOtpKeeps(users, phone, otp, now);
    case RequestChange(id, newEmail, newPhone, code) =>
      RequestChangeKeeps(users, id, newEmail, newPhone, code);
    case ConfirmChange(id, newEmail, newPhone, submitted) =>
      ConfirmChangeKeeps(users, id, newEmail, newPhone, submitted);
  }

  /** A sequence of requests, each admissible in the table the previous ones
      left. */
  ghost predicate ValidRun(users: map<Id, User>, ops: seq<UserOp>)
    decreases |ops|
  {
    ops == [] || (Admissible(users, ops[0]) && ValidRun(Apply(users, ops[0]).table, ops[1..]))
  }

  function Run(users: map<Id, User>, ops: seq<UserOp>): map<Id, User>
    requires ValidRun(users, ops)
    decreases |ops|
  {
    if ops == [] then users else Run(Apply(users, ops[0]).table, ops[1..])
  }

  lemma {:induction false} RunPreservesWellFormed(users: map<Id, User>, ops: seq<UserOp>)
    requires WellFormed(users) && ValidRun(users, ops)
    ensures WellFormed(Run(users, ops))
    decreases |ops|
  {
    if ops != [] {
      ApplyPreserves(users, ops[0]);
      RunPreservesWellFormed(Apply(users, ops[0]).table, ops[1..]);
    }
  }

  /** No well-formed row holds an OTP, so `verifyOtp` refuses on a
      well-formed table. */
  lemma WellFormedRefusesOtp(users: map<Id, User>, phone: Option<string>, otp: Option<string>, now: Millis)
    requires WellFormed(users)
    ensures PasswordController.VerifyOtp(users, phone, otp, now) == Reply(users, 400, "Invalid or expired OTP")
  {
    assert !AnyUser(users, ByPhoneAndOtp(phone, otp)) by {
      forall k | k in users
        ensures !UserMatches(users[k], ByPhoneAndOtp(phone, otp))
      {
        assert RowOk(users[k]);
      }
    }
  }

  /** Nothing in the service stores an OTP, so from an empty table, whatever
      requests came before, `verifyOtp` always refuses. */
  lemma {:induction false} OtpNeverVerifies(ops: seq<UserOp>, phone: Option<string>, otp: Option<string>, now: Millis)
    requires ValidRun(map[], ops)
    ensures PasswordController.VerifyOtp(Run(map[], ops), phone, otp, now) ==
            Reply(Run(map[], ops), 400, "Invalid or expired OTP")
  {
    RunPreservesWellFormed(map[], ops);
    WellFormedRefusesOtp(Run(map[], ops), phone, otp, now);
  }

  // ---------------------------------------------------------------------------
  // The `doctor` table

  datatype DoctorOp =
    | RegisterDoctor(name: Option<string>, specialty: Option<string>, title: Option<string>,
                     phone: Option<string>, email: Option<string>, password: string,
                     files: seq<string>, newId: Id, now: Millis)
    | ResetDoctorPassword(verify: string -> Option<Payload>, token: Option<string>, newPassword: string)
    | VerifyDoctor(doctorId: Id)
    | UploadDocuments(doctorId: Id, files: seq<string>)

  predicate DoctorAdmissible(doctors: map<Id, Doctor>, op: DoctorOp)
  {
    op.RegisterDoctor? ==> op.newId !in doctors
  }

  function ApplyDoctor(doctors: map<Id, Doctor>, op: DoctorOp): Effect<Doctor>
    requires DoctorAdmissible(doctors, op)
  {
    match op
    case RegisterDoctor(name, specialty, title, phone, email, password, files, newId, now) =>
      DoctorController.RegisterDoctor(doctors, name, specialty, title, phone, email, password, files, newId, now)
    case ResetDoctorPassword(verify, token, newPassword) =>
      DoctorController.ResetPassword(doctors, verify, token, newPassword)
    case VerifyDoctor(doctorId) =>
      DoctorController.VerifyDoctor(doctors, doctorId)
    case UploadDocuments(doctorId, files) =>
      DoctorController.UploadDocuments(doctors, doctorId, files)
  }

  predicate SharesContact(d: Doctor, e: Doctor)
  {
    (d.phone.Some? && d.phone == e.phone) || (d.email.Some? && d.email == e.email)
  }

  /** No two doctors share a phone or an email. */
  predicate DoctorContactsUnique(doctors: map<Id, Doctor>)
  {
    forall a, b :: a in doctors && b in doctors && a != b ==> !SharesContact(doctors[a], doctors[b])
  }

  /** Adding a row that shares no contact with any existing row keeps
      contacts unique. */
  lemma AddKeepsUnique(doctors: map<Id, Doctor>, newId: Id, d: Doctor)
    requires DoctorContactsUnique(doctors) && newId !in doctors
    requires forall k :: k in doctors ==> !SharesContact(d, doctors[k]) && !SharesContact(doctors[k], d)
    ensures DoctorContactsUnique(doctors[newId := d])
  {
    var t := doctors[newId := d];
    forall a, b | a in t && b in t && a != b
      ensures !SharesContact(t[a], t[b])
    {
      if a != newId && b != newId {
        assert t[a] == doctors[a] && t[b] == doctors[b];
      }
    }
  }

  /** The duplicate check of `registerDoctor` keeps contacts unique. */
  lemma RegisterDoctorKeepsContactsUnique(doctors: map<Id, Doctor>, name: Option<string>,
                                          specialty: Option<string>, title: Option<string>,
                                          phone: Option<string>, email: Option<string>, password: string,
                                          files: seq<string>, newId: Id, now: Millis)
    requires DoctorContactsUnique(doctors) && newId !in doctors
    ensures DoctorContactsUnique(DoctorController.RegisterDoctor(doctors, name, specialty, title, phone, email,
                                                                 password, files, newId, now).table)
  {
    if FindDoctor(doctors, ByDoctorContact(phone, email)).None? {
      var d := Doctor(name, specialty, title, phone, email, Hash(password, DoctorController.DoctorCost),
                      DoctorController.Uploads(files), false, None, now);
      forall k | k in doctors
        ensures !SharesContact(d, doctors[k]) && !SharesContact(doctors[k], d)
      {
        assert !DoctorMatches(doctors[k], ByDoctorContact(phone, email));
      }
      AddKeepsUnique(doctors, newId, d);
    }
  }

  /** Replacing a doctor's row by one with the same contacts keeps contacts
      unique. */
  lemma SameContactsKeepUnique(doctors: map<Id, Doctor>, k: Id, d: Doctor)
    requires DoctorContactsUnique(doctors) && k in doctors
    requires d.phone == doctors[k].phone && d.email == doctors[k].email
    ensures DoctorContactsUnique(doctors[k := d])
  {
  }

  /** Registration keeps contacts unique through its duplicate check, and no
      other doctor handler writes a contact field. (The `user` table has no
      such guarantee: see UserController.ConfirmCanDuplicateEmail.) */
  lemma ApplyDoctorKeepsContactsUnique(doctors: map<Id, Doctor>, op: DoctorOp)
    requires DoctorContactsUnique(doctors) && DoctorAdmissible(doctors, op)
    ensures DoctorContactsUnique(ApplyDoctor(doctors, op).table)
  {
    match op
    case RegisterDoctor(name, specialty, title, phone, email, password, files, newId, now) =>
      RegisterDoctorKeepsContactsUnique(doctors, name, specialty, title, phone, email, password, files, newId, now);
    case ResetDoctorPassword(verify, token, newPassword) =>
      var e := DoctorController.ResetPassword(doctors, verify, token, newPassword);
      if e.response.status == 200 {
        var k := verify(token.value).value.id;
        SameContactsKeepUnique(doctors, k, e.table[k]);
      }
    case VerifyDoctor(doctorId) =>
      if doctorId in doctors {
        SameContactsKeepUnique(doctors, doctorId, doctors[doctorId].(isVerified := true));
      }
    case UploadDocuments(doctorId, files) =>
      var e := DoctorController.UploadDocuments(doctors, doctorId, files);
      if e.response.status == 200 {
        SameContactsKeepUnique(doctors, doctorId, e.table[doctorId]);
      }
  }

  /** With unique emails, the lookup by email of `loginDoctor` and the
      doctor `forgotPassword` finds the one doctor with that email, as
      `findUnique` does. */
  lemma {:induction false} EmailLookupIsUnique(doctors: map<Id, Doctor>, email: string, k: Id)
    requires DoctorContactsUnique(doctors)
    requires k in doctors && doctors[k].email == Some(email)
    ensures FindDoctor(doctors, ByEmail(email)) == Some(k)
  {
    var hit := FindDoctor(doctors, ByEmail(email));
    assert DoctorMatches(doctors[k], ByEmail(email));
    if hit != Some(k) {
      assert hit.Some? && hit.value != k;
      assert SharesContact(doctors[hit.value], doctors[k]);
    }
  }

  // ---------------------------------------------------------------------------
  // End to end

  /** Register, log in too early, verify with the code sent, log in. */
  lemma {:induction false} PatientEndToEnd(code: int, now: Millis)
    requires IsSixDigit(code)
    ensures var who := Some("a@x.com");
            var e1 := AuthController.RegisterUser(map[], None, None, who, "password1", code, 0, now);
            e1.response.status == 201 &&
            e1.sent == [Notice(Email, "a@x.com", VerificationCode(code))] &&
            AuthController.LoginUser(e1.table, who, "password1").status == 403 &&
            var e2 := AuthController.VerifyUser(e1.table, who, Some(code));
            e2.response.status == 200 && e2.table[0].isVerified &&
            AuthController.LoginUser(e2.table, who, "password1").status == 200
  {
    var who := Some("a@x.com");
    var empty: map<Id, User> := map[];
    assert |"password1"| == 9;
    assert !AnyUser(empty, ByContact(None, who));
    var e1 := AuthController.RegisterUser(empty, None, None, who, "password1", code, 0, now);
    assert e1.table.Keys == {0};
    assert UserMatches(e1.table[0], ByIdentifier(who));
    assert FindUser(e1.table, ByIdentifier(who)) == Some(0);
    assert Compare("password1", e1.table[0].password);
    AuthController.VerifyThenLogin(e1.table, who, Some(code), "password1");
  }

  // ---------------------------------------------------------------------------
  // Roles

  /** The claims of every token the service signs: a login token with role
      "user" or "doctor", or a doctor reset link with no role. */
  predicate IssuedByService(p: Payload)
  {
    p.role == Some("user") || p.role == Some("doctor") || p.role.None?
  }

  lemma ServiceSignsNoAdmin(users: map<Id, User>, doctors: map<Id, Doctor>, identifier: Option<string>,
                            email: string, password: string)
    ensures var r := AuthController.LoginUser(users, identifier, password);
            r.body.TokenBody? ==> IssuedByService(r.body.grant.payload)
    ensures var r := DoctorController.LoginDoctor(doctors, email, password);
            r.body.TokenBody? ==> IssuedByService(r.body.grant.payload)
    ensures var e := DoctorController.ForgotPassword(doctors, email);
            forall n :: n in e.sent && n.content.ResetLink? ==> IssuedByService(n.content.grant.payload)
  {
  }

  /** `isAdmin` rejects every request whose bearer token the service itself
      signed: the admin branch is reachable only with a token made elsewhere
      with the same secret. */
  lemma {:induction false} AdminUnreachable(header: Option<string>, verify: string -> Option<Payload>)
    requires forall t :: verify(t).Some? ==> IssuedByService(verify(t).value)
    ensures var d := AuthMiddleware.Authenticate(header, verify);
            d.Next? ==> !AuthMiddleware.IsAdminUser(Some(d.user))
  {
    var d := AuthMiddleware.Authenticate(header, verify);
    if d.Next? {
      var t := AuthMiddleware.BearerToken(header).value;
      assert verify(t) == Some(d.user);
      assert IssuedByService(d.user);
    }
  }
}
