/** The handlers as the source runs them: each request reads a row through a
    filter, returns early on failure, then creates a row or overwrites some of
    its fields in the store. Every method is proved to do what the handler's
    function in its controller module says, so the lemmas proved there hold of
    the store. */
module Service {
  import opened Base
  import opened Records
  import AuthController
  import PasswordController
  import UserController
  import DoctorController
  import Lifecycle

  /** The database as the handlers see it: the `user` and `doctor` tables, and
      every email and SMS sent so far. */
  class Store {
    var users: map<Id, User>
    var doctors: map<Id, Doctor>
    ghost var outbox: seq<Notice>

    /** What every handler keeps true of the tables (see Lifecycle). */
    ghost predicate Valid()
      reads this
    {
      Lifecycle.WellFormed(users) && Lifecycle.DoctorContactsUnique(doctors)
    }

    constructor ()
      ensures Valid()
      ensures users == map[] && doctors == map[] && outbox == []
    {
      users := map[];
      doctors := map[];
      outbox := [];
    }

    // -------------------------------------------------------------------------
    // controllers/authController.js

    method RegisterUser(name: Option<string>, phone: Option<string>, email: Option<string>,
                        password: string, code: int, newId: Id, now: Millis) returns (r: Response)
      requires IsSixDigit(code) && newId !in users
      modifies this
      ensures old(Valid()) ==> Valid()
      ensures var e := AuthController.RegisterUser(old(users), name, phone, email, password, code, newId, now);
              r == e.response && users == e.table && outbox == old(outbox) + e.sent
      ensures doctors == old(doctors)
    {
      if Valid() {
        Lifecycle.RegisterKeeps(users, name, phone, email, password, code, newId, now);
      }
      if |password| < 8 {
        return Response(400, "Password must be at least 8 characters long", NoBody);
      }
      var existing := FindUser(users, ByContact(phone, email));
      if existing.Some? {
        return Response(400, "Phone or email already registered", NoBody);
      }
      var hashed := Hash(password, AuthController.RegisterCost);
      users := users[newId := User(name, phone, email, hashed, false, Some(code),
                                   None, None, None, None, None, now)];
      if Truthy(email) {
        outbox := outbox + [Notice(Email, email.value, VerificationCode(code))];
      } else if Truthy(phone) {
        outbox := outbox + [Notice(Sms, phone.value, VerificationCode(code))];
      }
      r := Response(201, "User registered successfully. Verification code sent.", NoBody);
    }

    method LoginUser(identifier: Option<string>, password: string) returns (r: Response)
      ensures r == AuthController.LoginUser(users, identifier, password)
    {
      var found := FindUser(users, ByIdentifier(identifier));
      if found.None? {
        return Response(400, "Invalid email or phone number", NoBody);
      }
      var user := users[found.value];
      if !user.isVerified {
        return Response(403, "Please verify your account first", NoBody);
      }
      var isMatch := Compare(password, user.password);
      if !isMatch {
        return Response(400, "Invalid password", NoBody);
      }
      var token := Grant(Payload(found.value, Some("user")), AuthController.UserTokenLifetime);
      r := Response(200, "Login successful", TokenBody(token));
    }

    method VerifyUser(identifier: Option<string>, code: Option<int>) returns (r: Response)
      modifies this
      ensures old(Valid()) ==> Valid()
      ensures var e := AuthController.VerifyUser(old(users), identifier, code);
              r == e.response && users == e.table && outbox == old(outbox) + e.sent
      ensures doctors == old(doctors)
    {
      if Valid() {
        Lifecycle.VerifyKeeps(users, identifier, code);
      }
      var found := FindUser(users, ByIdentifier(identifier));
      if found.None? {
        return Response(400, "User not found", NoBody);
      }
      var id := found.value;
      if !CodeMatches(users[id].verificationCode, code) {
        return Response(400, "Invalid verification code", NoBody);
      }
      users := users[id := users[id].(isVerified := true, verificationCode := None)];
      r := Response(200, "Account verified successfully", NoBody);
    }

    // -------------------------------------------------------------------------
    // controllers/passwordController.js

    method ForgotPassword(identifier: Option<string>, token: string, now: Millis) returns (r: Response)
      requires IsHexToken(token)
      modifies this
      ensures old(Valid()) ==> Valid()
      ensures var e := PasswordController.ForgotPassword(old(users), identifier, token, now);
              r == e.response && users == e.table && outbox == old(outbox) + e.sent
      ensures doctors == old(doctors)
    {
      if Valid() {
        Lifecycle.ForgotKeeps(users, identifier, token, now);
      }
      var found := FindUser(users, ByIdentifier(identifier));
      if found.None? {
        return Response(404, "User not found", NoBody);
      }
      var user := users[found.value];
      users := users[found.value := user.(resetToken := Some(token),
                                          resetTokenExpiry := Some(now + PasswordController.ResetTokenLifetime))];
      if Truthy(user.email) {
        outbox := outbox + [Notice(Email, user.email.value, ResetToken(token))];
      } else if Truthy(user.phone) {
        outbox := outbox + [Notice(Sms, user.phone.value, ResetToken(token))];
      }
      r := Response(200, "Password reset instructions sent.", NoBody);
    }

    method ResetPassword(token: Option<string>, newPassword: string, now: Millis) returns (r: Response)
      modifies this
      ensures old(Valid()) ==> Valid()
      ensures var e := PasswordController.ResetPassword(old(users), token, newPassword, now);
              r == e.response && users == e.table && outbox == old(outbox) + e.sent
      ensures doctors == old(doctors)
    {
      if Valid() {
        Lifecycle.ResetKeeps(users, token, newPassword, now);
      }
      var found := FindUser(users, ByResetToken(token));
      if found.None? || PasswordController.Expired(users[found.value].resetTokenExpiry, now) {
        return Response(400, "Invalid or expired token", NoBody);
      }
      var id := found.value;
      var hashed := Hash(newPassword, PasswordController.ResetCost);
      users := users[id := users[id].(password := hashed, resetToken := None, resetTokenExpiry := None)];
      r := Response(200, "Password reset successful.", NoBody);
    }

    method VerifyOtp(phone: Option<string>, otp: Option<string>, now: Millis) returns (r: Response)
      modifies this
      ensures old(Valid()) ==> Valid()
      ensures var e := PasswordController.VerifyOtp(old(users), phone, otp, now);
              r == e.response && users == e.table && outbox == old(outbox) + e.sent
      ensures doctors == old(doctors)
      ensures old(Valid()) ==> r == Response(400, "Invalid or expired OTP", NoBody) && users == old(users)
    {
      if Valid() {
        Lifecycle.CheckOtpKeeps(users, phone, otp, now);
        Lifecycle.WellFormedRefusesOtp(users, phone, otp, now);
      }
      var found := FindUser(users, ByPhoneAndOtp(phone, otp));
      if found.None? || PasswordController.Expired(users[found.value].otpExpiry, now) {
        return Response(400, "Invalid or expired OTP", NoBody);
      }
      var id := found.value;
      users := users[id := users[id].(otpCode := None, otpExpiry := None)];
      r := Response(200, "OTP verified successfully.", NoBody);
    }

    // -------------------------------------------------------------------------
    // controllers/userController.js

    method GetUserProfile(id: Id) returns (r: Response)
      ensures r == UserController.GetUserProfile(users, id)
    {
      if id !in users {
        return Response(404, "User not found", NoBody);
      }
      var u := users[id];
      r := Response(200, "", ProfileBody(Profile(id, u.name, u.email, u.phone, u.avatar, u.createdAt)));
    }

    method RequestChangeContact(id: Id, newEmail: Option<string>, newPhone: Option<string>, code: int)
      returns (r: Response)
      requires IsSixDigit(code)
      modifies this
      ensures old(Valid()) ==> Valid()
      ensures var e := UserController.RequestChangeContact(old(users), id, newEmail, newPhone, code);
              r == e.response && users == e.table && outbox == old(outbox) + e.sent
      ensures doctors == old(doctors)
    {
      if Valid() {
        Lifecycle.RequestChangeKeeps(users, id, newEmail, newPhone, code);
      }
      if id !in users {
        return Response(404, "User not found", NoBody);
      }
      users := users[id := users[id].(verificationCode := Some(code))];
      if Truthy(newEmail) {
        outbox := outbox + [Notice(Email, newEmail.value, VerificationCode(code))];
        return Response(200, "Verification code sent to new email", NoBody);
      }
      if Truthy(newPhone) {
        outbox := outbox + [Notice(Sms, newPhone.value, VerificationCode(code))];
        return Response(200, "Verification code sent to new phone", NoBody);
      }
      r := Response(400, "No new contact provided", NoBody);
    }

    method ConfirmChangeContact(id: Id, newEmail: Option<string>, newPhone: Option<string>, code: Option<int>)
      returns (r: Response)
      modifies this
      ensures old(Valid()) ==> Valid()
      ensures var e := UserController.ConfirmChangeContact(old(users), id, newEmail, newPhone, code);
              r == e.response && users == e.table && outbox == old(outbox) + e.sent
      ensures doctors == old(doctors)
    {
      if Valid() {
        Lifecycle.ConfirmChangeKeeps(users, id, newEmail, newPhone, code);
      }
      if id !in users {
        return Response(404, "User not found", NoBody);
      }
      var user := users[id];
      if !CodeMatches(user.verificationCode, code) {
        return Response(400, "Invalid verification code", NoBody);
      }
      var updated := user.(verificationCode := None);
      if Truthy(newEmail) {
        updated := updated.(email := newEmail);
      }
      if Truthy(newPhone) {
        updated := updated.(phone := newPhone);
      }
      users := users[id := updated];
      r := Response(200, "Contact information updated successfully", NoBody);
    }

    // -------------------------------------------------------------------------
    // controllers/doctorController.js

    method RegisterDoctor(name: Option<string>, specialty: Option<string>, title: Option<string>,
                          phone: Option<string>, email: Option<string>, password: string,
                          files: seq<string>, newId: Id, now: Millis) returns (r: Response)
      requires newId !in doctors
      modifies this
      ensures old(Valid()) ==> Valid()
      ensures var e := DoctorController.RegisterDoctor(old(doctors), name, specialty, title, phone, email,
                                                       password, files, newId, now);
              r == e.response && doctors == e.table && outbox == old(outbox) + e.sent
      ensures users == old(users)
    {
      ghost var e := DoctorController.RegisterDoctor(doctors, name, specialty, title, phone, email,
                                                     password, files, newId, now);
      if Valid() {
        Lifecycle.RegisterDoctorKeepsContactsUnique(doctors, name, specialty, title, phone, email, password, files, newId, now);
      }
      var existing := FindDoctor(doctors, ByDoctorContact(phone, email));
      if existing.Some? {
        return Response(400, "Email or phone already registered", NoBody);
      }
      var hashed := Hash(password, DoctorController.DoctorCost);
      var documents := DoctorController.UploadAll(files);
      doctors := doctors[newId := Doctor(name, specialty, title, phone, email, hashed,
                                         documents, false, None, now)];
      assert doctors == e.table;
      r := Response(201, "Doctor registered successfully, pending admin approval", NoBody);
    }

    method LoginDoctor(email: string, password: string) returns (r: Response)
      ensures r == DoctorController.LoginDoctor(doctors, email, password)
    {
      var found := FindDoctor(doctors, ByEmail(email));
      if found.None? {
        return Response(400, "Invalid email or password", NoBody);
      }
      var doctor := doctors[found.value];
      var isMatch := Compare(password, doctor.password);
      if !isMatch {
        return Response(400, "Invalid email or password", NoBody);
      }
      if !doctor.isVerified {
        return Response(403, "Your account is not verified yet.", NoBody);
      }
      var token := Grant(Payload(found.value, Some("doctor")), DoctorController.DoctorTokenLifetime);
      r := Response(200, "Login successful", TokenBody(token));
    }

    method ForgotDoctorPassword(email: string) returns (r: Response)
      modifies this`outbox
      ensures old(Valid()) ==> Valid()
      ensures var e := DoctorController.ForgotPassword(old(doctors), email);
              r == e.response && doctors == e.table && outbox == old(outbox) + e.sent
    {
      var found := FindDoctor(doctors, ByEmail(email));
      if found.None? {
        return Response(404, "Doctor not found", NoBody);
      }
      var resetToken := Grant(Payload(found.value, None), DoctorController.ResetLinkLifetime);
      outbox := outbox + [Notice(Email, email, ResetLink(resetToken))];
      r := Response(200, "Password reset link sent to your email.", NoBody);
    }

    method ResetDoctorPassword(verify: string -> Option<Payload>, token: Option<string>, newPassword: string)
      returns (r: Response)
      modifies this
      ensures old(Valid()) ==> Valid()
      ensures var e := DoctorController.ResetPassword(old(doctors), verify, token, newPassword);
              r == e.response && doctors == e.table && outbox == old(outbox) + e.sent
      ensures users == old(users)
    {
      if Valid() {
        Lifecycle.ApplyDoctorKeepsContactsUnique(doctors, Lifecycle.ResetDoctorPassword(verify, token, newPassword));
      }
      if token.None? {
        return Response(500, "", NoBody);
      }
      var decoded := verify(token.value);
      if decoded.None? {
        return Response(500, "", NoBody);
      }
      var id := decoded.value.id;
      if id !in doctors {
        return Response(400, "Invalid token", NoBody);
      }
      var hashed := Hash(newPassword, DoctorController.DoctorCost);
      doctors := doctors[id := doctors[id].(password := hashed)];
      r := Response(200, "Password reset successful", NoBody);
    }

    method VerifyDoctor(doctorId: Id) returns (r: Response)
      modifies this
      ensures old(Valid()) ==> Valid()
      ensures var e := DoctorController.VerifyDoctor(old(doctors), doctorId);
              r == e.response && doctors == e.table && outbox == old(outbox) + e.sent
      ensures users == old(users)
    {
      if Valid() {
        Lifecycle.ApplyDoctorKeepsContactsUnique(doctors, Lifecycle.VerifyDoctor(doctorId));
      }
      if doctorId !in doctors {
        return Response(500, "", NoBody);
      }
      doctors := doctors[doctorId := doctors[doctorId].(isVerified := true)];
      var email := doctors[doctorId].email;
      if email.Some? {
        outbox := outbox + [Notice(Email, email.value, AccountVerified)];
      }
      r := Response(200, "Doctor verified successfully", NoBody);
    }

    method UploadDocuments(doctorId: Id, files: seq<string>) returns (r: Response)
      modifies this
      ensures old(Valid()) ==> Valid()
      ensures var e := DoctorController.UploadDocuments(old(doctors), doctorId, files);
              r == e.response && doctors == e.table && outbox == old(outbox) + e.sent
      ensures users == old(users)
    {
      if Valid() {
        Lifecycle.ApplyDoctorKeepsContactsUnique(doctors, Lifecycle.UploadDocuments(doctorId, files));
      }
      if files == [] {
        return Response(400, "No documents uploaded", NoBody);
      }
      var uploaded := DoctorController.UploadAll(files);
      if doctorId !in doctors {
        return Response(500, "", NoBody);
      }
      doctors := doctors[doctorId := doctors[doctorId].(documents := uploaded)];
      r := Response(200, "Documents uploaded successfully", DocumentsBody(uploaded));
    }
  }
}
