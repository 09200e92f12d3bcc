/** Patient password recovery: the reset-token request, its consumption, and
    the OTP check (controllers/passwordController.js). */
module PasswordController {
  import opened Base
  import opened Records

  /** `new Date(Date.now() + 3600000)` */
  const ResetTokenLifetime: Millis := 3_600_000

  /** Salt rounds of the reset hash. */
  const ResetCost: nat := 10

  /** `expiry < new Date()`. A missing expiry compares as `null`, which
      JavaScript turns into 0. An expiry equal to now has not passed. */
  predicate Expired(expiry: Option<Millis>, now: Millis)
  {
    (if expiry.None? then 0 else expiry.value) < now
  }

  /** `forgotPassword`: find by email or phone, store a fresh token valid one
      hour, send it to the row's email, else its phone. `token` is the drawn
      `randomBytes(32)` in hex. */
  function ForgotPassword(users: map<Id, User>, identifier: Option<string>, token: string,
                          now: Millis): (e: Effect<User>)
    requires IsHexToken(token)
    ensures !AnyUser(users, ByIdentifier(identifier)) ==> e == Reply(users, 404, "User not found")
    ensures AnyUser(users, ByIdentifier(identifier)) ==>
              var k := FindUser(users, ByIdentifier(identifier)).value;
              e.response == Response(200, "Password reset instructions sent.", NoBody) &&
              e.table == users[k := users[k].(resetToken := Some(token),
                                               resetTokenExpiry := Some(now + ResetTokenLifetime))] &&
              e.sent == PreferEmail(users[k].email, users[k].phone, ResetToken(token))
  {
    match FindUser(users, ByIdentifier(identifier))
    case None => Reply(users, 404, "User not found")
    case Some(k) =>
      var u := users[k];
      Effect(Response(200, "Password reset instructions sent.", NoBody),
             users[k := u.(resetToken := Some(token), resetTokenExpiry := Some(now + ResetTokenLifetime))],
             PreferEmail(u.email, u.phone, ResetToken(token)))
  }

  /** `resetPassword`: the row holding the token, if its expiry has not passed,
      gets the new password and loses the token. */
  function ResetPassword(users: map<Id, User>, token: Option<string>, newPassword: string,
                         now: Millis): (e: Effect<User>)
    ensures e.sent == []
    ensures e.response.status == 200 || e.response.status == 400
    ensures e.response.status == 400 ==> e == Reply(users, 400, "Invalid or expired token")
    ensures !AnyUser(users, ByResetToken(token)) ==> e.response.status == 400
    ensures e.response.status == 200 <==>
              var hit := FindUser(users, ByResetToken(token));
              hit.Some? && !Expired(users[hit.value].resetTokenExpiry, now)
    ensures e.response.status == 200 ==>
              exists k :: k in users && users[k].resetToken == token && token.Some? &&
                          !Expired(users[k].resetTokenExpiry, now) &&
                          e.table == users[k := users[k].(password := Hash(newPassword, ResetCost),
                                                           resetToken := None, resetTokenExpiry := None)]
    ensures e.response.status == 200 ==>
              var k := FindUser(users, ByResetToken(token)).value;
              e.table == users[k := users[k].(password := Hash(newPassword, ResetCost),
                                              resetToken := None, resetTokenExpiry := None)]
  {
    var hit := FindUser(users, ByResetToken(token));
    if hit.None? || Expired(users[hit.value].resetTokenExpiry, now) then
      Reply(users, 400, "Invalid or expired token")
    else
      var k := hit.value;
      Effect(Response(200, "Password reset successful.", NoBody),
             users[k := users[k].(password := Hash(newPassword, ResetCost), resetToken := None, resetTokenExpiry := None)],
             [])
  }

  /** `verifyOtp`: the row with that phone and OTP, if its OTP has not expired,
      loses the OTP and nothing else. */
  function VerifyOtp(users: map<Id, User>, phone: Option<string>, otp: Option<string>,
                     now: Millis): (e: Effect<User>)
    ensures e.sent == []
    ensures e.response.status == 200 || e.response.status == 400
    ensures e.response.status == 400 ==> e == Reply(users, 400, "Invalid or expired OTP")
    ensures !AnyUser(users, ByPhoneAndOtp(phone, otp)) ==> e.response.status == 400
    ensures e.response.status == 200 <==>
              var hit := FindUser(users, ByPhoneAndOtp(phone, otp));
              hit.Some? && !Expired(users[hit.value].otpExpiry, now)
    ensures e.response.status == 200 ==>
              exists k :: k in users && users[k].phone == phone && users[k].otpCode == otp && otp.Some? &&
                          !Expired(users[k].otpExpiry, now) &&
                          e.table == users[k := users[k].(otpCode := None, otpExpiry := None)]
    ensures e.response.status == 200 ==>
              var k := FindUser(users, ByPhoneAndOtp(phone, otp)).value;
              e.table == users[k := users[k].(otpCode := None, otpExpiry := None)]
  {
    var hit := FindUser(users, ByPhoneAndOtp(phone, otp));
    if hit.None? || Expired(users[hit.value].otpExpiry, now) then
      Reply(users, 400, "Invalid or expired OTP")
    else
      var k := hit.value;
      Effect(Response(200, "OTP verified successfully.", NoBody),
             users[k := users[k].(otpCode := None, otpExpiry := None)], [])
  }

  /** At most one row holds `token`. A fresh 256-bit token is assumed not to
      collide with another row's. */
  ghost predicate HeldOnlyBy(users: map<Id, User>, token: string, k: Id)
  {
    k in users && users[k].resetToken == Some(token) &&
    forall j :: j in users && j != k ==> users[j].resetToken != Some(token)
  }

  /** A token is good for one reset: afterwards no row holds it. */
  lemma {:induction false} ResetSingleUse(users: map<Id, User>, token: string, k: Id,
                                          newPassword: string, now: Millis, again: string, later: Millis)
    requires HeldOnlyBy(users, token, k)
    requires ResetPassword(users, Some(token), newPassword, now).response.status == 200
    ensures var t := ResetPassword(users, Some(token), newPassword, now).table;
            ResetPassword(t, Some(token), again, later) == Reply(t, 400, "Invalid or expired token")
  {
    var t := ResetPassword(users, Some(token), newPassword, now).table;
    assert FindUser(users, ByResetToken(Some(token))) == Some(k);
    assert !AnyUser(t, ByResetToken(Some(token))) by {
      forall j | j in t
        ensures !UserMatches(t[j], ByResetToken(Some(token)))
      {
        if j != k {
          assert t[j] == users[j];
        }
      }
    }
  }

  /** The reset window: a token issued at `now` resets the password at any time
      up to and including `now + ResetTokenLifetime`, and never later. */
  lemma {:induction false} ResetWindow(users: map<Id, User>, identifier: Option<string>, token: string,
                                       now: Millis, later: Millis, newPassword: string)
    requires IsHexToken(token)
    requires AnyUser(users, ByIdentifier(identifier))
    requires forall j :: j in users ==> users[j].resetToken != Some(token)
    ensures var t := ForgotPassword(users, identifier, token, now).table;
            ResetPassword(t, Some(token), newPassword, later).response.status == 200 <==>
            later <= now + ResetTokenLifetime
  {
    var k := FindUser(users, ByIdentifier(identifier)).value;
    var t := ForgotPassword(users, identifier, token, now).table;
    assert t[k].resetToken == Some(token);
    assert FindUser(t, ByResetToken(Some(token))) == Some(k);
  }
}
