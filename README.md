# Account lifecycle of the medical-platform backend, in Dafny

This project models the account lifecycle of an Express/Prisma backend for a
medical platform. It covers patient (`user`) and doctor accounts:

- registration;
- verification by a six-digit code (patients) or by admin approval (doctors);
- login and the signed tokens it returns;
- password recovery: a stored hex reset token for patients, a signed 15-minute
  link for doctors, and an OTP check;
- the profile read, the profile update and the two-step contact change;
- doctor document upload;
- the bearer-token and admin guards.

The layers:

- **Base** and **Records** hold the two tables, the request filters and the
  response vocabulary.
- Each controller becomes a module (`AuthController`, `PasswordController`,
  `UserController`, `DoctorController`). In it, each handler is a pure
  function. The function returns the response, the table afterwards and the
  emails and SMS sent (an `Effect`).
- `Service.Store` is the database as the handlers change it: the two tables are
  fields, and a ghost outbox records the notifications. Each handler is a
  method that runs the source's steps in order: look up, return early, then
  create or update. Each method is proved to produce exactly its function's
  effect. It is also proved to keep the store invariant.
- `AuthMiddleware` models `Authorization` header parsing, including JavaScript
  `split(" ")` and its inverse. The class `Exchange` is one request passing
  through `authenticateToken` and `isAdmin`.
- `Lifecycle` holds the properties that span requests:
  - the invariant every user-table handler keeps;
  - a proof that `verifyOtp` refuses after any sequence of requests;
  - doctor-contact uniqueness;
  - patient register → login (403) → verify → login (200);
  - no token the service signs passes `isAdmin`.

Where the code departs from the rules an account service is meant to keep,
the model follows the code:

- A contact value is meant to be unique within an account kind. The handlers
  check this only at registration. `confirmChangeContact` overwrites a contact
  without a check, so unless the database schema declares email unique, two
  patients can end up sharing an email (`UserController.ConfirmCanDuplicateEmail`).
  Doctor contacts stay unique, because no doctor handler rewrites them.
- Profile update is meant to change the name and avatar. In
  controllers/userController.js, `updateUserProfile` reads `user.avatar` at
  line 47, before the `const user` declaration at line 53. Every call that gets
  past the optional upload therefore throws and answers 500, and the table is
  never written (`UserController.UpdateUserProfile`).
- No handler issues an OTP. The only route to a successful `verifyOtp` is a row
  written by something outside this service (`Lifecycle.OtpNeverVerifies`).
- The admin check is unreachable with any token this service signs
  (`Lifecycle.AdminUnreachable`). Doctor approval therefore needs a token
  minted elsewhere with the same secret.

Modelling conventions:

- Prisma `findFirst` without `orderBy` returns the matching row with the least
  id.
- A filter field the request leaves out (`undefined`) matches no row.
- `Number(code)` arrives already converted: `None` stands for `NaN` or a
  fraction.
- bcrypt is symbolic: `Bcrypt(cost, secret)`.
- `jwt.verify` is a function parameter `string -> Option<Payload>`.
- The random values and the clock are parameters, constrained to the ranges the
  source draws from:
  - the six-digit code;
  - the 64-character hex reset token;
  - a fresh row id;
  - `now` in milliseconds.

## Model

| member | source | states |
|---|---|---|
| Base.Least | controllers/authController.js:22-24 | the id chosen from a non-empty set of matches is one of them and no larger than any other |
| Records.PreferEmail | controllers/authController.js:49-57 | at most one notice. The email goes out when the email is truthy, else an SMS when the phone is truthy, else nothing. Nothing is sent iff neither contact is truthy |
| Records.FindUser | controllers/authController.js:71-73 | none iff no row matches the filter; otherwise a matching row, the least such id |
| Records.FindUserStable | controllers/authController.js:99-112 | an update that keeps the keys and which rows match a filter does not change what the lookup finds |
| Records.FindDoctor | controllers/doctorController.js:22-24 | none iff no doctor matches; otherwise a matching doctor, the least such id |
| AuthController.RegisterUser | controllers/authController.js:12-61 | a password under 8 characters gets 400, and so does a phone or email already on a row. 201 iff neither applies, and then exactly one new row is added: contacts as given, unverified, a bcrypt hash of cost 12, the six-digit code stored. The code goes to the email, else the phone |
| AuthController.LoginUser | controllers/authController.js:68-88 | 400 "Invalid email or phone number" iff no row has the identifier. For the row the lookup finds: 403 iff it is unverified, 400 "Invalid password" iff it is verified and the password is wrong, 200 iff it is verified and the password is right. A token is returned iff the status is 200; it names the found row, carries role "user" and lasts one hour |
| AuthController.VerifyUser | controllers/authController.js:95-114 | 400 "User not found" when no row has the identifier. For the row the lookup finds: 200 iff the code equals its stored code, and then only that row changes: it becomes verified and its code is cleared. Otherwise 400 "Invalid verification code" and no change. Nothing is sent |
| AuthController.LoginUnverifiedIgnoresPassword | controllers/authController.js:77-82 | when login answers 403, it answers the same whatever password is given |
| AuthController.VerifyTwiceFails | controllers/authController.js:105-111 | after a successful verification the same code is refused |
| AuthController.VerifyThenLogin | controllers/authController.js:75-88 | after a successful verification, the registered password logs in with 200 |
| PasswordController.ForgotPassword | controllers/passwordController.js:10-36 | 404 when no row has the identifier. Otherwise that row alone gets the token and an expiry one hour ahead, and the token goes to the row's email, else its phone |
| PasswordController.ResetPassword | controllers/passwordController.js:43-62 | 200 iff the row the lookup finds for the token has an expiry not in the past. Then that row alone gets a cost-10 hash of the new password, and its token and expiry are cleared. Otherwise 400 and no change |
| PasswordController.VerifyOtp | controllers/passwordController.js:69-83 | 200 iff the row the lookup finds for phone and OTP has an expiry not in the past; then only that row's OTP and expiry are cleared |
| PasswordController.ResetSingleUse | controllers/passwordController.js:53-60 | a reset token works once: a second reset with it is refused |
| PasswordController.ResetWindow | controllers/passwordController.js:19-24 | after a forgot-password request at time t, a reset with the new token succeeds iff it comes no later than t + 3600000 ms |
| UserController.GetUserProfile | controllers/userController.js:9-25 | 404 for an unknown id; otherwise 200 with exactly the selected fields of the caller's row |
| UserController.ProfileHidesSecrets | controllers/userController.js:11-22 | the answer depends only on the selected fields, not on password, codes or tokens |
| UserController.UpdateUserProfile | controllers/userController.js:32-61 | the table is never written and nothing is sent; 400 iff a file was given and its upload failed, 500 otherwise |
| UserController.RequestChangeContact | controllers/userController.js:65-93 | for a known id the fresh code is stored whatever follows, and the stored contacts stay as they were. 200 iff a new email or phone is given, and the code goes to the new email, else the new phone. 400 otherwise |
| UserController.ConfirmChangeContact | controllers/userController.js:100-119 | 200 iff the id is known and the code equals the stored one. Then only that row changes: the code is cleared and each truthy new contact replaces the old one |
| UserController.RequestThenConfirm | controllers/userController.js:72-117 | the code a change request stores confirms that change, and the new contacts are written |
| UserController.ConfirmTwiceFails | controllers/userController.js:106-110 | a confirmed code cannot confirm a second change |
| UserController.ConfirmCanDuplicateEmail | controllers/userController.js:110-117 | a confirmed change can take another row's email, leaving two rows with one email |
| DoctorController.Uploads | controllers/doctorController.js:34-40 | one document entry per file, in order |
| DoctorController.UploadAll | controllers/doctorController.js:34-40 | the upload loop builds exactly `Uploads(files)` |
| DoctorController.RegisterDoctor | controllers/doctorController.js:17-58 | 400 when a phone or email is already registered, 201 otherwise. There is no password check. The new row is unverified, has a cost-10 hash and lists one document per file, in order. Every other row is unchanged |
| DoctorController.LoginDoctor | controllers/doctorController.js:67-88 | an unknown email and a wrong password both get the same 400. With the right password on the found doctor: 403 iff unapproved, 200 iff approved, and the token names that doctor. A token is returned iff the status is 200; it carries role "doctor" and lasts two hours |
| DoctorController.ForgotPassword | controllers/doctorController.js:156-173 | nothing is stored. An unknown email gets 404. Otherwise one email to the given address carries a 15-minute link that names the doctor by id and has no role |
| DoctorController.ResetPassword | controllers/doctorController.js:182-199 | a missing or unverifiable token gets 500, and an id no row has gets 400. Otherwise only that doctor's password changes, to a cost-10 hash |
| DoctorController.VerifyDoctor | controllers/doctorController.js:208-223 | an unknown id gets 500. Otherwise that doctor is approved and an email is sent to their address |
| DoctorController.UploadDocuments | controllers/doctorController.js:229-250 | no files gets 400, an unknown id 500. Otherwise only the caller's document list changes: it is replaced by one entry per file, and the body returns that list |
| DoctorController.ResetIgnoresRole | controllers/doctorController.js:186-197 | any token the secret verifies resets the password of the doctor its id names, whatever its role |
| AuthMiddleware.Split | middlewares/authMiddleware.js:7 | no field of `split(" ")` contains a space, and there is at least one field |
| AuthMiddleware.JoinSplit | middlewares/authMiddleware.js:7 | joining the fields with single spaces gives back the header |
| AuthMiddleware.SplitPrefix | middlewares/authMiddleware.js:7 | a space-free prefix is glued to the first field of what follows |
| AuthMiddleware.SplitJoin | middlewares/authMiddleware.js:7 | splitting space-free fields joined by spaces gives back the fields |
| AuthMiddleware.BearerToken | middlewares/authMiddleware.js:7-8 | an extracted token is non-empty and contains no space |
| AuthMiddleware.TokenIsSecondField | middlewares/authMiddleware.js:7 | the token is t iff the header is some space-free fields joined by single spaces, at least two of them, and the second is t |
| AuthMiddleware.AnySchemeAccepted | middlewares/authMiddleware.js:7 | any scheme word followed by a space and a token yields that token, "Bearer" or not |
| AuthMiddleware.Authenticate | middlewares/authMiddleware.js:6-18 | no token gets 401 and a token verify refuses gets 403. The request proceeds iff verify accepts the token, and then with exactly the decoded claims |
| AuthMiddleware.Exchange.constructor | middlewares/authMiddleware.js:6 | a request starts with no user, no response and no call of next |
| AuthMiddleware.Exchange.AuthenticateToken | middlewares/authMiddleware.js:6-18 | on a pass, `req.user` is set and next runs once with no response written. On a denial, the 401/403 response is written and next does not run |
| AuthMiddleware.Exchange.IsAdmin | middlewares/authMiddleware.js:22-27 | next runs once iff the user's role is "admin"; otherwise 403 "Access denied, admin only" |
| Lifecycle.ApplyPreserves | controllers/passwordController.js:19-24 | every user-table handler keeps each row well formed. A stored code has six digits, a reset token comes with its expiry, and no OTP is stored |
| Lifecycle.RunPreservesWellFormed | controllers/authController.js:38-47 | any sequence of user-table requests keeps the table well formed |
| Lifecycle.WellFormedRefusesOtp | controllers/passwordController.js:72-76 | on any table whose rows are well formed, `verifyOtp` answers 400 "Invalid or expired OTP" and writes nothing |
| Lifecycle.OtpNeverVerifies | controllers/passwordController.js:72-76 | from an empty table, after any requests, `verifyOtp` answers 400 "Invalid or expired OTP" |
| Lifecycle.ApplyDoctorKeepsContactsUnique | controllers/doctorController.js:22-28 | every doctor-table handler keeps phones and emails unique across doctors |
| Lifecycle.EmailLookupIsUnique | controllers/doctorController.js:71 | with unique contacts, the lookup by email finds the one doctor with that email |
| Lifecycle.PatientEndToEnd | controllers/authController.js:12-114 | register by email gets 201 and emails the code. Login then gets 403, verification with the code gets 200, and login then gets 200 |
| Lifecycle.ServiceSignsNoAdmin | controllers/authController.js:85-87 | every token the logins and the doctor reset link sign has role "user", "doctor" or none |
| Lifecycle.AdminUnreachable | middlewares/authMiddleware.js:22-25 | when verify accepts only tokens the service signs, no authenticated request passes the admin check |
| Service.Store.constructor | controllers/authController.js:8 | the store starts with empty tables and no notices, and satisfies the invariant |
| Service.Store.RegisterUser | controllers/authController.js:12-61 | the response, the new user table and the notices appended are those of `AuthController.RegisterUser`; the invariant is kept and doctors are untouched |
| Service.Store.LoginUser | controllers/authController.js:68-88 | the response is that of `AuthController.LoginUser` |
| Service.Store.VerifyUser | controllers/authController.js:95-114 | the effect is that of `AuthController.VerifyUser`; the invariant is kept |
| Service.Store.ForgotPassword | controllers/passwordController.js:10-36 | the effect is that of `PasswordController.ForgotPassword`; the invariant is kept |
| Service.Store.ResetPassword | controllers/passwordController.js:43-62 | the effect is that of `PasswordController.ResetPassword`; the invariant is kept |
| Service.Store.VerifyOtp | controllers/passwordController.js:69-83 | the effect is that of `PasswordController.VerifyOtp`; the invariant is kept, and on a store satisfying it the answer is always 400 "Invalid or expired OTP" with the table unchanged |
| Service.Store.GetUserProfile | controllers/userController.js:9-25 | the response is that of `UserController.GetUserProfile` |
| Service.Store.RequestChangeContact | controllers/userController.js:65-93 | the effect is that of `UserController.RequestChangeContact`; the invariant is kept |
| Service.Store.ConfirmChangeContact | controllers/userController.js:100-119 | the effect is that of `UserController.ConfirmChangeContact`; the invariant is kept |
| Service.Store.RegisterDoctor | controllers/doctorController.js:17-58 | the effect is that of `DoctorController.RegisterDoctor`; the invariant is kept |
| Service.Store.LoginDoctor | controllers/doctorController.js:67-88 | the response is that of `DoctorController.LoginDoctor` |
| Service.Store.ForgotDoctorPassword | controllers/doctorController.js:156-173 | the response and the notices are those of `DoctorController.ForgotPassword`; the tables are untouched |
| Service.Store.ResetDoctorPassword | controllers/doctorController.js:182-199 | the effect is that of `DoctorController.ResetPassword`; the invariant is kept |
| Service.Store.VerifyDoctor | controllers/doctorController.js:208-223 | the effect is that of `DoctorController.VerifyDoctor`; the invariant is kept |
| Service.Store.UploadDocuments | controllers/doctorController.js:229-250 | the effect is that of `DoctorController.UploadDocuments`; the invariant is kept |

## Left out

- Routing, Swagger, the server set-up, `config.js`, `validator.js` and the response helpers: they carry no account logic. The `uploadDocuments` handler has no route and is modelled only as a handler.
- `getDoctorProfile` and `updateDoctorProfile`: they read and write profile fields outside the account lifecycle (working hours through `JSON.parse`), and no lifecycle property depends on them.
- DoctorController.Uploads: a document entry records only which file it came from and in what order. The stored value is `result.secure_url` of what `uploadToCloudinary` returns, and that helper is not part of this model.
- UserController.UpdateUserProfile: the Cloudinary calls are reduced to whether an upload was attempted and whether it failed.
- bcrypt internals (salting, the 72-byte input limit): a hash is `Bcrypt(cost, password)`, and compare re-hashes at the stored cost.
- JWT signing, secrets and expiry: a signed token is its claims plus a lifetime, and `jwt.verify` is a parameter. Whether a token has expired is the parameter's business.
- Randomness and the clock: `Math.random`, `crypto.randomBytes`, row ids and `Date.now()` are parameters with the ranges the source draws from. A fresh reset token is assumed not to match another row's.
- Prisma semantics: `findFirst` is modelled as the least matching id, and `findUnique` on email as the same lookup (proved unique for doctors). A filter field the request omits matches nothing, whereas Prisma drops `undefined` conditions.
- `Number(...)` on the submitted code is abstracted as an `Option<int>`.
- Request fields are taken to be strings or absent. An explicit JSON `null` is treated like an absent field, so it matches no row, whereas Prisma matches `{ phone: null }` against rows whose phone is null. For example, `registerUser` with `phone: null` is refused when some row has no phone, and a `null` identifier finds a row with a null email or phone. Objects in a request field, which Prisma reads as filters (`{ "not": "" }`), are not modelled.
- Request bodies whose string fields are missing (`password.length` on `undefined` and the like) throw 500 in the source; the model takes those fields as present.
- AuthController.RegisterUser: the password length is counted in Unicode code points, whereas JavaScript `password.length` counts UTF-16 code units. A password of characters outside the Basic Multilingual Plane can therefore pass the 8-character check in the source yet fail it in the model.
- DoctorController.RegisterDoctor and DoctorController.UploadDocuments: a failed upload to the file store throws in the source (500, no row created or changed); the model takes every upload to succeed.
- Failures of the email/SMS sender and of the database, and the 500s they cause. The text of a 500 whose message is the thrown error's is left empty.
- DoctorController.VerifyDoctor: when the doctor has no email, the source still calls the sender with `null`; the model records no notice.
- Concurrency: the check-then-create race at registration is not modelled, because requests are applied one at a time.
