/** Doctor accounts: registration with documents, login, admin approval, the
    signed-link password reset and the document upload
    (controllers/doctorController.js). */
module DoctorController {
  import opened Base
  import opened Records

  /** `expiresIn: "2h"` */
  const DoctorTokenLifetime: Millis := 7_200_000

  /** `expiresIn: "15m"` of the reset link. */
  const ResetLinkLifetime: Millis := 900_000

  /** Salt rounds of every doctor hash. */
  const DoctorCost: nat := 10

  /** The documents list the uploads produce: one entry per file, in the order
      the files were given. */
  function Uploads(files: seq<string>): (docs: seq<Document>)
    ensures |docs| == |files|
    ensures forall i :: 0 <= i < |files| ==> docs[i] == Document(files[i])
  {
    if files == [] then [] else [Document(files[0])] + Uploads(files[1..])
  }

  /** The loop of `registerDoctor` that uploads the files one at a time and
      pushes each result. */
  method UploadAll(files: seq<string>) returns (docs: seq<Document>)
    ensures docs == Uploads(files)
  {
    docs := [];
    var i := 0;
    while i < |files|
      invariant 0 <= i <= |files|
      invariant |docs| == i
      invariant forall j :: 0 <= j < i ==> docs[j] == Document(files[j])
    {
      docs := docs + [Document(files[i])];
      i := i + 1;
    }
  }

  /** `registerDoctor`: uniqueness check on phone or email, then create the row
      unverified with its documents. There is no password-length check. */
  function RegisterDoctor(doctors: map<Id, Doctor>, name: Option<string>, specialty: Option<string>,
                          title: Option<string>, phone: Option<string>, email: Option<string>,
                          password: string, files: seq<string>, newId: Id, now: Millis): (e: Effect<Doctor>)
    requires newId !in doctors
    ensures e.sent == []
    ensures AnyDoctor(doctors, ByDoctorContact(phone, email)) ==>
              e == Reply(doctors, 400, "Email or phone already registered")
    ensures e.response.status == 201 <==> !AnyDoctor(doctors, ByDoctorContact(phone, email))
    ensures e.response.status == 201 ==>
              e.table.Keys == doctors.Keys + {newId} &&
              (forall k :: k in doctors ==> e.table[k] == doctors[k]) &&
              e.table[newId].phone == phone && e.table[newId].email == email &&
              e.table[newId].password == Hash(password, DoctorCost) &&
              !e.table[newId].isVerified &&
              |e.table[newId].documents| == |files| &&
              (forall i :: 0 <= i < |files| ==> e.table[newId].documents[i] == Document(files[i]))
  {
    if FindDoctor(doctors, ByDoctorContact(phone, email)).Some? then
      Reply(doctors, 400, "Email or phone already registered")
    else
      Effect(Response(201, "Doctor registered successfully, pending admin approval", NoBody),
             doctors[newId := Doctor(name, specialty, title, phone, email, Hash(password, DoctorCost),
                                     Uploads(files), false, None, now)],
             [])
  }

  /** `loginDoctor`: find by email, then password, then approval. An unknown
      email and a wrong password give the same answer; 403 is reached only
      with the right password. It writes nothing. */
  function LoginDoctor(doctors: map<Id, Doctor>, email: string, password: string): (r: Response)
    ensures r.status == 200 || r.status == 400 || r.status == 403
    ensures r.status == 400 ==> r == Response(400, "Invalid email or password", NoBody)
    ensures r.status == 400 <==>
              var hit := FindDoctor(doctors, ByEmail(email));
              hit.None? || !Compare(password, doctors[hit.value].password)
    ensures r.status == 403 ==>
              exists k :: k in doctors && doctors[k].email == Some(email) &&
                          Compare(password, doctors[k].password) && !doctors[k].isVerified
    ensures r.body.TokenBody? <==> r.status == 200
    ensures r.status == 200 ==>
              var k := r.body.grant.payload.id;
              k in doctors && doctors[k].email == Some(email) &&
              Compare(password, doctors[k].password) && doctors[k].isVerified &&
              r.body.grant == Grant(Payload(k, Some("doctor")), DoctorTokenLifetime)
    ensures var hit := FindDoctor(doctors, ByEmail(email));
            hit.Some? && Compare(password, doctors[hit.value].password) ==>
              (r == Response(403, "Your account is not verified yet.", NoBody) <==> !doctors[hit.value].isVerified) &&
              (r.status == 200 <==> doctors[hit.value].isVerified) &&
              (r.status == 200 ==> r.body.grant.payload.id == hit.value)
  {
    match FindDoctor(doctors, ByEmail(email))
    case None => Response(400, "Invalid email or password", NoBody)
    case Some(k) =>
      if !Compare(password, doctors[k].password) then Response(400, "Invalid email or password", NoBody)
      else if !doctors[k].isVerified then Response(403, "Your account is not verified yet.", NoBody)
      else Response(200, "Login successful", TokenBody(Grant(Payload(k, Some("doctor")), DoctorTokenLifetime)))
  }

  /** `forgotPassword` (doctor): sign a 15-minute `{ id }` token and mail the
      link to the given address. Nothing is stored. */
  function ForgotPassword(doctors: map<Id, Doctor>, email: string): (e: Effect<Doctor>)
    ensures e.table == doctors
    ensures !AnyDoctor(doctors, ByEmail(email)) ==> e == Reply(doctors, 404, "Doctor not found")
    ensures AnyDoctor(doctors, ByEmail(email)) ==>
              e.response == Response(200, "Password reset link sent to your email.", NoBody) &&
              |e.sent| == 1 && e.sent[0].channel == Email && e.sent[0].to == email &&
              e.sent[0].content.ResetLink? &&
              e.sent[0].content.grant.lifetime == ResetLinkLifetime &&
              e.sent[0].content.grant.payload.role.None? &&
              var k := e.sent[0].content.grant.payload.id;
              k in doctors && doctors[k].email == Some(email)
  {
    match FindDoctor(doctors, ByEmail(email))
    case None => Reply(doctors, 404, "Doctor not found")
    case Some(k) =>
      Effect(Response(200, "Password reset link sent to your email.", NoBody), doctors,
             [Notice(Email, email, ResetLink(Grant(Payload(k, None), ResetLinkLifetime)))])
  }

  /** `resetPassword` (doctor): `jwt.verify` the token (a failure throws: 500),
      find the doctor its `id` names (none: 400), replace the password only.
      `verify` is `jwt.verify` with the server's secret at the current time. */
  function ResetPassword(doctors: map<Id, Doctor>, verify: string -> Option<Payload>,
                         token: Option<string>, newPassword: string): (e: Effect<Doctor>)
    ensures e.sent == []
    ensures (token.None? || verify(token.value).None?) ==> e == Reply(doctors, 500, "")
    ensures token.Some? && verify(token.value).Some? && verify(token.value).value.id !in doctors ==>
              e == Reply(doctors, 400, "Invalid token")
    ensures e.response.status == 200 <==>
              token.Some? && verify(token.value).Some? && verify(token.value).value.id in doctors
    ensures e.response.status == 200 ==>
              var k := verify(token.value).value.id;
              e.table == doctors[k := doctors[k].(password := Hash(newPassword, DoctorCost))]
  {
    if token.None? || verify(token.value).None? then Reply(doctors, 500, "")
    else
      var k := verify(token.value).value.id;
      if k !in doctors then Reply(doctors, 400, "Invalid token")
      else Effect(Response(200, "Password reset successful", NoBody),
                  doctors[k := doctors[k].(password := Hash(newPassword, DoctorCost))], [])
  }

  /** `verifyDoctor`: approve the named doctor (an unknown id makes the update
      throw: 500) and tell them by email. */
  function VerifyDoctor(doctors: map<Id, Doctor>, doctorId: Id): (e: Effect<Doctor>)
    ensures doctorId !in doctors ==> e == Reply(doctors, 500, "")
    ensures doctorId in doctors ==>
              e.response == Response(200, "Doctor verified successfully", NoBody) &&
              e.table == doctors[doctorId := doctors[doctorId].(isVerified := true)] &&
              e.sent == (if doctors[doctorId].email.Some?
                         then [Notice(Email, doctors[doctorId].email.value, AccountVerified)] else [])
  {
    if doctorId !in doctors then Reply(doctors, 500, "")
    else
      var d := doctors[doctorId];
      Effect(Response(200, "Doctor verified successfully", NoBody),
             doctors[doctorId := d.(isVerified := true)],
             if d.email.Some? then [Notice(Email, d.email.value, AccountVerified)] else [])
  }

  /** `uploadDocuments`: with no files, 400; otherwise the caller's documents
      list is replaced by the new uploads (an unknown id makes the update
      throw: 500). */
  function UploadDocuments(doctors: map<Id, Doctor>, doctorId: Id, files: seq<string>): (e: Effect<Doctor>)
    ensures e.sent == []
    ensures files == [] ==> e == Reply(doctors, 400, "No documents uploaded")
    ensures files != [] && doctorId !in doctors ==> e == Reply(doctors, 500, "")
    ensures e.response.status == 200 <==> files != [] && doctorId in doctors
    ensures e.response.status == 200 ==>
              e.table.Keys == doctors.Keys &&
              (forall k :: k in doctors && k != doctorId ==> e.table[k] == doctors[k]) &&
              e.table[doctorId] == doctors[doctorId].(documents := e.table[doctorId].documents) &&
              |e.table[doctorId].documents| == |files| &&
              (forall i :: 0 <= i < |files| ==> e.table[doctorId].documents[i] == Document(files[i])) &&
              e.response.body == DocumentsBody(e.table[doctorId].documents)
  {
    if files == [] then Reply(doctors, 400, "No documents uploaded")
    else if doctorId !in doctors then Reply(doctors, 500, "")
    else
      var docs := Uploads(files);
      Effect(Response(200, "Documents uploaded successfully", DocumentsBody(docs)),
             doctors[doctorId := doctors[doctorId].(documents := docs)], [])
  }

  /** The reset accepts any token the server's secret verifies, whatever its
      role claim: a patient's login token names a doctor by its id alone. */
  lemma ResetIgnoresRole(doctors: map<Id, Doctor>, verify: string -> Option<Payload>, token: string,
                         newPassword: string, k: Id, role: Option<string>)
    requires verify(token) == Some(Payload(k, role)) && k in doctors
    ensures ResetPassword(doctors, verify, Some(token), newPassword).response.status == 200
    ensures ResetPassword(doctors, verify, Some(token), newPassword).table[k].password == Hash(newPassword, DoctorCost)
  {
  }
}
