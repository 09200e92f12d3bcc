/** The two tables the service owns (`user`, `doctor`), the `where` filters the
    handlers pass to Prisma and their lookups, and the shapes of what a handler
    produces: an HTTP response, the new table and the notifications it sends. */
module Records {
  import opened Base

  // ---------------------------------------------------------------------------
  // Rows

  /** A `user` row (patient). */
  datatype User = User(
    name: Option<string>,
    phone: Option<string>,
    email: Option<string>,
    password: PasswordHash,
    isVerified: bool,
    verificationCode: Option<int>,
    resetToken: Option<string>,
    resetTokenExpiry: Option<Millis>,
    otpCode: Option<string>,
    otpExpiry: Option<Millis>,
    avatar: Option<string>,
    createdAt: Millis)

  /** The stored entry for one uploaded document, identified by the file it was
      uploaded from. */
  datatype Document = Document(file: string)

  /** A `doctor` row. */
  datatype Doctor = Doctor(
    name: Option<string>,
    specialty: Option<string>,
    title: Option<string>,
    phone: Option<string>,
    email: Option<string>,
    password: PasswordHash,
    documents: seq<Document>,
    isVerified: bool,
    avatar: Option<string>,
    createdAt: Millis)

  /** The fields `getUserProfile` selects; the type has no room for the
      password, the codes or the reset token. */
  datatype Profile = Profile(
    id: Id,
    name: Option<string>,
    email: Option<string>,
    phone: Option<string>,
    avatar: Option<string>,
    createdAt: Millis)

  // ---------------------------------------------------------------------------
  // Tokens, notifications, responses

  /** The claims of a signed JWT: `{ id, role }`; the doctor reset link signs
      `{ id }` alone. */
  datatype Payload = Payload(id: Id, role: Option<string>)

  /** A token the service signs: its claims and its `expiresIn`. */
  datatype Grant = Grant(payload: Payload, lifetime: Millis)

  datatype Channel = Email | Sms

  datatype Content =
    | VerificationCode(code: int)
    | ResetToken(token: string)
    | ResetLink(grant: Grant)
    | AccountVerified

  /** One call of `sendEmail` or `sendSMS`. */
  datatype Notice = Notice(channel: Channel, to: string, content: Content)

  datatype Body =
    | NoBody
    | TokenBody(grant: Grant)
    | ProfileBody(profile: Profile)
    | DocumentsBody(documents: seq<Document>)

  /** `res.status(status).json(...)`. A 500 carries the thrown error's text,
      which the model leaves empty. */
  datatype Response = Response(status: int, message: string, body: Body)

  /** What one request does: its response, the table afterwards and the
      notifications sent, in order. */
  datatype Effect<T> = Effect(response: Response, table: map<Id, T>, sent: seq<Notice>)

  /** An early return: a response without a body, nothing written, nothing sent. */
  function Reply<T>(table: map<Id, T>, status: int, message: string): Effect<T>
  {
    Effect(Response(status, message, NoBody), table, [])
  }

  /** The contact rule shared by registration, the reset request and the contact
      change: the email if one is given, otherwise the phone, otherwise nobody. */
  function PreferEmail(email: Option<string>, phone: Option<string>, content: Content): (sent: seq<Notice>)
    ensures |sent| <= 1
    ensures forall n :: n in sent ==> n.content == content
    ensures Truthy(email) ==> sent == [Notice(Email, email.value, content)]
    ensures !Truthy(email) && Truthy(phone) ==> sent == [Notice(Sms, phone.value, content)]
    ensures sent == [] <==> !Truthy(email) && !Truthy(phone)
  {
    if Truthy(email) then [Notice(Email, email.value, content)]
    else if Truthy(phone) then [Notice(Sms, phone.value, content)]
    else []
  }

  /** A submitted code (already passed through `Number(...)`; `None` stands for
      `NaN` or a fraction) agrees with the stored one. `stored !== Number(code)`
      is the negation: a cleared code agrees with nothing. */
  predicate CodeMatches(stored: Option<int>, submitted: Option<int>)
  {
    stored.Some? && stored == submitted
  }

  // ---------------------------------------------------------------------------
  // Filters and lookups. A filter field the request leaves out matches no row.

  datatype UserFilter =
    | ByContact(phone: Option<string>, email: Option<string>)     // OR: [{ phone }, { email }]
    | ByIdentifier(identifier: Option<string>)                     // OR: [{ email: id }, { phone: id }]
    | ByResetToken(token: Option<string>)                          // { resetToken }
    | ByPhoneAndOtp(phone: Option<string>, otp: Option<string>)    // { phone, otpCode }

  predicate UserMatches(u: User, f: UserFilter)
  {
    match f
    case ByContact(phone, email) =>
      (phone.Some? && u.phone == phone) || (email.Some? && u.email == email)
    case ByIdentifier(identifier) =>
      identifier.Some? && (u.email == identifier || u.phone == identifier)
    case ByResetToken(token) =>
      token.Some? && u.resetToken == token
    case ByPhoneAndOtp(phone, otp) =>
      phone.Some? && otp.Some? && u.phone == phone && u.otpCode == otp
  }

  ghost predicate AnyUser(users: map<Id, User>, f: UserFilter)
  {
    exists k :: k in users && UserMatches(users[k], f)
  }

  /** `prisma.user.findFirst({ where: f })`. Without `orderBy` the database may
      return any match; the model returns the one with the least id. */
  function FindUser(users: map<Id, User>, f: UserFilter): (r: Option<Id>)
    ensures r.None? <==> !AnyUser(users, f)
    ensures r.Some? ==> r.value in users && UserMatches(users[r.value], f)
    ensures r.Some? ==> forall k :: k in users && UserMatches(users[k], f) ==> r.value <= k
  {
    var hits := set k | k in users && UserMatches(users[k], f);
    assert forall k :: k in users && UserMatches(users[k], f) ==> k in hits;
    if hits == {} then None else Some(Least(hits))
  }

  /** A write that leaves every row's membership in `f` as it was does not
      change which row `f` finds. */
  lemma FindUserStable(users: map<Id, User>, users': map<Id, User>, f: UserFilter)
    requires users'.Keys == users.Keys
    requires forall k :: k in users ==> (UserMatches(users'[k], f) <==> UserMatches(users[k], f))
    ensures FindUser(users', f) == FindUser(users, f)
  {
    assert (set k | k in users' && UserMatches(users'[k], f)) == (set k | k in users && UserMatches(users[k], f));
  }

  datatype DoctorFilter =
    | ByDoctorContact(phone: Option<string>, email: Option<string>)   // OR: [{ phone }, { email }]
    | ByEmail(address: string)                                         // findUnique({ email })

  predicate DoctorMatches(d: Doctor, f: DoctorFilter)
  {
    match f
    case ByDoctorContact(phone, email) =>
      (phone.Some? && d.phone == phone) || (email.Some? && d.email == email)
    case ByEmail(address) =>
      d.email == Some(address)
  }

  ghost predicate AnyDoctor(doctors: map<Id, Doctor>, f: DoctorFilter)
  {
    exists k :: k in doctors && DoctorMatches(doctors[k], f)
  }

  /** `prisma.doctor.findFirst` / `findUnique` by a filter; the least matching id. */
  function FindDoctor(doctors: map<Id, Doctor>, f: DoctorFilter): (r: Option<Id>)
    ensures r.None? <==> !AnyDoctor(doctors, f)
    ensures r.Some? ==> r.value in doctors && DoctorMatches(doctors[r.value], f)
    ensures r.Some? ==> forall k :: k in doctors && DoctorMatches(doctors[k], f) ==> r.value <= k
  {
    var hits := set k | k in doctors && DoctorMatches(doctors[k], f);
    assert forall k :: k in doctors && DoctorMatches(doctors[k], f) ==> k in hits;
    if hits == {} then None else Some(Least(hits))
  }
}
