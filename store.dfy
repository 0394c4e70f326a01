/** The persistent state both controllers work on, and the shapes of what a
    handler sends back. The two collections are maps keyed by email (the
    unique `email` index makes that a function); an outbox stands for the
    mail transport. */
module Store {
  import opened Wrappers
  import opened Crypto
  import opened Models

  // ---------------------------------------------------------------------
  // Responses
  // ---------------------------------------------------------------------

  /** The JSON bodies the handlers send. `ServerError` is the plain-text
      "Server error". */
  datatype Body =
    | Msg(msg: string)
    | FieldError(field: string, error: string)
    | TokenIssued(token: Token)
    | MsgToken(msg: string, token: Token)
    | ExistsReport(message: string, exists_: bool)
    | EnrollReport(message: string, exists_: bool, proceed: bool)
    | NotExists
    | ServerError

  /** A `Set-Cookie` the handler adds. */
  datatype Cookie = Cookie(name: string, value: Token, maxAgeMs: nat)

  datatype Response = Response(status: nat, body: Body, cookie: Option<Cookie>)

  function Reply(status: nat, body: Body): (r: Response)
    ensures r.cookie == None && r.status == status && r.body == body
  {
    Response(status, body, None)
  }

  const ServerErrorResponse := Response(500, ServerError, None)

  const OneHourMs: nat := 60 * 60 * 1000
  const ThirtyDaysMs: nat := 30 * 24 * 60 * 60 * 1000

  /** A message handed to the mail transport. */
  datatype Mail = OtpMail(to: string, code: string) | ResetMail(to: string, url: string)

  /** Messages both controllers send. */
  const EmailIncorrectMsg := "Invalid Credentials! Email is incorrect."
  const PasswordIncorrectMsg := "Invalid Credentials! Password is incorrect."
  const OtpSentMsg := "OTP sent to your email"
  const CanLoginMsg := "User already exists, you can login!"
  const EmailSentMsg := "Email sent"
  const ResetInvalidMsg := "Token is invalid or has expired"
  const ResetDoneMsg := "Password reset successful"
  const HeaderMissingMsg := "Authorization header missing"
  const TokenMissingMsg := "Token missing from Authorization header"
  const TokenExpiredMsg := "Token Expired! Please relogin!"
  const NoEmailClaimMsg := "JWT expired or invalid"
  const UserNotFoundMsg := "User not found"
  const OtpAlreadySentMsg := "An OTP has already been sent. Please wait for it to expire before requesting a new one."
  const OtpResentMsg := "OTP sent successfully"
  /** A reset link stays valid for one hour. */
  const ResetWindowMs: nat := 3600000

  // ---------------------------------------------------------------------
  // The Authorization header
  // ---------------------------------------------------------------------

  /** The Authorization header as received, already cut at single spaces
      (`split(" ")`), or `None` when the request has none. An empty header
      cuts into `[Raw("")]`. */
  type AuthHeader = Option<seq<Token>>

  /** `!authHeader` is false: the header exists and is not empty. */
  predicate HeaderPresent(h: AuthHeader)
  {
    h.Some? && h.value != [] && h.value != [Raw("")]
  }

  /** `authHeader.split(" ")[1]` when it is truthy; `None` when it is
      `undefined` or empty. */
  function BearerToken(h: AuthHeader): (t: Option<Token>)
    ensures t.Some? ==> h.Some? && |h.value| >= 2 && t.value == h.value[1] && Truthy(t.value)
    ensures t.None? ==> h.None? || |h.value| < 2 || !Truthy(h.value[1])
  {
    if h.Some? && |h.value| >= 2 && Truthy(h.value[1]) then Some(h.value[1]) else None
  }

  /** `decoded.email` tested for truthiness: present and not empty. */
  function TruthyEmail(c: Claims): (e: Option<string>)
    ensures e.Some? <==> c.EmailClaims? && c.email != ""
    ensures e.Some? ==> e.value == c.email
  {
    if c.EmailClaims? && c.email != "" then Some(c.email) else None
  }

  /** Why a handler that needs a bearer token stops before reading it. */
  datatype GateFailure = HeaderMissing | TokenMissing | TokenMalformed | TokenExpired

  /** The claims of a verified bearer token, or the first check that fails:
      header present, token present, `jwt.verify` succeeds. */
  datatype Gate = Pass(claims: Claims) | Fail(why: GateFailure)

  /** The preamble of the two `verifyOtp` and two `resendOtp` handlers at
      time `now`. */
  function ReadBearer(h: AuthHeader, now: nat): (g: Gate)
    ensures g == Fail(HeaderMissing) <==> !HeaderPresent(h)
    ensures g == Fail(TokenMissing) <==> HeaderPresent(h) && BearerToken(h).None?
    ensures g == Fail(TokenMalformed) <==> HeaderPresent(h) && BearerToken(h).Some? && BearerToken(h).value.Raw?
    ensures g.Pass? <==> HeaderPresent(h) && BearerToken(h).Some? && Verify(BearerToken(h).value, now).Verified?
    ensures g.Pass? ==> g.claims == BearerToken(h).value.claims
  {
    if !HeaderPresent(h) then Fail(HeaderMissing)
    else match BearerToken(h)
      case None => Fail(TokenMissing)
      case Some(t) =>
        match Verify(t, now)
        case Verified(c) => Pass(c)
        case Expired => Fail(TokenExpired)
        case Malformed => Fail(TokenMalformed)
  }

  /** `currentTime < (otpExpiration || new Date(0))`: the stored code is
      still live, a missing expiry counting as the epoch. */
  predicate OtpStillLive(expiration: Option<nat>, now: nat)
  {
    now < expiration.GetOr(0)
  }

  /** What a login request leads to, before anything is written. */
  datatype LoginStep = UnknownEmail | WrongPassword | IssueSession | SendOtp

  // ---------------------------------------------------------------------
  // Consistency of the two collections
  // ---------------------------------------------------------------------

  predicate StudentWellFormed(s: Student)
  {
    StudentRequiredPresent(s) && StudentOtpPaired(s) && StudentResetPaired(s)
  }

  predicate TeacherWellFormed(t: Teacher)
  {
    TeacherRequiredPresent(t) && TeacherOtpLinked(t) && TeacherResetPaired(t)
  }

  /** What the store and the handlers together keep true: each
      collection's unique indexes, well-formed records, and (enforced by the
      registration handlers, not by the store) no email in both
      collections. */
  predicate Consistent(students: map<string, Student>, teachers: map<string, Teacher>)
  {
    && StudentKeysUnique(students)
    && TeacherKeysUnique(teachers)
    && (forall e :: e in students ==> StudentWellFormed(students[e]))
    && (forall e :: e in teachers ==> TeacherWellFormed(teachers[e]))
    && students.Keys !! teachers.Keys
  }

  /** No record disappears and no active record becomes inactive. */
  predicate StudentsAdvance(before: map<string, Student>, after: map<string, Student>)
  {
    forall e :: e in before ==> e in after && (before[e].isActive ==> after[e].isActive)
  }

  predicate TeachersAdvance(before: map<string, Teacher>, after: map<string, Teacher>)
  {
    forall e :: e in before ==> e in after && (before[e].isActive ==> after[e].isActive)
  }

  /** Replacing one student's record by a well-formed one with the same
      keys, without undoing activation, keeps the store consistent. */
  lemma StudentReplaced(students: map<string, Student>, teachers: map<string, Teacher>, e: string, s: Student)
    requires Consistent(students, teachers) && e in students
    requires StudentWellFormed(s) && s.email == e && s.studentId == students[e].studentId
    requires students[e].isActive ==> s.isActive
    ensures Consistent(students[e := s], teachers)
    ensures StudentsAdvance(students, students[e := s])
  {
  }

  /** The same for a teacher's record. */
  lemma TeacherReplaced(students: map<string, Student>, teachers: map<string, Teacher>, e: string, t: Teacher)
    requires Consistent(students, teachers) && e in teachers
    requires TeacherWellFormed(t) && t.email == e && t.teacherId == teachers[e].teacherId
    requires teachers[e].isActive ==> t.isActive
    ensures Consistent(students, teachers[e := t])
    ensures TeachersAdvance(teachers, teachers[e := t])
  {
  }

  /** Activation is permanent across any sequence of handlers. */
  lemma StudentsAdvanceTransitive(a: map<string, Student>, b: map<string, Student>, c: map<string, Student>)
    requires StudentsAdvance(a, b) && StudentsAdvance(b, c)
    ensures StudentsAdvance(a, c)
  {
  }

  // ---------------------------------------------------------------------
  // Password-reset lookups
  // ---------------------------------------------------------------------

  /** The filter `{resetPasswordToken: digest, resetPasswordExpires: {$gt: now}}`. */
  predicate StudentResetMatches(s: Student, digest: Digest, now: nat)
  {
    s.resetPasswordToken == Some(digest) && s.resetPasswordExpires.Some? && s.resetPasswordExpires.value > now
  }

  predicate TeacherResetMatches(t: Teacher, digest: Digest, now: nat)
  {
    t.resetPasswordToken == Some(digest) && t.resetPasswordExpires.Some? && t.resetPasswordExpires.value > now
  }

  /** The records a reset token would unlock at `now`. */
  function StudentResetHolders(students: map<string, Student>, digest: Digest, now: nat): set<string>
  {
    set e | e in students && StudentResetMatches(students[e], digest, now)
  }

  function TeacherResetHolders(teachers: map<string, Teacher>, digest: Digest, now: nat): set<string>
  {
    set e | e in teachers && TeacherResetMatches(teachers[e], digest, now)
  }

  /** `findOne(filter)`: some key whose record satisfies the filter, or
      none when no record does. Which matching record is found is left
      open, as the store does not promise an order. */
  method FindOne<R>(records: map<string, R>, matches: R -> bool) returns (found: Option<string>)
    ensures found.Some? ==> found.value in records && matches(records[found.value])
    ensures found.None? ==> forall e :: e in records ==> !matches(records[e])
  {
    var unseen := records.Keys;
    while unseen != {}
      invariant unseen <= records.Keys
      invariant forall e :: e in records && e !in unseen ==> !matches(records[e])
      decreases |unseen|
    {
      var e :| e in unseen;
      if matches(records[e]) {
        return Some(e);
      }
      unseen := unseen - {e};
    }
    return None;
  }

  // ---------------------------------------------------------------------
  // The database
  // ---------------------------------------------------------------------

  class Database {
    /** The Student collection, keyed by email. */
    var students: map<string, Student>
    /** The Teacher collection, keyed by email. */
    var teachers: map<string, Teacher>
    /** Every mail handed to the transport, oldest first. */
    var outbox: seq<Mail>

    ghost predicate Valid()
      reads this
    {
      Consistent(students, teachers)
    }

    constructor ()
      ensures Valid()
      ensures students == map[] && teachers == map[] && outbox == []
    {
      students := map[];
      teachers := map[];
      outbox := [];
    }
  }
}
