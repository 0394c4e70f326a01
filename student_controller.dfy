/** The Student account handlers (Backend/controllers/studentController.js).
    Each handler reads the request, looks a record up, assigns some of its
    fields and saves it; here a handler is a method on the `Database` whose
    postcondition gives its reply and the new contents of the store case by
    case. The route validators (Backend/routes/studentAuth.js) run before a
    handler and appear as its preconditions. */
module StudentController {
  import opened Wrappers
  import opened Crypto
  import opened Models
  import opened AuthUtils
  import opened Store

  const AlreadyExistsMsg := "Student already exists"
  const LoginOkMsg := "Login successful"
  const EmailOfTeacherMsg := "User already exists as a teacher, use a new email!"
  const IdOfTeacherMsg := "ID already exists as a teacher ID. Please use a different enrollment ID."
  const IdOfStudentMsg := "ID already exists in database as a student ID. Please use a different enrollment ID."
  const ProceedMsg := "Enrollment number and name match. Proceed with login."
  const UnknownEnrollmentMsg := "Enrollment ID does not exist."
  const NoSuchStudentMsg := "Student does not exist"
  const CheckResetInvalidMsg := "Invalid or expired token"
  const CheckResetValidMsg := "Valid token"
  const StudentNotFoundMsg := "Student not found"
  const OtpVerifiedMsg := "OTP verified successfully"
  const OtpRejectedMsg := "Invalid or expired OTP"

  const ResetUrlPrefix := "http://localhost:5173/student/reset-password/"

  // ---------------------------------------------------------------------
  // Record updates and token payloads
  // ---------------------------------------------------------------------

  /** The payload of the session token a login issues: the enrollment ID as
      `id`, with name and role. */
  function LoginClaims(s: Student): Claims
  {
    UserClaims(User(s.studentId, s.email, Some(s.name), Some(StudentRole)))
  }

  /** The payload of the session token OTP verification issues: the
      document id as `id`, with the role but no name. */
  function VerifiedClaims(s: Student): Claims
  {
    UserClaims(User(s.id, s.email, None, Some(StudentRole)))
  }

  /** `student.otp = ...; student.otpExpiration = ...`. */
  function WithOtp(s: Student, o: Otp): (r: Student)
    ensures StudentWellFormed(s) ==> StudentWellFormed(r)
    ensures r.isActive == s.isActive && StudentPhase(r) != Registered
  {
    s.(otp := Str(o.code), otpExpiration := Some(o.expiration))
  }

  /** A successful verification: active, with both OTP fields cleared. */
  function Activated(s: Student): (r: Student)
    ensures StudentWellFormed(s) ==> StudentWellFormed(r)
    ensures StudentPhase(r) == Active
  {
    s.(isActive := true, otp := Undefined, otpExpiration := None)
  }

  /** A stored reset request: only the digest of the link's token. */
  function WithReset(s: Student, digest: Digest, expires: nat): (r: Student)
    ensures StudentWellFormed(s) ==> StudentWellFormed(r)
  {
    s.(resetPasswordToken := Some(digest), resetPasswordExpires := Some(expires))
  }

  /** A completed reset: the new password's digest, the request cleared. */
  function PasswordReset(s: Student, password: string): (r: Student)
    ensures StudentWellFormed(s) ==> StudentWellFormed(r)
    ensures forall d, t :: !StudentResetMatches(r, d, t)
  {
    s.(password := Hash(password), resetPasswordToken := None, resetPasswordExpires := None)
  }

  // ---------------------------------------------------------------------
  // Decisions
  // ---------------------------------------------------------------------

  /** Which branch `loginStudent` takes for `email` and `password`. */
  function LoginStepFor(students: map<string, Student>, email: string, password: string): (r: LoginStep)
    ensures r == UnknownEmail <==> email !in students
    ensures r == WrongPassword <==> email in students && students[email].password != Hash(password)
    ensures r == IssueSession <==> email in students && students[email].password == Hash(password) && students[email].isActive
    ensures r == SendOtp <==> email in students && students[email].password == Hash(password) && !students[email].isActive
  {
    if email !in students then UnknownEmail
    else if !Compare(password, students[email].password) then WrongPassword
    else if students[email].isActive then IssueSession
    else SendOtp
  }

  /** `student.otp === otp && student.otpExpiration > Date.now()`: an
      `undefined` expiry compares false, so a code is accepted only while
      its expiry lies strictly in the future. */
  predicate OtpAccepted(s: Student, otp: JsVal, now: nat)
  {
    s.otp == otp && s.otpExpiration.Some? && s.otpExpiration.value > now
  }

  /** The student a verified `verifyOtp` token designates:
      `Student.findOne({email: decoded.email})`. A session payload carries
      no `email`, and no stored student has an empty one. */
  function OtpTarget(students: map<string, Student>, c: Claims): (e: Option<string>)
    ensures e.Some? <==> c.EmailClaims? && c.email in students
    ensures e.Some? ==> e.value == c.email
  {
    if c.EmailClaims? && c.email in students then Some(c.email) else None
  }

  // ---------------------------------------------------------------------
  // registerStudent
  // ---------------------------------------------------------------------

  /** `registerStudent`. The email must be new to both collections; the
      enrollment ID is not checked beforehand, so a duplicate one fails at
      the store's unique index with a server error. A new student starts
      inactive with a hashed password, and the reply carries a one-hour
      token without a role. */
  method RegisterStudent(db: Database, name: string, email: string, password: string, studentId: string,
                         newId: string, now: nat) returns (res: Response)
    requires db.Valid()
    requires name != "" && email != "" && |password| >= 6 && studentId != ""
    modifies db
    ensures db.Valid()
    ensures db.teachers == old(db.teachers) && db.outbox == old(db.outbox)
    ensures StudentsAdvance(old(db.students), db.students)
    ensures CheckEmailExists(old(db.students), old(db.teachers), email).found ==>
              res == Reply(400, Msg(AlreadyExistsMsg)) && db.students == old(db.students)
    ensures !CheckEmailExists(old(db.students), old(db.teachers), email).found && StudentHasId(old(db.students), studentId) ==>
              res == ServerErrorResponse && db.students == old(db.students)
    ensures !CheckEmailExists(old(db.students), old(db.teachers), email).found && !StudentHasId(old(db.students), studentId) ==>
              && db.students == old(db.students)[email := NewStudent(newId, name, email, Hash(password), studentId, Some(now), now)]
              && res == Reply(201, TokenIssued(Sign(UserClaims(User(newId, email, None, None)), OneHourSeconds, now)))
  {
    var emailCheck := CheckEmailExists(db.students, db.teachers, email);
    if emailCheck.found {
      return Reply(400, Msg(AlreadyExistsMsg));
    }
    var student := NewStudent(newId, name, email, Hash(password), studentId, Some(now), now);
    var saved := InsertStudent(db.students, student);
    if saved.Rejected? {
      return ServerErrorResponse;
    }
    db.students := saved.collection;
    var token := GenerateToken(UserClaims(User(student.id, student.email, None, None)), Some(OneHourSeconds), now);
    res := Reply(201, TokenIssued(token));
  }

  // ---------------------------------------------------------------------
  // loginStudent
  // ---------------------------------------------------------------------

  /** `loginStudent`. `draw` is the random draw of the OTP. Unknown email
      and wrong password are told apart and change nothing. An active
      student gets a one-hour session token (in the body and in the `token`
      cookie) and no OTP. An inactive one gets a fresh OTP, stored and
      mailed, and only the one-hour `studentVerifyToken` cookie, whose
      payload is the email alone. */
  method LoginStudent(db: Database, email: string, password: string, draw: nat, now: nat) returns (res: Response)
    requires db.Valid() && draw < 900000
    modifies db
    ensures db.Valid()
    ensures db.teachers == old(db.teachers)
    ensures StudentsAdvance(old(db.students), db.students)
    ensures LoginStepFor(old(db.students), email, password) == UnknownEmail ==>
              && res == Reply(400, FieldError("email", EmailIncorrectMsg))
              && db.students == old(db.students) && db.outbox == old(db.outbox)
    ensures LoginStepFor(old(db.students), email, password) == WrongPassword ==>
              && res == Reply(400, FieldError("password", PasswordIncorrectMsg))
              && db.students == old(db.students) && db.outbox == old(db.outbox)
    ensures LoginStepFor(old(db.students), email, password) == IssueSession ==>
              && db.students == old(db.students) && db.outbox == old(db.outbox)
              && var token := Sign(LoginClaims(old(db.students)[email]), OneHourSeconds, now);
                 res == Response(200, MsgToken(LoginOkMsg, token), Some(Cookie("token", token, ThirtyDaysMs)))
    ensures LoginStepFor(old(db.students), email, password) == SendOtp ==>
              && var o := GenerateOtp(draw, now);
                 && db.students == old(db.students)[email := WithOtp(old(db.students)[email], o)]
                 && db.outbox == old(db.outbox) + [OtpMail(email, o.code)]
                 && res == Response(200, Msg(OtpSentMsg),
                                    Some(Cookie("studentVerifyToken", Sign(EmailClaims(email), OneHourSeconds, now), OneHourMs)))
  {
    if email !in db.students {
      return Reply(400, FieldError("email", EmailIncorrectMsg));
    }
    var student := db.students[email];
    var isMatch := Compare(password, student.password);
    if !isMatch {
      return Reply(400, FieldError("password", PasswordIncorrectMsg));
    }
    if student.isActive {
      var token := GenerateToken(LoginClaims(student), Some(OneHourSeconds), now);
      return Response(200, MsgToken(LoginOkMsg, token), Some(Cookie("token", token, ThirtyDaysMs)));
    }
    var otpToken := GenerateToken(EmailClaims(email), Some(OneHourSeconds), now);
    // `student.lastToken = otpToken` names no schema path, so the store
    // discards it on save.
    student := student.(otp := Str(GenerateOtp(draw, now).code));
    student := student.(otpExpiration := Some(GenerateOtp(draw, now).expiration));
    StudentReplaced(db.students, db.teachers, email, student);
    db.students := db.students[email := student];
    db.outbox := db.outbox + [OtpMail(student.email, GenerateOtp(draw, now).code)];
    res := Response(200, Msg(OtpSentMsg), Some(Cookie("studentVerifyToken", otpToken, OneHourMs)));
  }

  // ---------------------------------------------------------------------
  // checkEmail and checkEnrollmentID (read only)
  // ---------------------------------------------------------------------

  /** `checkEmail`: 409 whenever either collection holds the email, with
      the teacher message when a teacher holds it; otherwise 200 with
      `exists: false`. */
  function CheckEmail(students: map<string, Student>, teachers: map<string, Teacher>, email: string): (r: Response)
    ensures r.cookie == None
    ensures r.status == 409 <==> TeacherHasEmail(teachers, email) || StudentHasEmail(students, email)
    ensures TeacherHasEmail(teachers, email) ==> r.body == ExistsReport(EmailOfTeacherMsg, true)
    ensures !TeacherHasEmail(teachers, email) && StudentHasEmail(students, email) ==> r.body == ExistsReport(CanLoginMsg, true)
    ensures r.status != 409 ==> r == Reply(200, NotExists)
  {
    var emailCheck := CheckEmailExists(students, teachers, email);
    if emailCheck.found then
      if emailCheck.role == Some(TeacherRole) then Reply(409, ExistsReport(EmailOfTeacherMsg, true))
      else Reply(409, ExistsReport(CanLoginMsg, true))
    else Reply(200, NotExists)
  }

  /** `checkEnrollmentID`: an ID already in the database is reported first
      (teacher before student); only then is the roster consulted. */
  function CheckEnrollmentID(students: map<string, Student>, teachers: map<string, Teacher>,
                             roster: seq<RosterEntry>, studentId: string, name: Option<string>): (r: Response)
    ensures r.cookie == None
    ensures TeacherHasId(teachers, studentId) ==> r == Reply(409, ExistsReport(IdOfTeacherMsg, true))
    ensures !TeacherHasId(teachers, studentId) && StudentHasId(students, studentId) ==>
              r == Reply(409, ExistsReport(IdOfStudentMsg, true))
    ensures r.status == 200 || r.status == 404 || r.status == 409
  {
    var idCheck := CheckIdExists(students, teachers, studentId);
    var enrollCheck := IsEnrollNumExists(studentId, roster, name);
    if idCheck.found && idCheck.role == Some(TeacherRole) then
      Reply(409, ExistsReport(IdOfTeacherMsg, true))
    else if idCheck.found && idCheck.role == Some(StudentRole) then
      Reply(409, ExistsReport(IdOfStudentMsg, true))
    else if enrollCheck.found then
      if enrollCheck.message == NameMatchMsg then Reply(200, EnrollReport(ProceedMsg, true, true))
      else Reply(409, EnrollReport(enrollCheck.message, true, false))
    else
      Reply(404, EnrollReport(UnknownEnrollmentMsg, false, false))
  }

  /** With no ID collision in the database, an enrollment missing from the
      roster gives 404 with `exists` and `proceed` false. */
  lemma {:induction false} CheckEnrollmentIDUnknown(students: map<string, Student>, teachers: map<string, Teacher>,
                                                    roster: seq<RosterEntry>, studentId: string, name: Option<string>)
    requires !TeacherHasId(teachers, studentId) && !StudentHasId(students, studentId)
    requires forall i :: 0 <= i < |roster| ==> roster[i].enrollment != studentId
    ensures CheckEnrollmentID(students, teachers, roster, studentId, name)
            == Reply(404, EnrollReport(UnknownEnrollmentMsg, false, false))
  {
    var idCheck := CheckIdExists(students, teachers, studentId);
    assert !idCheck.found;
  }

  /** With no ID collision in the database, the first roster entry holding
      the enrollment decides: 200 with `proceed: true` when the name
      matches, 409 with the mismatch message and `proceed: false` when it
      does not. */
  lemma {:induction false} CheckEnrollmentIDByRoster(students: map<string, Student>, teachers: map<string, Teacher>,
                                                     roster: seq<RosterEntry>, studentId: string, name: Option<string>, i: int)
    requires !TeacherHasId(teachers, studentId) && !StudentHasId(students, studentId)
    requires FirstWith(roster, studentId, i)
    ensures NameMatches(name, roster[i].name) ==>
              CheckEnrollmentID(students, teachers, roster, studentId, name) == Reply(200, EnrollReport(ProceedMsg, true, true))
    ensures !NameMatches(name, roster[i].name) ==>
              CheckEnrollmentID(students, teachers, roster, studentId, name) == Reply(409, EnrollReport(NameMismatchMsg, true, false))
  {
    var idCheck := CheckIdExists(students, teachers, studentId);
    assert !idCheck.found;
    EnrollCheckUsesFirstEntry(studentId, roster, name, i);
  }

  // ---------------------------------------------------------------------
  // forgotPassword, resetPassword, checkResetToken
  // ---------------------------------------------------------------------

  /** `forgotPassword`. `bytes` are the 20 random bytes of the reset token.
      Only the token's digest is stored, with a one-hour expiry; the
      plaintext leaves only inside the mailed link. */
  method ForgotPassword(db: Database, email: string, bytes: seq<Byte>, now: nat) returns (res: Response)
    requires db.Valid() && |bytes| == 20
    modifies db
    ensures db.Valid()
    ensures db.teachers == old(db.teachers)
    ensures StudentsAdvance(old(db.students), db.students)
    ensures email !in old(db.students) ==>
              res == Reply(400, Msg(NoSuchStudentMsg)) && db.students == old(db.students) && db.outbox == old(db.outbox)
    ensures email in old(db.students) ==>
              && var rt := GenerateResetToken(bytes);
                 && db.students == old(db.students)[email := WithReset(old(db.students)[email], rt.hashedToken, now + ResetWindowMs)]
                 && db.outbox == old(db.outbox) + [ResetMail(email, ResetUrlPrefix + rt.resetToken)]
                 && res == Reply(200, Msg(EmailSentMsg))
  {
    if email !in db.students {
      return Reply(400, Msg(NoSuchStudentMsg));
    }
    var student := db.students[email];
    var rt := GenerateResetToken(bytes);
    student := student.(resetPasswordToken := Some(rt.hashedToken));
    student := student.(resetPasswordExpires := Some(now + ResetWindowMs));
    StudentReplaced(db.students, db.teachers, email, student);
    db.students := db.students[email := student];
    var resetUrl := ResetUrlPrefix + rt.resetToken;
    db.outbox := db.outbox + [ResetMail(student.email, resetUrl)];
    res := Reply(200, Msg(EmailSentMsg));
  }

  /** `resetPassword`. The submitted token is hashed and looked up among
      unexpired reset requests. A match gets the new password and loses its
      reset request; nothing else changes. */
  method ResetPassword(db: Database, resetToken: string, password: string, now: nat) returns (res: Response)
    requires db.Valid() && |password| >= 6
    modifies db
    ensures db.Valid()
    ensures db.teachers == old(db.teachers) && db.outbox == old(db.outbox)
    ensures StudentsAdvance(old(db.students), db.students)
    ensures StudentResetHolders(old(db.students), Sha256Hex(resetToken), now) == {} ==>
              res == Reply(400, Msg(ResetInvalidMsg)) && db.students == old(db.students)
    ensures StudentResetHolders(old(db.students), Sha256Hex(resetToken), now) != {} ==>
              && res == Reply(200, Msg(ResetDoneMsg))
              && exists e :: e in StudentResetHolders(old(db.students), Sha256Hex(resetToken), now)
                             && db.students == old(db.students)[e := PasswordReset(old(db.students)[e], password)]
  {
    var hashedToken := Sha256Hex(resetToken);
    var found := FindOne(db.students, (s: Student) => StudentResetMatches(s, hashedToken, now));
    if found.None? {
      assert StudentResetHolders(db.students, hashedToken, now) == {};
      return Reply(400, Msg(ResetInvalidMsg));
    }
    var e := found.value;
    assert e in StudentResetHolders(db.students, hashedToken, now);
    var student := db.students[e];
    student := student.(password := Hash(password));
    student := student.(resetPasswordToken := None, resetPasswordExpires := None);
    StudentReplaced(db.students, db.teachers, e, student);
    db.students := db.students[e := student];
    res := Reply(200, Msg(ResetDoneMsg));
  }

  /** `checkResetToken`: 200 exactly when some unexpired reset request
      holds the token's digest. */
  function CheckResetToken(students: map<string, Student>, token: string, now: nat): (r: Response)
    ensures r.status == 200 <==> StudentResetHolders(students, Sha256Hex(token), now) != {}
    ensures r == Reply(r.status, Msg(if r.status == 200 then CheckResetValidMsg else CheckResetInvalidMsg))
  {
    var hashedToken := Sha256Hex(token);
    if StudentResetHolders(students, hashedToken, now) != {} then
      Reply(200, Msg(CheckResetValidMsg))
    else
      Reply(400, Msg(CheckResetInvalidMsg))
  }

  // ---------------------------------------------------------------------
  // verifyOtp and resendOtp
  // ---------------------------------------------------------------------

  /** `verifyOtp`. Any token failure is a server error here. A verified
      email token and a matching, unexpired code activate the student and
      clear both OTP fields; the reply carries a one-hour session token,
      also set as the `token` cookie. */
  method VerifyOtp(db: Database, header: AuthHeader, otp: JsVal, now: nat) returns (res: Response)
    requires db.Valid()
    modifies db
    ensures db.Valid()
    ensures db.teachers == old(db.teachers) && db.outbox == old(db.outbox)
    ensures StudentsAdvance(old(db.students), db.students)
    ensures ReadBearer(header, now) == Fail(HeaderMissing) ==>
              res == Reply(400, Msg(HeaderMissingMsg)) && db.students == old(db.students)
    ensures ReadBearer(header, now) == Fail(TokenMissing) ==>
              res == Reply(400, Msg(TokenMissingMsg)) && db.students == old(db.students)
    ensures ReadBearer(header, now) == Fail(TokenMalformed) || ReadBearer(header, now) == Fail(TokenExpired) ==>
              res == ServerErrorResponse && db.students == old(db.students)
    ensures ReadBearer(header, now).Pass? && OtpTarget(old(db.students), ReadBearer(header, now).claims).None? ==>
              res == Reply(400, Msg(StudentNotFoundMsg)) && db.students == old(db.students)
    ensures ReadBearer(header, now).Pass? && OtpTarget(old(db.students), ReadBearer(header, now).claims).Some? ==>
              var e := OtpTarget(old(db.students), ReadBearer(header, now).claims).value;
              var s := old(db.students)[e];
              && (!OtpAccepted(s, otp, now) ==> res == Reply(400, Msg(OtpRejectedMsg)) && db.students == old(db.students))
              && (OtpAccepted(s, otp, now) ==>
                    && db.students == old(db.students)[e := Activated(s)]
                    && var token := Sign(VerifiedClaims(s), OneHourSeconds, now);
                       res == Response(200, MsgToken(OtpVerifiedMsg, token), Some(Cookie("token", token, ThirtyDaysMs))))
  {
    if !HeaderPresent(header) {
      return Reply(400, Msg(HeaderMissingMsg));
    }
    var token := BearerToken(header);
    if token.None? {
      return Reply(400, Msg(TokenMissingMsg));
    }
    var decoded := Verify(token.value, now);
    if !decoded.Verified? {
      return ServerErrorResponse;
    }
    var target := OtpTarget(db.students, decoded.claims);
    if target.None? {
      return Reply(400, Msg(StudentNotFoundMsg));
    }
    var student := db.students[target.value];
    if student.otp == otp && student.otpExpiration.Some? && student.otpExpiration.value > now {
      student := student.(isActive := true);
      student := student.(otp := Undefined);
      student := student.(otpExpiration := None);
      StudentReplaced(db.students, db.teachers, target.value, student);
      db.students := db.students[target.value := student];
      var newToken := GenerateToken(VerifiedClaims(student), Some(OneHourSeconds), now);
      res := Response(200, MsgToken(OtpVerifiedMsg, newToken), Some(Cookie("token", newToken, ThirtyDaysMs)));
    } else {
      res := Reply(400, Msg(OtpRejectedMsg));
    }
  }

  /** `resendOtp`. An expired token is told apart from other token
      failures. A new code is refused while the stored one is live;
      otherwise it replaces the stored code and expiry and is mailed. */
  method ResendOtp(db: Database, header: AuthHeader, draw: nat, now: nat) returns (res: Response)
    requires db.Valid() && draw < 900000
    modifies db
    ensures db.Valid()
    ensures db.teachers == old(db.teachers)
    ensures StudentsAdvance(old(db.students), db.students)
    ensures res.status != 200 ==> db.students == old(db.students) && db.outbox == old(db.outbox)
    ensures ReadBearer(header, now) == Fail(HeaderMissing) ==> res == Reply(400, Msg(HeaderMissingMsg))
    ensures ReadBearer(header, now) == Fail(TokenMissing) ==> res == Reply(400, Msg(TokenMissingMsg))
    ensures ReadBearer(header, now) == Fail(TokenExpired) ==> res == Reply(400, Msg(TokenExpiredMsg))
    ensures ReadBearer(header, now) == Fail(TokenMalformed) ==> res == ServerErrorResponse
    ensures ReadBearer(header, now).Pass? && TruthyEmail(ReadBearer(header, now).claims).None? ==>
              res == Reply(400, Msg(NoEmailClaimMsg))
    ensures ReadBearer(header, now).Pass? && TruthyEmail(ReadBearer(header, now).claims).Some? ==>
              var e := TruthyEmail(ReadBearer(header, now).claims).value;
              && (e !in old(db.students) ==> res == Reply(400, Msg(UserNotFoundMsg)))
              && (e in old(db.students) && OtpStillLive(old(db.students)[e].otpExpiration, now) ==>
                    res == Reply(400, Msg(OtpAlreadySentMsg)))
              && (e in old(db.students) && !OtpStillLive(old(db.students)[e].otpExpiration, now) ==>
                    var o := GenerateOtp(draw, now);
                    && db.students == old(db.students)[e := WithOtp(old(db.students)[e], o)]
                    && db.outbox == old(db.outbox) + [OtpMail(e, o.code)]
                    && res == Reply(200, Msg(OtpResentMsg)))
  {
    if !HeaderPresent(header) {
      return Reply(400, Msg(HeaderMissingMsg));
    }
    var token := BearerToken(header);
    if token.None? {
      return Reply(400, Msg(TokenMissingMsg));
    }
    var decoded := Verify(token.value, now);
    if decoded == Expired {
      return Reply(400, Msg(TokenExpiredMsg));
    } else if decoded == Malformed {
      return ServerErrorResponse;
    }
    var email := TruthyEmail(decoded.claims);
    if email.None? {
      return Reply(400, Msg(NoEmailClaimMsg));
    }
    if email.value !in db.students {
      return Reply(400, Msg(UserNotFoundMsg));
    }
    var student := db.students[email.value];
    var otpExpiresAt := student.otpExpiration.GetOr(0);
    if now < otpExpiresAt {
      return Reply(400, Msg(OtpAlreadySentMsg));
    }
    var o := GenerateOtp(draw, now);
    student := WithOtp(student, o);
    StudentReplaced(db.students, db.teachers, email.value, student);
    db.students := db.students[email.value := student];
    db.outbox := db.outbox + [OtpMail(student.email, o.code)];
    res := Reply(200, Msg(OtpResentMsg));
  }

  // ---------------------------------------------------------------------
  // Properties of the lifecycle
  // ---------------------------------------------------------------------

  /** The code a login stores is accepted, when submitted as a string,
      exactly during the sixty seconds after the login. */
  lemma {:induction false} LoginCodeWindow(s: Student, draw: nat, issued: nat, now: nat)
    requires draw < 900000
    ensures var o := GenerateOtp(draw, issued);
      OtpAccepted(WithOtp(s, o), Str(o.code), now) <==> now < issued + OtpWindowMs
  {
  }

  /** Once verified, no code verifies again until another login or resend
      stores a new one: re-submitting the same code fails. */
  lemma {:induction false} VerifiedCodeIsSpent(s: Student, otp: JsVal, now: nat, otp': JsVal, later: nat)
    requires OtpAccepted(s, otp, now)
    ensures !OtpAccepted(Activated(s), otp', later)
  {
  }

  /** A resend right after a login is refused for the whole OTP window, and
      allowed from its end on. */
  lemma {:induction false} ResendWaitsForWindow(s: Student, draw: nat, issued: nat, now: nat)
    requires draw < 900000 && issued <= now
    ensures OtpStillLive(WithOtp(s, GenerateOtp(draw, issued)).otpExpiration, now) <==> now < issued + OtpWindowMs
  {
  }

  /** A reset consumes the request it matched and no other: the records a
      digest unlocks afterwards are those it unlocked before, minus the one
      reset, at any time. So a link issued once works once. */
  lemma {:induction false} ResetConsumesRequest(students: map<string, Student>, e: string, password: string,
                                                digest: Digest, t: nat)
    requires e in students
    ensures StudentResetHolders(students[e := PasswordReset(students[e], password)], digest, t)
            == StudentResetHolders(students, digest, t) - {e}
  {
    var after := students[e := PasswordReset(students[e], password)];
    forall k | k in StudentResetHolders(after, digest, t)
      ensures k in StudentResetHolders(students, digest, t) - {e}
    {
      assert k != e;
    }
  }

  /** The mailed link unlocks the record it was issued for, for exactly the
      hour after the request. */
  lemma {:induction false} ResetLinkWindow(s: Student, bytes: seq<Byte>, issued: nat, t: nat)
    requires |bytes| == 20
    ensures var rt := GenerateResetToken(bytes);
      StudentResetMatches(WithReset(s, rt.hashedToken, issued + ResetWindowMs), Sha256Hex(rt.resetToken), t)
      <==> t < issued + ResetWindowMs
  {
  }
}
