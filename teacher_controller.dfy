/** The Teacher account handlers (Backend/controllers/teacherController.js).
    They follow the Student handlers' shape with their own messages, token
    lifetimes and OTP rules; the route validators
    (Backend/routes/teacherAuth.js) appear as preconditions. */
module TeacherController {
  import opened Wrappers
  import opened Crypto
  import opened Models
  import opened AuthUtils
  import opened Store

  const AlreadyExistsMsg := "Teacher already exists"
  const ActiveLoginMsg := "isActive: true!"
  const EmailOfStudentMsg := "User already exists as a student, use a new email!"
  const IdOfStudentMsg := "ID already exists as a student ID, use teacherID!"
  const IdTakenMsg := "ID already exists, use different!"
  const NoSuchTeacherMsg := "Teacher does not exist"
  const CheckResetInvalidMsg := "Token is invalid or expired"
  const CheckResetValidMsg := "Token is valid"
  const InvalidOtpMsg := "Invalid OTP!"
  const OtpExpiredMsg := "OTP has expired"
  const InvalidTokenMsg := "Invalid token"
  const VerifyTokenExpiredMsg := "Token expired"

  const ResetUrlPrefix := "http://localhost:5173/teacher/reset-password/"

  // ---------------------------------------------------------------------
  // Record updates and token payloads
  // ---------------------------------------------------------------------

  /** The payload of every teacher session token: document id, email and
      role. */
  function SessionClaims(t: Teacher): Claims
  {
    UserClaims(User(t.id, t.email, None, Some(TeacherRole)))
  }

  function WithOtp(t: Teacher, o: Otp): (r: Teacher)
    ensures TeacherWellFormed(t) ==> TeacherWellFormed(r)
    ensures r.isActive == t.isActive && TeacherPhase(r) != Registered
  {
    t.(otp := Str(o.code), otpExpiration := Some(o.expiration))
  }

  /** `teacher.otp = null; teacher.isActive = true`: the expiry stays. */
  function Activated(t: Teacher): (r: Teacher)
    ensures TeacherWellFormed(t) ==> TeacherWellFormed(r)
    ensures TeacherPhase(r) == Active && r.otpExpiration == t.otpExpiration
  {
    t.(otp := Null, isActive := true)
  }

  function WithReset(t: Teacher, digest: Digest, expires: nat): (r: Teacher)
    ensures TeacherWellFormed(t) ==> TeacherWellFormed(r)
  {
    t.(resetPasswordToken := Some(digest), resetPasswordExpires := Some(expires))
  }

  function PasswordReset(t: Teacher, password: string): (r: Teacher)
    ensures TeacherWellFormed(t) ==> TeacherWellFormed(r)
    ensures forall d, n :: !TeacherResetMatches(r, d, n)
  {
    t.(password := Hash(password), resetPasswordToken := None, resetPasswordExpires := None)
  }

  // ---------------------------------------------------------------------
  // registerTeacher, as written and as intended
  // ---------------------------------------------------------------------

  /** The document `registerTeacher` builds as written: `password:
      hashPassword` passes the function, not the digest computed just
      before, so the store keeps the function's text. `subjects` is not
      passed either, and defaults to the empty array. */
  function NewAccountAsWritten(newId: string, name: string, email: string, password: string,
                               teacherId: string, now: nat): (t: Teacher)
    ensures t.password == FunctionSource && t.subjects == []
    ensures !t.isActive && t.email == email && t.teacherId == teacherId
  {
    NewTeacher(newId, name, email, FunctionSource, teacherId, None, Some(now), now)
  }

  /** The document `registerTeacher` is evidently meant to build: the
      bcrypt digest of the submitted password. */
  function NewAccount(newId: string, name: string, email: string, password: string,
                      teacherId: string, now: nat): (t: Teacher)
    ensures t.password == Hash(password) && t.subjects == []
    ensures !t.isActive && t.email == email && t.teacherId == teacherId
  {
    NewTeacher(newId, name, email, Hash(password), teacherId, None, Some(now), now)
  }

  /** Which branch `loginTeacher` takes for `email` and `password`. */
  function LoginStepFor(teachers: map<string, Teacher>, email: string, password: string): (r: LoginStep)
    ensures r == UnknownEmail <==> email !in teachers
    ensures r == WrongPassword <==> email in teachers && teachers[email].password != Hash(password)
    ensures r == IssueSession <==> email in teachers && teachers[email].password == Hash(password) && teachers[email].isActive
    ensures r == SendOtp <==> email in teachers && teachers[email].password == Hash(password) && !teachers[email].isActive
  {
    if email !in teachers then UnknownEmail
    else if !Compare(password, teachers[email].password) then WrongPassword
    else if teachers[email].isActive then IssueSession
    else SendOtp
  }

  /** As written, a teacher who registers can never log in: every password
      is refused, the one registered with included, until a password reset
      replaces the stored value. */
  lemma {:induction false} AsWrittenRegistrationLocksOut(teachers: map<string, Teacher>, newId: string, name: string,
                                                         email: string, password: string, teacherId: string,
                                                         now: nat, attempt: string)
    ensures var t := NewAccountAsWritten(newId, name, email, password, teacherId, now);
      LoginStepFor(teachers[email := t], email, attempt) == WrongPassword
  {
    var t := NewAccountAsWritten(newId, name, email, password, teacherId, now);
    assert teachers[email := t][email].password == FunctionSource;
  }

  /** As intended, the registered password, and only it, passes the
      password check, and the first login goes on to send an OTP. */
  lemma {:induction false} RegistrationEnablesLogin(teachers: map<string, Teacher>, newId: string, name: string,
                                                    email: string, password: string, teacherId: string,
                                                    now: nat, attempt: string)
    ensures var t := NewAccount(newId, name, email, password, teacherId, now);
      LoginStepFor(teachers[email := t], email, attempt) == if attempt == password then SendOtp else WrongPassword
  {
    var t := NewAccount(newId, name, email, password, teacherId, now);
    assert teachers[email := t][email] == t;
  }

  /** `registerTeacher` as written. The email must be new to both
      collections; a duplicate teacher ID fails at the unique index with a
      server error. The record stored keeps the hashing function's text in
      place of the password's digest, so the account cannot log in (see
      `RegisteredTeacherLockedOut`). The reply carries a one-hour token
      without a role. The validated `subjects` are not stored. */
  method RegisterTeacher(db: Database, name: string, email: string, password: string, teacherId: string,
                         subjects: seq<string>, newId: string, now: nat) returns (res: Response)
    requires db.Valid()
    requires name != "" && email != "" && |password| >= 6 && teacherId != "" && |subjects| >= 1
    modifies db
    ensures db.Valid()
    ensures db.students == old(db.students) && db.outbox == old(db.outbox)
    ensures TeachersAdvance(old(db.teachers), db.teachers)
    ensures CheckEmailExists(old(db.students), old(db.teachers), email).found ==>
              res == Reply(400, Msg(AlreadyExistsMsg)) && db.teachers == old(db.teachers)
    ensures !CheckEmailExists(old(db.students), old(db.teachers), email).found && TeacherHasId(old(db.teachers), teacherId) ==>
              res == ServerErrorResponse && db.teachers == old(db.teachers)
    ensures !CheckEmailExists(old(db.students), old(db.teachers), email).found && !TeacherHasId(old(db.teachers), teacherId) ==>
              && db.teachers == old(db.teachers)[email := NewAccountAsWritten(newId, name, email, password, teacherId, now)]
              && res == Reply(201, TokenIssued(Sign(UserClaims(User(newId, email, None, None)), OneHourSeconds, now)))
  {
    var emailCheck := CheckEmailExists(db.students, db.teachers, email);
    if emailCheck.found {
      return Reply(400, Msg(AlreadyExistsMsg));
    }
    var teacher := NewAccountAsWritten(newId, name, email, password, teacherId, now);
    var saved := InsertTeacher(db.teachers, teacher);
    if saved.Rejected? {
      return ServerErrorResponse;
    }
    db.teachers := saved.collection;
    var token := GenerateToken(UserClaims(User(teacher.id, teacher.email, None, None)), Some(OneHourSeconds), now);
    res := Reply(201, TokenIssued(token));
  }

  /** `registerTeacher` as evidently intended: the same checks and reply
      as `RegisterTeacher`, with the password's digest stored. */
  method RegisterTeacherIntended(db: Database, name: string, email: string, password: string, teacherId: string,
                                 subjects: seq<string>, newId: string, now: nat) returns (res: Response)
    requires db.Valid()
    requires name != "" && email != "" && |password| >= 6 && teacherId != "" && |subjects| >= 1
    modifies db
    ensures db.Valid()
    ensures db.students == old(db.students) && db.outbox == old(db.outbox)
    ensures TeachersAdvance(old(db.teachers), db.teachers)
    ensures CheckEmailExists(old(db.students), old(db.teachers), email).found ==>
              res == Reply(400, Msg(AlreadyExistsMsg)) && db.teachers == old(db.teachers)
    ensures !CheckEmailExists(old(db.students), old(db.teachers), email).found && TeacherHasId(old(db.teachers), teacherId) ==>
              res == ServerErrorResponse && db.teachers == old(db.teachers)
    ensures !CheckEmailExists(old(db.students), old(db.teachers), email).found && !TeacherHasId(old(db.teachers), teacherId) ==>
              && db.teachers == old(db.teachers)[email := NewAccount(newId, name, email, password, teacherId, now)]
              && res == Reply(201, TokenIssued(Sign(UserClaims(User(newId, email, None, None)), OneHourSeconds, now)))
  {
    var emailCheck := CheckEmailExists(db.students, db.teachers, email);
    if emailCheck.found {
      return Reply(400, Msg(AlreadyExistsMsg));
    }
    var teacher := NewAccount(newId, name, email, password, teacherId, now);
    var saved := InsertTeacher(db.teachers, teacher);
    if saved.Rejected? {
      return ServerErrorResponse;
    }
    db.teachers := saved.collection;
    var token := GenerateToken(UserClaims(User(teacher.id, teacher.email, None, None)), Some(OneHourSeconds), now);
    res := Reply(201, TokenIssued(token));
  }

  /** Registering and then logging in with the very same password, as
      written: the login is refused as a wrong password, and the store is
      left as the registration made it. */
  method RegisteredTeacherLockedOut(db: Database, name: string, email: string, password: string,
                                    teacherId: string, subjects: seq<string>, newId: string, now: nat, draw: nat)
      returns (registered: Response, login: Response)
    requires db.Valid() && draw < 900000
    requires name != "" && email != "" && |password| >= 6 && teacherId != "" && |subjects| >= 1
    requires !CheckEmailExists(db.students, db.teachers, email).found && !TeacherHasId(db.teachers, teacherId)
    modifies db
    ensures db.Valid()
    ensures registered.status == 201
    ensures login == Reply(400, FieldError("password", PasswordIncorrectMsg))
    ensures db.teachers == old(db.teachers)[email := NewAccountAsWritten(newId, name, email, password, teacherId, now)]
  {
    registered := RegisterTeacher(db, name, email, password, teacherId, subjects, newId, now);
    AsWrittenRegistrationLocksOut(old(db.teachers), newId, name, email, password, teacherId, now, password);
    login := LoginTeacher(db, email, password, draw, now);
  }

  /** Registering and then logging in with the same password, as intended:
      the password check passes and, the account being inactive, an OTP is
      mailed to the new address. */
  method RegisteredTeacherGetsOtp(db: Database, name: string, email: string, password: string,
                                  teacherId: string, subjects: seq<string>, newId: string, now: nat, draw: nat)
      returns (registered: Response, login: Response)
    requires db.Valid() && draw < 900000
    requires name != "" && email != "" && |password| >= 6 && teacherId != "" && |subjects| >= 1
    requires !CheckEmailExists(db.students, db.teachers, email).found && !TeacherHasId(db.teachers, teacherId)
    modifies db
    ensures db.Valid()
    ensures registered.status == 201
    ensures login.status == 200 && login.body == Msg(OtpSentMsg)
    ensures db.outbox == old(db.outbox) + [OtpMail(email, GenerateOtp(draw, now).code)]
  {
    registered := RegisterTeacherIntended(db, name, email, password, teacherId, subjects, newId, now);
    RegistrationEnablesLogin(old(db.teachers), newId, name, email, password, teacherId, now, password);
    login := LoginTeacher(db, email, password, draw, now);
  }

  // ---------------------------------------------------------------------
  // loginTeacher
  // ---------------------------------------------------------------------

  /** `loginTeacher`. An active teacher gets a thirty-day session token in
      the body and the `token` cookie; an inactive one gets a fresh OTP,
      stored and mailed, and the one-hour `teacherVerifyToken` cookie
      carrying the email alone. */
  method LoginTeacher(db: Database, email: string, password: string, draw: nat, now: nat) returns (res: Response)
    requires db.Valid() && draw < 900000
    modifies db
    ensures db.Valid()
    ensures db.students == old(db.students)
    ensures TeachersAdvance(old(db.teachers), db.teachers)
    ensures LoginStepFor(old(db.teachers), email, password) == UnknownEmail ==>
              && res == Reply(400, FieldError("email", EmailIncorrectMsg))
              && db.teachers == old(db.teachers) && db.outbox == old(db.outbox)
    ensures LoginStepFor(old(db.teachers), email, password) == WrongPassword ==>
              && res == Reply(400, FieldError("password", PasswordIncorrectMsg))
              && db.teachers == old(db.teachers) && db.outbox == old(db.outbox)
    ensures LoginStepFor(old(db.teachers), email, password) == IssueSession ==>
              && db.teachers == old(db.teachers) && db.outbox == old(db.outbox)
              && var token := Sign(SessionClaims(old(db.teachers)[email]), ThirtyDaysSeconds, now);
                 res == Response(200, MsgToken(ActiveLoginMsg, token), Some(Cookie("token", token, ThirtyDaysMs)))
    ensures LoginStepFor(old(db.teachers), email, password) == SendOtp ==>
              && var o := GenerateOtp(draw, now);
                 && db.teachers == old(db.teachers)[email := WithOtp(old(db.teachers)[email], o)]
                 && db.outbox == old(db.outbox) + [OtpMail(email, o.code)]
                 && res == Response(200, Msg(OtpSentMsg),
                                    Some(Cookie("teacherVerifyToken", Sign(EmailClaims(email), OneHourSeconds, now), OneHourMs)))
  {
    if email !in db.teachers {
      return Reply(400, FieldError("email", EmailIncorrectMsg));
    }
    var teacher := db.teachers[email];
    var isMatch := Compare(password, teacher.password);
    if !isMatch {
      return Reply(400, FieldError("password", PasswordIncorrectMsg));
    }
    if teacher.isActive {
      var token := GenerateToken(SessionClaims(teacher), Some(ThirtyDaysSeconds), now);
      return Response(200, MsgToken(ActiveLoginMsg, token), Some(Cookie("token", token, ThirtyDaysMs)));
    }
    var otpToken := GenerateToken(EmailClaims(email), Some(OneHourSeconds), now);
    // `teacher.lastToken` names no schema path and is not stored.
    teacher := teacher.(otp := Str(GenerateOtp(draw, now).code));
    teacher := teacher.(otpExpiration := Some(GenerateOtp(draw, now).expiration));
    TeacherReplaced(db.students, db.teachers, email, teacher);
    db.teachers := db.teachers[email := teacher];
    db.outbox := db.outbox + [OtpMail(teacher.email, GenerateOtp(draw, now).code)];
    res := Response(200, Msg(OtpSentMsg), Some(Cookie("teacherVerifyToken", otpToken, OneHourMs)));
  }

  // ---------------------------------------------------------------------
  // checkEmail and checkTeacherId (read only)
  // ---------------------------------------------------------------------

  /** `checkEmail`: 409 whenever either collection holds the email, with
      the student message only when no teacher holds it. */
  function CheckEmail(students: map<string, Student>, teachers: map<string, Teacher>, email: string): (r: Response)
    ensures r.cookie == None
    ensures r.status == 409 <==> TeacherHasEmail(teachers, email) || StudentHasEmail(students, email)
    ensures TeacherHasEmail(teachers, email) ==> r.body == ExistsReport(CanLoginMsg, true)
    ensures !TeacherHasEmail(teachers, email) && StudentHasEmail(students, email) ==> r.body == ExistsReport(EmailOfStudentMsg, true)
    ensures r.status != 409 ==> r == Reply(200, NotExists)
  {
    var emailCheck := CheckEmailExists(students, teachers, email);
    if emailCheck.found then
      if emailCheck.role == Some(StudentRole) then Reply(409, ExistsReport(EmailOfStudentMsg, true))
      else Reply(409, ExistsReport(CanLoginMsg, true))
    else Reply(200, NotExists)
  }

  /** `checkTeacherId`: an ID held by a teacher is reported with status
      200; one held only by a student with 409. */
  function CheckTeacherId(students: map<string, Student>, teachers: map<string, Teacher>, teacherId: string): (r: Response)
    ensures r.cookie == None
    ensures TeacherHasId(teachers, teacherId) ==> r == Reply(200, ExistsReport(IdTakenMsg, true))
    ensures !TeacherHasId(teachers, teacherId) && StudentHasId(students, teacherId) ==>
              r == Reply(409, ExistsReport(IdOfStudentMsg, true))
    ensures !TeacherHasId(teachers, teacherId) && !StudentHasId(students, teacherId) ==> r == Reply(200, NotExists)
  {
    var idCheck := CheckIdExists(students, teachers, teacherId);
    if idCheck.found then
      if idCheck.role == Some(StudentRole) then Reply(409, ExistsReport(IdOfStudentMsg, true))
      else Reply(200, ExistsReport(IdTakenMsg, true))
    else Reply(200, NotExists)
  }

  // ---------------------------------------------------------------------
  // forgotPassword, resetPassword, checkResetToken
  // ---------------------------------------------------------------------

  /** `forgotPassword`: the digest of a fresh reset token is stored with a
      one-hour expiry, and the link with the plaintext token is mailed. */
  method ForgotPassword(db: Database, email: string, bytes: seq<Byte>, now: nat) returns (res: Response)
    requires db.Valid() && |bytes| == 20
    modifies db
    ensures db.Valid()
    ensures db.students == old(db.students)
    ensures TeachersAdvance(old(db.teachers), db.teachers)
    ensures email !in old(db.teachers) ==>
              res == Reply(400, Msg(NoSuchTeacherMsg)) && db.teachers == old(db.teachers) && db.outbox == old(db.outbox)
    ensures email in old(db.teachers) ==>
              && var rt := GenerateResetToken(bytes);
                 && db.teachers == old(db.teachers)[email := WithReset(old(db.teachers)[email], rt.hashedToken, now + ResetWindowMs)]
                 && db.outbox == old(db.outbox) + [ResetMail(email, ResetUrlPrefix + rt.resetToken)]
                 && res == Reply(200, Msg(EmailSentMsg))
  {
    if email !in db.teachers {
      return Reply(400, Msg(NoSuchTeacherMsg));
    }
    var teacher := db.teachers[email];
    var rt := GenerateResetToken(bytes);
    teacher := teacher.(resetPasswordToken := Some(rt.hashedToken));
    teacher := teacher.(resetPasswordExpires := Some(now + ResetWindowMs));
    TeacherReplaced(db.students, db.teachers, email, teacher);
    db.teachers := db.teachers[email := teacher];
    var resetUrl := ResetUrlPrefix + rt.resetToken;
    db.outbox := db.outbox + [ResetMail(teacher.email, resetUrl)];
    res := Reply(200, Msg(EmailSentMsg));
  }

  /** `resetPassword`: a teacher holding an unexpired request for the
      token's digest gets the new password and loses the request. */
  method ResetPassword(db: Database, resetToken: string, password: string, now: nat) returns (res: Response)
    requires db.Valid() && |password| >= 6
    modifies db
    ensures db.Valid()
    ensures db.students == old(db.students) && db.outbox == old(db.outbox)
    ensures TeachersAdvance(old(db.teachers), db.teachers)
    ensures TeacherResetHolders(old(db.teachers), Sha256Hex(resetToken), now) == {} ==>
              res == Reply(400, Msg(ResetInvalidMsg)) && db.teachers == old(db.teachers)
    ensures TeacherResetHolders(old(db.teachers), Sha256Hex(resetToken), now) != {} ==>
              && res == Reply(200, Msg(ResetDoneMsg))
              && exists e :: e in TeacherResetHolders(old(db.teachers), Sha256Hex(resetToken), now)
                             && db.teachers == old(db.teachers)[e := PasswordReset(old(db.teachers)[e], password)]
  {
    var hashedToken := Sha256Hex(resetToken);
    var found := FindOne(db.teachers, (t: Teacher) => TeacherResetMatches(t, hashedToken, now));
    if found.None? {
      assert TeacherResetHolders(db.teachers, hashedToken, now) == {};
      return Reply(400, Msg(ResetInvalidMsg));
    }
    var e := found.value;
    assert e in TeacherResetHolders(db.teachers, hashedToken, now);
    var teacher := db.teachers[e];
    teacher := teacher.(password := Hash(password));
    teacher := teacher.(resetPasswordToken := None, resetPasswordExpires := None);
    TeacherReplaced(db.students, db.teachers, e, teacher);
    db.teachers := db.teachers[e := teacher];
    res := Reply(200, Msg(ResetDoneMsg));
  }

  /** `checkResetToken`: 200 exactly when some unexpired request holds the
      token's digest. */
  function CheckResetToken(teachers: map<string, Teacher>, token: string, now: nat): (r: Response)
    ensures r.status == 200 <==> TeacherResetHolders(teachers, Sha256Hex(token), now) != {}
    ensures r == Reply(r.status, Msg(if r.status == 200 then CheckResetValidMsg else CheckResetInvalidMsg))
  {
    var resetPasswordToken := Sha256Hex(token);
    if TeacherResetHolders(teachers, resetPasswordToken, now) != {} then
      Reply(200, Msg(CheckResetValidMsg))
    else
      Reply(400, Msg(CheckResetInvalidMsg))
  }

  /** A reset consumes the request it matched and no other. */
  lemma {:induction false} ResetConsumesRequest(teachers: map<string, Teacher>, e: string, password: string,
                                                digest: Digest, n: nat)
    requires e in teachers
    ensures TeacherResetHolders(teachers[e := PasswordReset(teachers[e], password)], digest, n)
            == TeacherResetHolders(teachers, digest, n) - {e}
  {
    var after := teachers[e := PasswordReset(teachers[e], password)];
    forall k | k in TeacherResetHolders(after, digest, n)
      ensures k in TeacherResetHolders(teachers, digest, n) - {e}
    {
      assert k != e;
    }
  }

  // ---------------------------------------------------------------------
  // verifyOtp and resendOtp
  // ---------------------------------------------------------------------

  /** The outcome of the teacher's code check. */
  datatype OtpVerdict = OtpInvalid | OtpExpired | OtpOk

  /** `!teacher || teacher.otp !== otp` rejects first, then
      `Date.now() > teacher.otpExpiration` (false for a missing expiry). */
  function OtpVerdictFor(teachers: map<string, Teacher>, email: string, otp: JsVal, now: nat): (v: OtpVerdict)
    ensures v == OtpInvalid <==> email !in teachers || teachers[email].otp != otp
    ensures v == OtpOk ==> email in teachers && teachers[email].otp == otp
  {
    if email !in teachers || teachers[email].otp != otp then OtpInvalid
    else if teachers[email].otpExpiration.Some? && now > teachers[email].otpExpiration.value then OtpExpired
    else OtpOk
  }

  /** `verifyOtp`. Token failures are told apart (a bad signature from an
      expired token); a session token, which has no `email`, is refused.
      A matching, unexpired code activates the teacher and nulls the code;
      the reply carries a one-hour session token, also set as the `token`
      cookie. */
  method VerifyOtp(db: Database, header: AuthHeader, otp: JsVal, now: nat) returns (res: Response)
    requires db.Valid()
    modifies db
    ensures db.Valid()
    ensures db.students == old(db.students) && db.outbox == old(db.outbox)
    ensures TeachersAdvance(old(db.teachers), db.teachers)
    ensures res.status != 200 ==> db.teachers == old(db.teachers)
    ensures ReadBearer(header, now) == Fail(HeaderMissing) ==> res == Reply(400, Msg(HeaderMissingMsg))
    ensures ReadBearer(header, now) == Fail(TokenMissing) ==> res == Reply(400, Msg(TokenMissingMsg))
    ensures ReadBearer(header, now) == Fail(TokenMalformed) ==> res == Reply(400, Msg(InvalidTokenMsg))
    ensures ReadBearer(header, now) == Fail(TokenExpired) ==> res == Reply(400, Msg(VerifyTokenExpiredMsg))
    ensures ReadBearer(header, now).Pass? && TruthyEmail(ReadBearer(header, now).claims).None? ==>
              res == Reply(400, Msg(NoEmailClaimMsg))
    ensures ReadBearer(header, now).Pass? && TruthyEmail(ReadBearer(header, now).claims).Some? ==>
              var e := TruthyEmail(ReadBearer(header, now).claims).value;
              && (OtpVerdictFor(old(db.teachers), e, otp, now) == OtpInvalid ==> res == Reply(400, Msg(InvalidOtpMsg)))
              && (OtpVerdictFor(old(db.teachers), e, otp, now) == OtpExpired ==> res == Reply(400, Msg(OtpExpiredMsg)))
              && (OtpVerdictFor(old(db.teachers), e, otp, now) == OtpOk ==>
                    && db.teachers == old(db.teachers)[e := Activated(old(db.teachers)[e])]
                    && var token := Sign(SessionClaims(old(db.teachers)[e]), OneHourSeconds, now);
                       res == Response(200, TokenIssued(token), Some(Cookie("token", token, ThirtyDaysMs))))
  {
    if !HeaderPresent(header) {
      return Reply(400, Msg(HeaderMissingMsg));
    }
    var token := BearerToken(header);
    if token.None? {
      return Reply(400, Msg(TokenMissingMsg));
    }
    var decoded := Verify(token.value, now);
    if decoded == Malformed {
      return Reply(400, Msg(InvalidTokenMsg));
    } else if decoded == Expired {
      return Reply(400, Msg(VerifyTokenExpiredMsg));
    }
    var email := TruthyEmail(decoded.claims);
    if email.None? {
      return Reply(400, Msg(NoEmailClaimMsg));
    }
    if email.value !in db.teachers || db.teachers[email.value].otp != otp {
      return Reply(400, Msg(InvalidOtpMsg));
    }
    var teacher := db.teachers[email.value];
    if teacher.otpExpiration.Some? && now > teacher.otpExpiration.value {
      return Reply(400, Msg(OtpExpiredMsg));
    }
    teacher := teacher.(otp := Null);
    teacher := teacher.(isActive := true);
    TeacherReplaced(db.students, db.teachers, email.value, teacher);
    db.teachers := db.teachers[email.value := teacher];
    var newToken := Sign(SessionClaims(teacher), OneHourSeconds, now);
    res := Response(200, TokenIssued(newToken), Some(Cookie("token", newToken, ThirtyDaysMs)));
  }

  /** `resendOtp`: the same rules as the Student handler, on the Teacher
      collection. */
  method ResendOtp(db: Database, header: AuthHeader, draw: nat, now: nat) returns (res: Response)
    requires db.Valid() && draw < 900000
    modifies db
    ensures db.Valid()
    ensures db.students == old(db.students)
    ensures TeachersAdvance(old(db.teachers), db.teachers)
    ensures res.status != 200 ==> db.teachers == old(db.teachers) && db.outbox == old(db.outbox)
    ensures ReadBearer(header, now) == Fail(HeaderMissing) ==> res == Reply(400, Msg(HeaderMissingMsg))
    ensures ReadBearer(header, now) == Fail(TokenMissing) ==> res == Reply(400, Msg(TokenMissingMsg))
    ensures ReadBearer(header, now) == Fail(TokenExpired) ==> res == Reply(400, Msg(TokenExpiredMsg))
    ensures ReadBearer(header, now) == Fail(TokenMalformed) ==> res == ServerErrorResponse
    ensures ReadBearer(header, now).Pass? && TruthyEmail(ReadBearer(header, now).claims).None? ==>
              res == Reply(400, Msg(NoEmailClaimMsg))
    ensures ReadBearer(header, now).Pass? && TruthyEmail(ReadBearer(header, now).claims).Some? ==>
              var e := TruthyEmail(ReadBearer(header, now).claims).value;
              && (e !in old(db.teachers) ==> res == Reply(400, Msg(UserNotFoundMsg)))
              && (e in old(db.teachers) && OtpStillLive(old(db.teachers)[e].otpExpiration, now) ==>
                    res == Reply(400, Msg(OtpAlreadySentMsg)))
              && (e in old(db.teachers) && !OtpStillLive(old(db.teachers)[e].otpExpiration, now) ==>
                    var o := GenerateOtp(draw, now);
                    && db.teachers == old(db.teachers)[e := WithOtp(old(db.teachers)[e], o)]
                    && db.outbox == old(db.outbox) + [OtpMail(e, o.code)]
                    && res == Reply(200, Msg(OtpResentMsg)))
  {
    if !HeaderPresent(header) {
      return Reply(400, Msg(HeaderMissingMsg));
    }
    var token := BearerToken(header);
    if token.None? {
      return Reply(400, Msg(TokenMissingMsg));
    }
    var decoded := Verify(token.value, now);
    if decoded == Expired {
      return Reply(400, Msg(TokenExpiredMsg));
    } else if decoded == Malformed {
      return ServerErrorResponse;
    }
    var email := TruthyEmail(decoded.claims);
    if email.None? {
      return Reply(400, Msg(NoEmailClaimMsg));
    }
    if email.value !in db.teachers {
      return Reply(400, Msg(UserNotFoundMsg));
    }
    var teacher := db.teachers[email.value];
    var otpExpiresAt := teacher.otpExpiration.GetOr(0);
    if now < otpExpiresAt {
      return Reply(400, Msg(OtpAlreadySentMsg));
    }
    teacher := teacher.(otp := Str(GenerateOtp(draw, now).code));
    teacher := teacher.(otpExpiration := Some(GenerateOtp(draw, now).expiration));
    TeacherReplaced(db.students, db.teachers, email.value, teacher);
    db.teachers := db.teachers[email.value := teacher];
    db.outbox := db.outbox + [OtpMail(teacher.email, GenerateOtp(draw, now).code)];
    res := Reply(200, Msg(OtpResentMsg));
  }

  // ---------------------------------------------------------------------
  // Properties of the lifecycle
  // ---------------------------------------------------------------------

  /** The code a login stores is accepted, when submitted as a string,
      up to and including the instant of its expiry; one millisecond
      later it has expired. (The Student check already refuses it at the
      instant of expiry.) */
  lemma {:induction false} LoginCodeWindow(teachers: map<string, Teacher>, email: string, draw: nat, issued: nat, now: nat)
    requires email in teachers && draw < 900000
    ensures var o := GenerateOtp(draw, issued);
      var after := teachers[email := WithOtp(teachers[email], o)];
      && (now <= issued + OtpWindowMs ==> OtpVerdictFor(after, email, Str(o.code), now) == OtpOk)
      && (now > issued + OtpWindowMs ==> OtpVerdictFor(after, email, Str(o.code), now) == OtpExpired)
  {
    var o := GenerateOtp(draw, issued);
    var after := teachers[email := WithOtp(teachers[email], o)];
    assert after[email].otp == Str(o.code);
  }

  /** After verification the stored code is `null`, and the expiry stays:
      until it passes, a request whose `otp` is `null` verifies again
      (with a still-valid email token), so the teacher can obtain further
      session tokens without a code. A string code never verifies again. */
  lemma {:induction false} NullCodeReplay(teachers: map<string, Teacher>, email: string, now: nat, code: string)
    requires email in teachers
    requires teachers[email].otpExpiration.Some? && now <= teachers[email].otpExpiration.value
    ensures var after := teachers[email := Activated(teachers[email])];
      OtpVerdictFor(after, email, Null, now) == OtpOk && OtpVerdictFor(after, email, Str(code), now) == OtpInvalid
  {
    var after := teachers[email := Activated(teachers[email])];
    assert after[email] == Activated(teachers[email]);
  }

  /** A resend right after a login is refused for the whole OTP window. */
  lemma {:induction false} ResendWaitsForWindow(t: Teacher, draw: nat, issued: nat, now: nat)
    requires draw < 900000 && issued <= now
    ensures OtpStillLive(WithOtp(t, GenerateOtp(draw, issued)).otpExpiration, now) <==> now < issued + OtpWindowMs
  {
  }
}
