/** The upload gate (Backend/middleware/verifyTeacher.js): the request goes
    on to its handler only with a verified token whose user carries the
    teacher role. The token comes from the Authorization header when there
    is one, and from the `token` cookie otherwise. */
module VerifyTeacher {
  import opened Wrappers
  import opened Crypto
  import opened Models
  import opened Store
  import StudentController
  import TeacherController

  const NoTokenError := "Access Denied. No token provided."
  const ForbiddenError := "Forbidden. Only teachers can upload notes."
  const InvalidTokenError := "Invalid token."

  /** Either `next()` is called, or the gate answers with a status and an
      `{error}` body. */
  datatype Outcome = Next | Deny(status: nat, error: string)

  /** `authHeader ? authHeader.split(" ")[1] : req.cookies.token`. A
      header that is present wins even when it has no second word. */
  function ExtractToken(h: AuthHeader, cookie: Option<Token>): (t: Option<Token>)
    ensures HeaderPresent(h) && |h.value| >= 2 ==> t == Some(h.value[1])
    ensures HeaderPresent(h) && |h.value| < 2 ==> t == None
    ensures !HeaderPresent(h) ==> t == cookie
  {
    if HeaderPresent(h) then
      if |h.value| >= 2 then Some(h.value[1]) else None
    else cookie
  }

  /** The user's role as `decodedToken.user.role` reads it; reading it
      from a payload without `user` throws, which the handler's `catch`
      answers like a failed verification. */
  function TokenRole(c: Claims): (r: Option<Option<Role>>)
    ensures r.None? <==> c.EmailClaims?
    ensures r.Some? ==> r.value == c.user.role
  {
    match c
    case UserClaims(u) => Some(u.role)
    case EmailClaims(_) => None
  }

  /** `verifyTeacher(req, res, next)` at time `now`. */
  function Gate(h: AuthHeader, cookie: Option<Token>, now: nat): (o: Outcome)
    ensures o == Deny(401, NoTokenError) <==>
              ExtractToken(h, cookie).None? || !Truthy(ExtractToken(h, cookie).value)
    ensures o == Next <==>
              && ExtractToken(h, cookie).Some? && Verify(ExtractToken(h, cookie).value, now).Verified?
              && TokenRole(Verify(ExtractToken(h, cookie).value, now).claims) == Some(Some(TeacherRole))
    ensures o == Deny(403, ForbiddenError) <==>
              && ExtractToken(h, cookie).Some? && Verify(ExtractToken(h, cookie).value, now).Verified?
              && TokenRole(Verify(ExtractToken(h, cookie).value, now).claims).Some?
              && TokenRole(Verify(ExtractToken(h, cookie).value, now).claims) != Some(Some(TeacherRole))
    ensures o == Deny(400, InvalidTokenError) <==>
              && ExtractToken(h, cookie).Some? && Truthy(ExtractToken(h, cookie).value)
              && (!Verify(ExtractToken(h, cookie).value, now).Verified?
                  || TokenRole(Verify(ExtractToken(h, cookie).value, now).claims).None?)
  {
    var token := ExtractToken(h, cookie);
    if token.None? || !Truthy(token.value) then Deny(401, NoTokenError)
    else match Verify(token.value, now)
      case Verified(c) =>
        (match TokenRole(c)
         case None => Deny(400, InvalidTokenError)
         case Some(role) => if role == Some(TeacherRole) then Next else Deny(403, ForbiddenError))
      case _ => Deny(400, InvalidTokenError)
  }

  /** A header without a second word hides the cookie: the request is
      refused as tokenless whatever the cookie holds. */
  lemma {:induction false} HeaderShadowsCookie(h: AuthHeader, cookie: Option<Token>, now: nat)
    requires HeaderPresent(h) && |h.value| < 2
    ensures Gate(h, cookie, now) == Deny(401, NoTokenError)
  {
  }

  /** The session token of an active teacher's login passes the gate,
      from the cookie alone, for the thirty days it lasts. */
  lemma {:induction false} TeacherSessionPasses(t: Teacher, issued: nat, now: nat)
    requires issued <= now && now / 1000 < issued / 1000 + ThirtyDaysSeconds
    ensures Gate(None, Some(Sign(TeacherController.SessionClaims(t), ThirtyDaysSeconds, issued)), now) == Next
  {
    SignThenVerify(TeacherController.SessionClaims(t), ThirtyDaysSeconds, issued, now);
  }

  /** A student's session token, however fresh, is forbidden. */
  lemma {:induction false} StudentSessionForbidden(s: Student, issued: nat, now: nat)
    requires issued <= now && now / 1000 < issued / 1000 + OneHourSeconds
    ensures Gate(None, Some(Sign(StudentController.LoginClaims(s), OneHourSeconds, issued)), now) == Deny(403, ForbiddenError)
  {
    SignThenVerify(StudentController.LoginClaims(s), OneHourSeconds, issued, now);
  }

  /** The one-hour step-up token a login sets while an OTP is pending has
      no `user`, and is refused as invalid rather than forbidden. */
  lemma {:induction false} StepUpTokenInvalid(email: string, issued: nat, now: nat)
    requires issued <= now
    ensures Gate(None, Some(Sign(EmailClaims(email), OneHourSeconds, issued)), now) == Deny(400, InvalidTokenError)
  {
    SignThenVerify(EmailClaims(email), OneHourSeconds, issued, now);
  }
}
