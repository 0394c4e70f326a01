/** The client's route guard (Frontend/src/Components/RefereshHandler.jsx):
    on every navigation it decodes the `token` cookie, without checking its
    signature or expiry, and decides whether the user counts as
    authenticated and where, if anywhere, to redirect. */
module RefreshHandler {
  import opened Wrappers
  import opened Crypto
  import opened Text

  /** What `Cookies.get("token")` and `jwtDecode` yield: no (or an empty)
      cookie, a cookie that does not decode, or the decoded payload. */
  datatype CookieToken = NoToken | Undecodable | Decoded(claims: Claims)

  /** `setIsAuthenticated(authenticated)` and `navigate(redirect, {replace:
      true})` when `redirect` is present. */
  datatype Decision = Decision(authenticated: bool, redirect: Option<string>)

  const StudentHome := "/student/dashboard"
  const TeacherHome := "/teacher/dashboard"
  const NotFoundRoute := "*"
  const Landing := "/"

  /** The routes a visitor without a token is sent away from. */
  predicate Protected(path: string)
  {
    path == "/notes" || path == "/syllabus"
  }

  /** Paths a student is moved off to the student dashboard. */
  predicate StudentBounced(path: string)
  {
    StartsWith(path, "/teacher") || path == "/student/register" || path == "/student/login"
  }

  /** Paths a teacher is moved off to the teacher dashboard. */
  predicate TeacherBounced(path: string)
  {
    StartsWith(path, "/student") || path == "/teacher/register" || path == "/teacher/login"
  }

  /** The effect's decision for the cookie and the current path. A payload
      without `user` makes `decodedToken.user.role` throw, and is handled
      like a token that does not decode. */
  function Decide(token: CookieToken, path: string): (d: Decision)
    ensures token == NoToken ==> d == Decision(false, if Protected(path) then Some(Landing) else None)
    ensures token == Undecodable || (token.Decoded? && token.claims.EmailClaims?) ==> d == Decision(false, Some(Landing))
    ensures d.authenticated <==> token.Decoded? && token.claims.UserClaims?
    ensures d.authenticated && token.claims.user.role == Some(StudentRole) ==>
              d.redirect == if StudentBounced(path) then Some(StudentHome)
                            else if path == "/upload-notes" then Some(NotFoundRoute) else None
    ensures d.authenticated && token.claims.user.role == Some(TeacherRole) ==>
              d.redirect == if TeacherBounced(path) then Some(TeacherHome) else None
    ensures d.authenticated && token.claims.user.role.None? ==> d.redirect == None
  {
    match token
    case NoToken => Decision(false, if Protected(path) then Some(Landing) else None)
    case Undecodable => Decision(false, Some(Landing))
    case Decoded(EmailClaims(_)) => Decision(false, Some(Landing))
    case Decoded(UserClaims(user)) =>
      if user.role == Some(StudentRole) then
        if StudentBounced(path) then Decision(true, Some(StudentHome))
        else if path == "/upload-notes" then Decision(true, Some(NotFoundRoute))
        else Decision(true, None)
      else if user.role == Some(TeacherRole) then
        if TeacherBounced(path) then Decision(true, Some(TeacherHome))
        else Decision(true, None)
      else Decision(true, None)
  }

  /** `jwtDecode` reads the payload of any well-formed token, expired or
      not. */
  function ClientDecode(t: Token): CookieToken
  {
    match t
    case Jwt(c, _) => Decoded(c)
    case Raw(text) => if text == "" then NoToken else Undecodable
  }

  /** For a decodable user token, a redirect lands on a path the guard
      accepts: following it does not redirect again. */
  lemma {:induction false} RedirectSettles(token: CookieToken, path: string)
    requires Decide(token, path).authenticated && Decide(token, path).redirect.Some?
    ensures Decide(token, Decide(token, path).redirect.value).redirect == None
  {
    var target := Decide(token, path).redirect.value;
    if token.claims.user.role == Some(StudentRole) {
      if target == StudentHome {
        assert !StartsWith(target, "/teacher") by { assert target[1] != "/teacher"[1]; }
      } else {
        assert target == NotFoundRoute;
        assert !StartsWith(target, "/teacher");
      }
    } else {
      assert target == TeacherHome;
      assert !StartsWith(target, "/student") by { assert target[1] != "/student"[1]; }
    }
  }

  /** Without a token, the landing page is a fixed point too. */
  lemma {:induction false} NoTokenSettles(path: string)
    requires Decide(NoToken, path).redirect.Some?
    ensures Decide(NoToken, Decide(NoToken, path).redirect.value).redirect == None
  {
  }

  /** A cookie that does not decode redirects even from the landing page
      to the landing page itself, so the guard never settles on it. */
  lemma UndecodableNeverSettles()
    ensures Decide(Undecodable, Landing) == Decision(false, Some(Landing))
  {
  }

  /** The guard trusts an expired session: a signed token counts as
      authenticated for its payload's user long after the server refuses
      it. */
  lemma {:induction false} ExpiredSessionStillAuthenticated(u: User, ttl: nat, issued: nat, now: nat, path: string)
    requires issued <= now && now / 1000 >= issued / 1000 + ttl
    ensures Verify(Sign(UserClaims(u), ttl, issued), now) == Expired
    ensures Decide(ClientDecode(Sign(UserClaims(u), ttl, issued)), path).authenticated
  {
    SignThenVerify(UserClaims(u), ttl, issued, now);
  }
}
