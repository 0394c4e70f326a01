/** The session gate (Backend/middleware/auth.js): it reads the token from
    the `token` cookie only, and on success writes the payload's `user` into
    the request before passing it on. */
module AuthMiddleware {
  import opened Wrappers
  import opened Crypto
  import opened Models
  import opened Store
  import StudentController

  const NoTokenMsg := "No token, authorization denied"
  const InvalidTokenMsg := "Token is not valid"

  /** The gate's decision: pass the request on with `decoded.user`
      (`None` when the payload has no `user`), or refuse with 401 and a
      `{msg}` body. */
  datatype Admission = Admit(user: Option<User>) | Refuse(msg: string)

  /** `decoded.user`. */
  function PayloadUser(c: Claims): (u: Option<User>)
    ensures u.Some? <==> c.UserClaims?
    ensures u.Some? ==> u.value == c.user
  {
    match c
    case UserClaims(user) => Some(user)
    case EmailClaims(_) => None
  }

  /** The decision on the cookie `token` at time `now`. */
  function Decide(cookie: Option<Token>, now: nat): (a: Admission)
    ensures a == Refuse(NoTokenMsg) <==> cookie.None? || !Truthy(cookie.value)
    ensures a.Admit? <==> cookie.Some? && Verify(cookie.value, now).Verified?
    ensures a.Admit? ==> a.user == PayloadUser(cookie.value.claims)
    ensures a == Refuse(InvalidTokenMsg) <==> cookie.Some? && Truthy(cookie.value) && !Verify(cookie.value, now).Verified?
  {
    if cookie.None? || !Truthy(cookie.value) then Refuse(NoTokenMsg)
    else match Verify(cookie.value, now)
      case Verified(c) => Admit(PayloadUser(c))
      case _ => Refuse(InvalidTokenMsg)
  }

  /** The parts of an Express request the gate reads and writes. */
  class Request {
    /** `req.cookies.token`. */
    var cookieToken: Option<Token>
    /** The Authorization header, which this gate never reads. */
    var authorization: AuthHeader
    /** `req.user`, `None` while unset. */
    var user: Option<User>

    constructor (cookieToken: Option<Token>, authorization: AuthHeader)
      ensures this.cookieToken == cookieToken && this.authorization == authorization && user == None
    {
      this.cookieToken := cookieToken;
      this.authorization := authorization;
      user := None;
    }

    /** `auth(req, res, next)`: `true` when `next()` is called. On success
        `req.user` is the payload's user; a refused request is left as it
        was. */
    method Auth(now: nat) returns (next: bool, status: nat, msg: string)
      modifies this`user
      ensures next <==> Decide(cookieToken, now).Admit?
      ensures next ==> user == Decide(cookieToken, now).user
      ensures !next ==> status == 401 && Refuse(msg) == Decide(cookieToken, now) && user == old(user)
    {
      var token := cookieToken;
      if token.None? || !Truthy(token.value) {
        return false, 401, NoTokenMsg;
      }
      var decoded := Verify(token.value, now);
      if !decoded.Verified? {
        return false, 401, InvalidTokenMsg;
      }
      user := PayloadUser(decoded.claims);
      next, status, msg := true, 200, "";
    }
  }

  /** A student's login session, within its hour, is admitted with the
      student's user attached. */
  lemma {:induction false} StudentSessionAdmitted(s: Student, issued: nat, now: nat)
    requires issued <= now && now / 1000 < issued / 1000 + OneHourSeconds
    ensures Decide(Some(Sign(StudentController.LoginClaims(s), OneHourSeconds, issued)), now)
            == Admit(Some(User(s.studentId, s.email, Some(s.name), Some(StudentRole))))
  {
    SignThenVerify(StudentController.LoginClaims(s), OneHourSeconds, issued, now);
  }

  /** The step-up token a login sets while an OTP is pending also passes,
      with no user attached: the gate checks the signature, not the kind
      of token. */
  lemma {:induction false} StepUpTokenAdmittedWithoutUser(email: string, issued: nat, now: nat)
    requires issued <= now && now / 1000 < issued / 1000 + OneHourSeconds
    ensures Decide(Some(Sign(EmailClaims(email), OneHourSeconds, issued)), now) == Admit(None)
  {
    SignThenVerify(EmailClaims(email), OneHourSeconds, issued, now);
  }

  /** Every token is refused from the second its lifetime ends. */
  lemma {:induction false} ExpiredSessionRefused(c: Claims, ttl: nat, issued: nat, now: nat)
    requires issued <= now && now / 1000 >= issued / 1000 + ttl
    ensures Decide(Some(Sign(c, ttl, issued)), now) == Refuse(InvalidTokenMsg)
  {
    SignThenVerify(c, ttl, issued, now);
  }
}
