/** Symbolic models of the three cryptographic libraries the backend calls:
    bcrypt (password digests), SHA-256 (reset-token digests) and JSON Web
    Tokens (signed claims with an expiry). A digest or a signed token is a
    term that records what it was made from; nothing can be recovered from
    it except through the operations below, and two terms are equal only
    when they were made from equal inputs (the idealised collision-free
    reading of the libraries). */
module Crypto {
  import opened Wrappers

  // ---------------------------------------------------------------------
  // bcrypt (Backend/utils/authUtils.js, hashPassword / comparePassword)
  // ---------------------------------------------------------------------

  /** What a `password` field can hold. `Bcrypt(p)` is a salted bcrypt
      digest of `p` (the salt is abstracted away). `FunctionSource` is the
      text of the `hashPassword` function itself, which is what the store
      receives when a handler passes the function instead of its result. */
  datatype StoredPassword = Bcrypt(plain: string) | FunctionSource

  /** `hashPassword(p)`. */
  function Hash(password: string): StoredPassword
  {
    Bcrypt(password)
  }

  /** `comparePassword(candidate, stored)`: true exactly for the password
      the digest was made from. A stored value that is not a bcrypt digest
      (such as a function's source text) never matches. */
  function Compare(candidate: string, stored: StoredPassword): (ok: bool)
    ensures ok <==> stored == Hash(candidate)
  {
    match stored
    case Bcrypt(p) => p == candidate
    case FunctionSource => false
  }

  // ---------------------------------------------------------------------
  // SHA-256 (Backend/utils/authUtils.js, generateResetToken; and the
  // re-hashing done by the reset handlers)
  // ---------------------------------------------------------------------

  /** The hex SHA-256 digest of a string, as a term. */
  datatype Digest = Sha256(preimage: string)

  /** `crypto.createHash("sha256").update(s).digest("hex")`: a deterministic
      function of `s`, so hashing the same plaintext twice gives the same
      digest, and different plaintexts give different digests. */
  function Sha256Hex(s: string): Digest
  {
    Sha256(s)
  }

  lemma Sha256Deterministic(s: string, t: string)
    ensures Sha256Hex(s) == Sha256Hex(t) <==> s == t
  {
  }

  // ---------------------------------------------------------------------
  // JSON Web Tokens (jsonwebtoken's sign / verify)
  // ---------------------------------------------------------------------

  datatype Role = StudentRole | TeacherRole

  /** The `user` object of a session or registration claim. Registration
      tokens carry no `role` and no `name`. */
  datatype User = User(id: string, email: string, name: Option<string>, role: Option<Role>)

  /** A token's payload: either `{user: {...}}` or the step-up payload
      `{email}` issued while an OTP is pending. */
  datatype Claims = UserClaims(user: User) | EmailClaims(email: string)

  /** A bearer token as received. `Jwt(c, exp)` is a token signed with the
      server's secret, carrying claims `c` and expiry `exp` in seconds since
      the epoch; `Raw(text)` is any other string (tampered, truncated,
      signed with another key, or empty). */
  datatype Token = Jwt(claims: Claims, exp: int) | Raw(text: string)

  /** JavaScript truthiness of a token string: only the empty string is
      falsy. */
  predicate Truthy(t: Token)
  {
    t != Raw("")
  }

  const OneHourSeconds: nat := 3600
  const ThirtyDaysSeconds: nat := 30 * 24 * 3600

  /** `jwt.sign(claims, secret, {expiresIn: ttl})` at time `now` (in
      milliseconds): `iat` is `now` truncated to whole seconds and
      `exp = iat + ttl`. */
  function Sign(claims: Claims, ttlSeconds: nat, now: nat): (t: Token)
    ensures t.Jwt? && t.claims == claims
    ensures t.exp * 1000 <= now + ttlSeconds * 1000 < t.exp * 1000 + 1000
  {
    Jwt(claims, now / 1000 + ttlSeconds)
  }

  /** `generateToken(payload, expiresIn = "30d")`: a missing lifetime means
      thirty days. */
  function GenerateToken(claims: Claims, expiresIn: Option<nat>, now: nat): (t: Token)
    ensures expiresIn.None? ==> t == Sign(claims, ThirtyDaysSeconds, now)
    ensures expiresIn.Some? ==> t == Sign(claims, expiresIn.value, now)
  {
    Sign(claims, expiresIn.GetOr(ThirtyDaysSeconds), now)
  }

  datatype Verification = Verified(claims: Claims) | Expired | Malformed

  /** `jwt.verify(token, secret)` at time `now` (in milliseconds): a token
      not signed with the secret raises `JsonWebTokenError` (Malformed); a
      signed one raises `TokenExpiredError` once the clock, in whole
      seconds, has reached `exp`; otherwise its claims are returned. */
  function Verify(t: Token, now: nat): (v: Verification)
    ensures v.Verified? <==> t.Jwt? && now / 1000 < t.exp
    ensures v.Verified? ==> v.claims == t.claims
    ensures v == Malformed <==> t.Raw?
  {
    match t
    case Raw(_) => Malformed
    case Jwt(c, exp) => if now / 1000 < exp then Verified(c) else Expired
  }

  /** A token signed at `issued` with lifetime `ttl` verifies, with the
      claims it was signed with, at every later instant of the same
      lifetime, and is expired from then on. */
  lemma SignThenVerify(claims: Claims, ttlSeconds: nat, issued: nat, now: nat)
    requires issued <= now
    ensures now / 1000 < issued / 1000 + ttlSeconds ==>
              Verify(Sign(claims, ttlSeconds, issued), now) == Verified(claims)
    ensures now / 1000 >= issued / 1000 + ttlSeconds ==>
              Verify(Sign(claims, ttlSeconds, issued), now) == Expired
  {
  }

  /** The `email` claim of a verified payload as JavaScript reads
      `decoded.email`: absent for `{user: ...}` payloads. */
  function EmailClaim(c: Claims): (e: Option<string>)
    ensures e.Some? <==> c.EmailClaims?
  {
    match c
    case EmailClaims(email) => Some(email)
    case UserClaims(_) => None
  }
}
