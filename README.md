# Patshala authentication and notes core, in Dafny

This project models the core of the Patshala backend and its client-side
guards:

- the two-role (Student / Teacher) account life cycle: registration, login,
  OTP verification, OTP resend, forgotten and reset passwords;
- the helper library those handlers use (OTP and reset-token generation,
  e-mail and ID lookups, the enrollment-roster name check);
- the two Express gates (`auth`, which reads the `token` cookie, and
  `verifyTeacher`, which guards note uploads);
- the notes handlers' checks, storage path and content query;
- the browser's route guard (`RefereshHandler`) and the OTP page's resend
  countdown (`OtpVerification`).

The store is the class `Store.Database`, holding both collections (maps from
e-mail to record) and an outbox of mails. The handlers that change it are
methods. Each of them states the whole response and the whole new state, and
keeps the invariant `Database.Valid()`:

- keys are unique;
- required fields are present;
- an OTP code and its expiry go together;
- a reset digest and its expiry go together.

Their `StudentsAdvance` / `TeachersAdvance` clauses state that no record is
lost and that activation is never undone. The pure decisions (which login
branch, which gate outcome, which redirect) are functions with
if-and-only-if contracts. The lemmas relate the handlers to one another: the
code a login mails verifies, a resend is refused for the OTP window, and a
reset consumes the request it matched.

bcrypt, SHA-256 and JSON Web Tokens are modelled symbolically (module
`Crypto`):

- A digest or a signed token is a term recording what it was made from.
- `Verify` returns `Verified`, `Expired` or `Malformed`, as `jwt.verify`
  does: a token is expired once the clock in whole seconds reaches `exp`.

Several inputs become parameters:

- clocks are a `now` in milliseconds;
- `Math.random()` is a `draw < 900000`;
- `crypto.randomBytes(20)` is a 20-byte sequence;
- the `StudentData.json` roster is a sequence of entries.

Points worth knowing about the code:

- An active student's login token lasts one hour, not thirty days (the
  cookie lasts thirty days).
- `lastToken` is assigned by both login handlers but is not in either
  schema. Mongoose's strict mode drops it, so it is never stored.
- A student verified by OTP gets a token whose `id` is the document id. A
  student's login token carries the enrollment ID instead.
- Teacher OTP verification sets `otp` to `null` and keeps the expiry. The
  stored `null` then matches a `null` code submitted before the expiry
  passes (`TeacherController.NullCodeReplay`).
- The registration tokens carry no `role`.
- The server's OTP window is 60 seconds. The page's countdown starts at 300
  seconds and restarts at 120 after a resend.
- `auth` admits the step-up token (`{email}` payload) with no user attached
  (`AuthMiddleware.StepUpTokenAdmittedWithoutUser`).
- The client guard trusts expired tokens
  (`RefreshHandler.ExpiredSessionStillAuthenticated`).
- A cookie that does not decode sends even `/` back to `/`
  (`RefreshHandler.UndecodableNeverSettles`).
- Teacher registration stores the hashing function's text as the password,
  so a newly registered teacher cannot log in
  (`TeacherController.RegisteredTeacherLockedOut`; see "## Findings").
  `TeacherController.RegisterTeacherIntended` stores the digest instead.

## Model

| member | source | states |
|---|---|---|
| Crypto.Compare | Backend/utils/authUtils.js:20-26 | a candidate matches a stored password exactly when the stored value is the bcrypt digest of that candidate; a stored value that is not a digest never matches |
| Crypto.Sign | Backend/utils/authUtils.js:29-35 | a signed token carries the given claims and expires `ttl` seconds after the signing instant truncated to whole seconds |
| Crypto.GenerateToken | Backend/utils/authUtils.js:29-35 | a missing lifetime means thirty days, a given one is used as is |
| Crypto.Verify | Backend/middleware/auth.js:13 | a token verifies exactly when it is server-signed and the clock in seconds is before its expiry, and then yields its claims; it is malformed exactly when not server-signed |
| Crypto.SignThenVerify | Backend/utils/authUtils.js:29-35 | a token verifies with its own claims for its whole lifetime and is expired from then on |
| Crypto.Sha256Deterministic | Backend/utils/authUtils.js:142-145 | two plaintexts have the same SHA-256 digest exactly when they are equal |
| Crypto.EmailClaim | Backend/controllers/teacherController.js:382-384 | `decoded.email` is present exactly for step-up payloads |
| Models.NewStudent | Backend/models/Student.js:3-34 | a new student is inactive, has no OTP and no reset request, and registration defaults to now |
| Models.NewTeacher | Backend/models/Teacher.js:3-38 | a new teacher is inactive, has no OTP and no reset request, subjects default to empty, registration defaults to now |
| Models.InsertStudent | Backend/models/Student.js:4-22 | save fails with a validation error exactly when a required field is missing, with a duplicate-key error exactly when the e-mail or student ID is taken, and otherwise adds the record keeping keys unique |
| Models.InsertTeacher | Backend/models/Teacher.js:4-27 | the same for teachers, with the teacher ID as the second unique key |
| AuthUtils.GenerateOtp | Backend/utils/authUtils.js:38-42 | the code is six decimal digits worth 100000 + draw, hence between 100000 and 999999, and expires 60 seconds after now |
| AuthUtils.OtpCodesDistinct | Backend/utils/authUtils.js:38-42 | different draws give different codes |
| AuthUtils.ToHex | Backend/utils/authUtils.js:141 | hex encoding has two hex digits per byte |
| AuthUtils.HexRoundTrip | Backend/utils/authUtils.js:141 | hex decoding recovers the bytes |
| AuthUtils.GenerateResetToken | Backend/utils/authUtils.js:139-150 | the plaintext is 40 hex digits, the stored value is its SHA-256 digest, and that digest is never the digest of the empty string |
| AuthUtils.ResetTokensDistinct | Backend/utils/authUtils.js:139-150 | different random bytes give different plaintexts and different digests |
| AuthUtils.CheckEmailExists | Backend/utils/authUtils.js:72-82 | found exactly when either collection holds the e-mail; the role is teacher whenever a teacher holds it, student only otherwise |
| AuthUtils.CheckIdExists | Backend/utils/authUtils.js:85-97 | the same precedence for teacher and student IDs |
| AuthUtils.FindEnrollment | Backend/utils/authUtils.js:109-111 | the index found is the first entry holding the enrollment; none means no entry holds it |
| AuthUtils.IsEnrollNumExists | Backend/utils/authUtils.js:99-137 | not found exactly when no roster entry holds the enrollment, and then the message is "Enrollment number does not exist." |
| AuthUtils.EnrollCheckUsesFirstEntry | Backend/utils/authUtils.js:109-133 | when the enrollment is on the roster, the verdict is decided by its first entry alone |
| AuthUtils.ComponentsAreWords | Backend/utils/authUtils.js:101-106 | the components of a name are the pieces of its lower-cased words |
| AuthUtils.PiecesIncluded | Backend/utils/authUtils.js:121-123 | the piece-inclusion test equals the word-inclusion test |
| NameCheck.NameMatchCharacterised | Backend/utils/authUtils.js:99-125 | the name check passes exactly when every lower-cased word of the claimed name is a word of the roster name (a claimed name with no word matches only a roster name with none) |
| NameCheck.ExtraClaimedWordRejected | Backend/utils/authUtils.js:121-123 | a claimed word missing from the roster name fails the check |
| NameCheck.OmittedRosterWordAccepted | Backend/utils/authUtils.js:121-123 | leaving out roster words (a middle name) still passes |
| NameCheck.NameMatchIgnoresCaseAndSpacing | Backend/utils/authUtils.js:101-118 | names with the same lower-cased words give the same verdict, whatever their case and spacing |
| Text.SplitTrimIsWords | Backend/utils/authUtils.js:102-106 | `trim().split(/\s+/)` yields the words of the string, or `[""]` when there is none |
| Text.NatToDecimal | Frontend/src/Components/Login/OtpVerification.jsx:51 | a number's decimal rendering is a digit string that reads back as the number, without leading zeros |
| Store.BearerToken | Backend/controllers/studentController.js:444-456 | the token is the header's second space-separated part when present and non-empty, absent otherwise |
| Store.TruthyEmail | Backend/controllers/studentController.js:469-471 | the payload's e-mail counts exactly when it is a step-up payload with a non-empty e-mail |
| Store.ReadBearer | Backend/controllers/studentController.js:444-466 | the header check, then the token check, then the signature and expiry, each failure named exactly, and a pass exactly when a verified token is present |
| Store.StudentsAdvanceTransitive | Backend/controllers/studentController.js:399-433 | the no-record-lost, activation-kept relation composes across handler runs |
| Store.FindOne | Backend/controllers/studentController.js:325-330 | `findOne` returns a record satisfying the filter, and none only when no record does |
| StudentController.WithOtp | Backend/controllers/studentController.js:108-112 | storing an OTP keeps the record well-formed and puts it in an OTP phase without changing activation |
| StudentController.Activated | Backend/controllers/studentController.js:413-416 | a verified student is active, keeps a well-formed record and has no pending code |
| StudentController.WithReset | Backend/controllers/studentController.js:252-258 | storing a reset request keeps the record well-formed |
| StudentController.PasswordReset | Backend/controllers/studentController.js:336-340 | after a reset the record is well-formed and no digest unlocks it any more |
| StudentController.LoginStepFor | Backend/controllers/studentController.js:70-139 | unknown e-mail, wrong password, session or OTP, each exactly on its condition |
| StudentController.OtpTarget | Backend/controllers/studentController.js:399-405 | the record a verified token designates is the one under its e-mail claim, when there is one |
| StudentController.RegisterStudent | Backend/controllers/studentController.js:21-57 | 400 when either collection holds the e-mail; a taken student ID fails at the unique index with a 500; otherwise the new inactive record with the password's digest is added and 201 with a one-hour token without a role; only the students change |
| StudentController.LoginStudent | Backend/controllers/studentController.js:60-144 | 400 with the e-mail or password message; an active student gets a one-hour token and a thirty-day `token` cookie; an inactive one gets a new OTP stored and mailed and a one-hour `studentVerifyToken` cookie |
| StudentController.CheckEmail | Backend/controllers/studentController.js:147-173 | 409 exactly when either collection holds the e-mail, with the teacher message taking precedence; 200 otherwise |
| StudentController.CheckEnrollmentID | Backend/controllers/studentController.js:176-234 | an ID held by a teacher or student is a 409 with that role's message; otherwise the answer is 200, 404 or 409 |
| StudentController.CheckEnrollmentIDUnknown | Backend/controllers/studentController.js:212-216 | with no collision, an enrollment missing from the roster is a 404 |
| StudentController.CheckEnrollmentIDByRoster | Backend/controllers/studentController.js:200-226 | with no collision, the first roster entry decides: 200 when the name matches, 409 with the mismatch message otherwise |
| StudentController.ForgotPassword | Backend/controllers/studentController.js:237-312 | an unknown e-mail is a 400 "Student does not exist" with nothing changed; a known one gets the token digest stored for one hour and the plaintext link mailed |
| StudentController.ResetPassword | Backend/controllers/studentController.js:315-352 | with no unexpired request for the token's digest, 400 and nothing changes; otherwise a holder gets the new password's digest and its request cleared |
| StudentController.CheckResetToken | Backend/controllers/studentController.js:355-377 | 200 exactly when an unexpired request holds the token's digest |
| StudentController.VerifyOtp | Backend/controllers/studentController.js:380-439 | 400 for a missing header or token, 500 for any failed token, 400 for an unknown student or a wrong or expired code, and on a match the student is activated and gets a thirty-day session cookie |
| StudentController.ResendOtp | Backend/controllers/studentController.js:442-514 | each token failure is answered as coded; a live code refuses the resend; otherwise a new code is stored and mailed; nothing changes unless the answer is 200 |
| StudentController.LoginCodeWindow | Backend/controllers/studentController.js:408-411 | the code a login mails, submitted as a string, is accepted exactly until its 60-second window ends |
| StudentController.VerifiedCodeIsSpent | Backend/controllers/studentController.js:413-416 | once verified, no code is accepted again until a new one is issued |
| StudentController.ResendWaitsForWindow | Backend/controllers/studentController.js:474-485 | after a login, the stored code counts as live exactly for the 60-second window |
| StudentController.ResetConsumesRequest | Backend/controllers/studentController.js:336-340 | a reset removes the consumed record from the holders of every digest and leaves every other record's request alone |
| StudentController.ResetLinkWindow | Backend/controllers/studentController.js:252-258 | the mailed link unlocks its record exactly for the hour after it was issued |
| TeacherController.WithOtp | Backend/controllers/teacherController.js:110-114 | storing an OTP keeps the record well-formed and puts it in an OTP phase |
| TeacherController.Activated | Backend/controllers/teacherController.js:392-395 | a verified teacher is active with a well-formed record and keeps the old expiry |
| TeacherController.WithReset | Backend/controllers/teacherController.js:216-228 | storing a reset request keeps the record well-formed |
| TeacherController.PasswordReset | Backend/controllers/teacherController.js:303-307 | after a reset no digest unlocks the record |
| TeacherController.NewAccountAsWritten | Backend/controllers/teacherController.js:39-45 | the document as written stores the function's source as the password, and no subjects |
| TeacherController.NewAccount | Backend/controllers/teacherController.js:38-45 | the corrected document stores the bcrypt digest of the password |
| TeacherController.LoginStepFor | Backend/controllers/teacherController.js:77-145 | unknown e-mail, wrong password, session or OTP, each exactly on its condition |
| TeacherController.AsWrittenRegistrationLocksOut | Backend/controllers/teacherController.js:42 | as written, every login attempt of a freshly registered teacher is refused as a wrong password |
| TeacherController.RegistrationEnablesLogin | Backend/controllers/teacherController.js:38-48 | as intended, exactly the registered password leads a new teacher to the OTP step |
| TeacherController.RegisterTeacher | Backend/controllers/teacherController.js:21-64 | 400 when either collection holds the e-mail; a taken teacher ID fails at the unique index with a 500; otherwise an inactive record is added whose password field holds the hashing function's text, not a digest, and the reply is 201 with a one-hour token without a role; only the teachers change |
| TeacherController.RegisterTeacherIntended | Backend/controllers/teacherController.js:21-64 | the same checks and replies as `RegisterTeacher`, with the password's digest stored as line 42 evidently intends |
| TeacherController.RegisteredTeacherLockedOut | Backend/controllers/teacherController.js:21-64 | as written, registering a new teacher (201) and then logging in with the same password is answered 400 "Password is incorrect", and the store keeps the registered record |
| TeacherController.RegisteredTeacherGetsOtp | Backend/controllers/teacherController.js:21-64 | as intended, registering a new teacher and then logging in with the same password mails an OTP to the new address and answers 200 |
| TeacherController.LoginTeacher | Backend/controllers/teacherController.js:67-150 | 400 with the e-mail or password message; an active teacher gets a thirty-day token in body and cookie; an inactive one gets a new OTP stored and mailed and a `teacherVerifyToken` cookie |
| TeacherController.CheckEmail | Backend/controllers/teacherController.js:153-177 | 409 exactly when either collection holds the e-mail, the teacher message first; 200 otherwise |
| TeacherController.CheckTeacherId | Backend/controllers/teacherController.js:180-204 | a teacher ID already held is reported as taken with status 200, one held by a student with 409, and a free one as absent with 200 |
| TeacherController.ForgotPassword | Backend/controllers/teacherController.js:207-282 | an unknown e-mail is a 400 "Teacher does not exist" with nothing changed; a known one gets the digest stored for an hour and the link mailed |
| TeacherController.ResetPassword | Backend/controllers/teacherController.js:285-320 | with no unexpired request, 400 and nothing changes; otherwise a holder gets the new digest and its request cleared |
| TeacherController.CheckResetToken | Backend/controllers/teacherController.js:323-345 | 200 exactly when an unexpired request holds the token's digest |
| TeacherController.ResetConsumesRequest | Backend/controllers/teacherController.js:303-307 | a reset removes the consumed record from every digest's holders and leaves the others alone |
| TeacherController.OtpVerdictFor | Backend/controllers/teacherController.js:387-389 | invalid exactly when no teacher holds the e-mail or the stored code differs; accepted only on an equal code |
| TeacherController.VerifyOtp | Backend/controllers/teacherController.js:348-426 | a bad signature and an expired token are told apart (both 400); a wrong code and an expired code get their own 400s; on a match the teacher is activated and gets a one-hour token in the body and a thirty-day cookie; the store changes only on 200 |
| TeacherController.ResendOtp | Backend/controllers/teacherController.js:429-503 | each token failure is answered as coded; a live code refuses the resend; otherwise a new code is stored and mailed |
| TeacherController.LoginCodeWindow | Backend/controllers/teacherController.js:387-395 | the mailed code is accepted up to and including the end of its window, and expired after it |
| TeacherController.NullCodeReplay | Backend/controllers/teacherController.js:387-395 | after verification, a `null` code passes the check again until the old expiry, while any string code is rejected |
| TeacherController.ResendWaitsForWindow | Backend/controllers/teacherController.js:458-466 | after a login, the stored code counts as live exactly for the 60-second window |
| VerifyTeacher.ExtractToken | Backend/middleware/verifyTeacher.js:6-7 | a present header's second word is the token, a present header without one gives none, and the cookie is read only without a header |
| VerifyTeacher.TokenRole | Backend/middleware/verifyTeacher.js:18 | reading the role fails exactly for a payload without `user` |
| VerifyTeacher.Gate | Backend/middleware/verifyTeacher.js:4-29 | 401 exactly without a token, pass exactly for a verified teacher, 403 exactly for another verified user, 400 for any other token |
| VerifyTeacher.HeaderShadowsCookie | Backend/middleware/verifyTeacher.js:6-11 | a header without a second word is refused as tokenless whatever the cookie holds |
| VerifyTeacher.TeacherSessionPasses | Backend/middleware/verifyTeacher.js:15-19 | an active teacher's login token passes from the cookie for its thirty days |
| VerifyTeacher.StudentSessionForbidden | Backend/middleware/verifyTeacher.js:20-24 | a student's live session token is forbidden |
| VerifyTeacher.StepUpTokenInvalid | Backend/middleware/verifyTeacher.js:25-28 | the step-up token is refused as invalid, never forbidden |
| AuthMiddleware.PayloadUser | Backend/middleware/auth.js:15 | `decoded.user` is present exactly for a user payload |
| AuthMiddleware.Decide | Backend/middleware/auth.js:4-20 | "No token" exactly without a truthy cookie, admission exactly for a verified token with its payload's user, "not valid" exactly otherwise |
| AuthMiddleware.Request.Auth | Backend/middleware/auth.js:4-20 | calls on exactly as `Decide` admits, sets the request's user on success, and leaves the request alone with a 401 otherwise |
| AuthMiddleware.StudentSessionAdmitted | Backend/middleware/auth.js:13-16 | a live student session is admitted with the student's user |
| AuthMiddleware.StepUpTokenAdmittedWithoutUser | Backend/middleware/auth.js:13-16 | the live step-up token is admitted with no user |
| AuthMiddleware.ExpiredSessionRefused | Backend/middleware/auth.js:17-19 | every token is refused from the second its lifetime ends |
| NotesController.CollapseSpaces | Backend/controllers/notesController.js:22 | the result holds no whitespace and is no longer than the input |
| NotesController.SanitizeSubject | Backend/controllers/notesController.js:22 | the folder name holds no whitespace and no lower-case letter |
| NotesController.SanitizeSubjectIdempotent | Backend/controllers/notesController.js:22 | sanitising a folder name again changes nothing |
| NotesController.RunCollapses | Backend/controllers/notesController.js:22 | a whitespace run of any length becomes one underscore |
| NotesController.SpacingIgnored | Backend/controllers/notesController.js:22 | subjects that differ only in the length of a whitespace run get the same folder |
| NotesController.SanitizeName | Backend/controllers/notesController.js:23-25 | same length; every character is `\w`, `.` or `-`, and safe characters are kept |
| NotesController.SanitizeNameIdempotent | Backend/controllers/notesController.js:23-25 | sanitising a file name again changes nothing |
| NotesController.Basename | Backend/controllers/notesController.js:24 | the base name holds no slash |
| NotesController.StoredFileNameSafe | Backend/controllers/notesController.js:23-25 | a stored file name holds only safe characters, so no slash |
| NotesController.TimestampRecoverable | Backend/controllers/notesController.js:23 | the upload time reads back from the stored name's leading digits |
| NotesController.ObjectPathShape | Backend/controllers/notesController.js:28-29 | the object path starts with `notes/` and its last segment is the stored file name, whatever the original name holds |
| NotesController.CreateNote | Backend/controllers/notesController.js:11-29 | the three 400 checks in order; a store exactly when all pass, at the derived path, with the unsanitised subject in the note |
| NotesController.GetContent | Backend/controllers/notesController.js:90-111 | 400 without a type or with an unknown one; otherwise the named collection, filtered by subject unless it is empty or "All" |
| RefreshHandler.Decide | Frontend/src/Components/RefereshHandler.jsx:10-54 | no token: unauthenticated, sent home only from a protected route; undecodable or userless: unauthenticated and sent home; a user: authenticated, with the role's redirect table |
| RefreshHandler.RedirectSettles | Frontend/src/Components/RefereshHandler.jsx:21-38 | for a user token, following a redirect does not redirect again |
| RefreshHandler.NoTokenSettles | Frontend/src/Components/RefereshHandler.jsx:45-53 | without a token the landing page is a fixed point |
| RefreshHandler.UndecodableNeverSettles | Frontend/src/Components/RefereshHandler.jsx:40-44 | an undecodable cookie redirects even the landing page to itself |
| RefreshHandler.ExpiredSessionStillAuthenticated | Frontend/src/Components/RefereshHandler.jsx:13-18 | a token the server refuses as expired still counts as authenticated on the client |
| OtpVerification.FormatTime | Frontend/src/Components/Login/OtpVerification.jsx:48-52 | minutes, a colon, and exactly two digits of seconds; the parts read back as the minutes and the seconds; minutes of two digits or more have no leading zero |
| OtpVerification.FormatTimeInjective | Frontend/src/Components/Login/OtpVerification.jsx:48-52 | different times always display differently |
| OtpVerification.CountsDown | Frontend/src/Components/Login/OtpVerification.jsx:38-46 | after k ticks of an n-second lockout (k ≤ n), n − k seconds are left and the button stays hidden |
| OtpVerification.ResendReturnsAfterLockout | Frontend/src/Components/Login/OtpVerification.jsx:38-46 | the resend button comes back exactly after n + 1 ticks |
| OtpVerification.TargetsFor | Frontend/src/Components/Login/OtpVerification.jsx:57-137 | a teacher page reads `teacherVerifyToken`, posts to the teachers' resend and verify endpoints and goes on to the teacher dashboard; any other page uses the students' cookie, endpoints and dashboard |
| OtpVerification.RoutesPickTheirRole | Frontend/src/Components/Login/OtpVerification.jsx:19 | the two OTP routes each pick their own cookie, endpoints and dashboard |
| OtpVerification.Countdown.constructor | Frontend/src/Components/Login/OtpVerification.jsx:35-36 | the countdown starts at 300 seconds with the button available |
| OtpVerification.Countdown.Tick | Frontend/src/Components/Login/OtpVerification.jsx:38-46 | one tick updates the state as `Ticked` says and keeps the time left non-negative |
| OtpVerification.Countdown.ResendSucceeded | Frontend/src/Components/Login/OtpVerification.jsx:85-86 | an accepted resend hides the button for 120 seconds |
| OtpVerification.Countdown.ResendFailed | Frontend/src/Components/Login/OtpVerification.jsx:90-97 | only the "already sent" refusal starts a 60-second lockout; other errors leave the timer alone |

## Left out

- E-mail transport (`sendEmail`) is reduced to an outbox of `Mail` values; delivery failures and the 500 paths they cause are not modelled.
- bcrypt, SHA-256 and JWT internals are symbolic; salts, the secret, and the collision-freedom of the digests are idealised.
- `Math.random()` and `crypto.randomBytes` are parameters (`draw`, `bytes`); `Date.now()` is the parameter `now`.
- The login handlers call `generateOtp()` twice and store the code of one call with the expiry of the other; the two calls are taken to happen at the same instant.
- Every `catch` that answers 500 for a store or library exception other than those named in the contracts is left out; handlers are taken to run one at a time, with no concurrent writes.
- The express-validator rules of the routes (`isEmail`, password length, required fields) are preconditions of the handlers; their 400 error path is not modelled, and `isEmail` is reduced to a non-empty e-mail.
- `toLowerCase`, `toUpperCase` and `\s` are modelled on ASCII letters and the JavaScript whitespace set; other Unicode case mappings are left out.
- A student `verifyOtp` token without an e-mail claim is treated as finding no student; Mongoose's handling of an `undefined` filter value is not modelled.
- Mongoose's `required` validator is taken to accept the empty `subjects` array a teacher registration stores.
- Firebase storage, the upload stream callbacks, the signed URLs, and the note's `time` field are left out; `createNote` ends at the object path and the note record.
- `getContent` with `type` or `subject` given as an array is left out; both are strings here.
- The teacher route whose handler is missing from the controller is left out.
- `jwtDecode` on the client is an input (`CookieToken`); `RefreshHandler.ClientDecode` approximates it for server-signed tokens.
- The page's rendering, loading flags, notifications, and `handleResendOtp` with a missing cookie (no request, no timer change) are left out.
- The `jwt.sign` callback error in the login handlers is left out.

## Findings

| source | as written | input that shows it | evidently intended | confidence | as-written member | corrected member |
|---|---|---|---|---|---|---|
| Backend/controllers/teacherController.js:42 | `password: hashPassword` stores the function itself (its source text), not the awaited digest `hashedPassword` computed on line 38 | register a teacher with password "secret1", then log in with "secret1": the comparison against the stored function text fails, so every login of that teacher is refused as a wrong password | store `hashedPassword`, so that the registered password, and only it, passes the login check | high, not executed | TeacherController.AsWrittenRegistrationLocksOut | TeacherController.RegistrationEnablesLogin |
