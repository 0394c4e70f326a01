/** The helpers both controllers share (Backend/utils/authUtils.js): OTP and
    reset-token generation, the two cross-collection existence checks, and
    the roster check of a claimed enrollment number and name. Hashing and
    token signing are in module Crypto; sending mail is an outbox in module
    Store. */
module AuthUtils {
  import opened Wrappers
  import opened Text
  import opened Crypto
  import opened Models

  // ---------------------------------------------------------------------
  // generateOtp
  // ---------------------------------------------------------------------

  /** How long an OTP stays live: 60 seconds. */
  const OtpWindowMs: nat := 60 * 1000

  datatype Otp = Otp(code: string, expiration: nat)

  /** `generateOtp()` at time `now`. `draw` stands for
      `Math.floor(Math.random() * 900000)`, an integer in [0, 900000). The
      code is the decimal rendering of `100000 + draw`: six digits whose
      value lies in [100000, 999999]. */
  function GenerateOtp(draw: nat, now: nat): (o: Otp)
    requires draw < 900000
    ensures |o.code| == 6 && AllDigits(o.code)
    ensures DecimalValue(o.code) == 100000 + draw
    ensures 100000 <= DecimalValue(o.code) <= 999999
    ensures o.expiration == now + OtpWindowMs
  {
    assert Pow10(5) == 100000 && Pow10(6) == 1000000;
    DecimalLength(100000 + draw, 5);
    Otp(NatToDecimal(100000 + draw), now + OtpWindowMs)
  }

  /** Different draws give different codes. */
  lemma {:induction false} OtpCodesDistinct(d1: nat, d2: nat, now1: nat, now2: nat)
    requires d1 < 900000 && d2 < 900000 && d1 != d2
    ensures GenerateOtp(d1, now1).code != GenerateOtp(d2, now2).code
  {
  }

  // ---------------------------------------------------------------------
  // generateResetToken
  // ---------------------------------------------------------------------

  type Byte = b: int | 0 <= b < 256

  predicate IsHexDigit(c: char)
  {
    ('0' <= c <= '9') || ('a' <= c <= 'f')
  }

  function HexDigit(d: nat): (c: char)
    requires d < 16
    ensures IsHexDigit(c)
  {
    if d < 10 then ('0' as int + d) as char else ('a' as int + d - 10) as char
  }

  function HexValue(c: char): (d: nat)
    requires IsHexDigit(c)
    ensures d < 16
  {
    if '0' <= c <= '9' then c as int - '0' as int else c as int - 'a' as int + 10
  }

  /** `buffer.toString("hex")`: two lower-case hex digits per byte, high
      nibble first. */
  function ToHex(bytes: seq<Byte>): (r: string)
    ensures |r| == 2 * |bytes|
    ensures forall i :: 0 <= i < |r| ==> IsHexDigit(r[i])
  {
    if bytes == [] then []
    else [HexDigit(bytes[0] / 16), HexDigit(bytes[0] % 16)] + ToHex(bytes[1..])
  }

  /** Reading a hex string back into bytes. */
  function FromHex(s: string): seq<Byte>
    requires |s| % 2 == 0
    requires forall i :: 0 <= i < |s| ==> IsHexDigit(s[i])
  {
    if s == [] then []
    else [16 * HexValue(s[0]) + HexValue(s[1])] + FromHex(s[2..])
  }

  /** Hex encoding loses nothing: it reads back to the same bytes. */
  lemma {:induction false} HexRoundTrip(bytes: seq<Byte>)
    ensures FromHex(ToHex(bytes)) == bytes
  {
    if bytes != [] {
      var h := ToHex(bytes);
      assert h[2..] == ToHex(bytes[1..]);
      HexRoundTrip(bytes[1..]);
    }
  }

  datatype ResetToken = ResetToken(resetToken: string, hashedToken: Digest)

  /** `generateResetToken()`. `bytes` stands for `crypto.randomBytes(20)`.
      The plaintext is their 40-digit hex rendering; the value to store is
      its SHA-256 digest, which re-hashing the plaintext reproduces. */
  function GenerateResetToken(bytes: seq<Byte>): (r: ResetToken)
    requires |bytes| == 20
    ensures |r.resetToken| == 40
    ensures forall i :: 0 <= i < |r.resetToken| ==> IsHexDigit(r.resetToken[i])
    ensures Sha256Hex(r.resetToken) == r.hashedToken
    ensures r.hashedToken != Sha256Hex("")
  {
    var token := ToHex(bytes);
    ResetToken(token, Sha256Hex(token))
  }

  /** Different random draws give different plaintexts and different
      stored digests, so a digest identifies the draw it came from. */
  lemma {:induction false} ResetTokensDistinct(b1: seq<Byte>, b2: seq<Byte>)
    requires |b1| == 20 && |b2| == 20 && b1 != b2
    ensures GenerateResetToken(b1).resetToken != GenerateResetToken(b2).resetToken
    ensures GenerateResetToken(b1).hashedToken != GenerateResetToken(b2).hashedToken
  {
    HexRoundTrip(b1);
    HexRoundTrip(b2);
  }

  // ---------------------------------------------------------------------
  // checkEmailExists / checkIdExists
  // ---------------------------------------------------------------------

  /** The `{exists, role}` object both checks return. */
  datatype Existence = Existence(found: bool, role: Option<Role>)

  /** `Teacher.findOne({email})` finds a document. */
  predicate TeacherHasEmail(teachers: map<string, Teacher>, email: string)
  {
    exists k :: k in teachers && teachers[k].email == email
  }

  /** `Student.findOne({email})` finds a document. */
  predicate StudentHasEmail(students: map<string, Student>, email: string)
  {
    exists k :: k in students && students[k].email == email
  }

  /** `Teacher.findOne({"teacherDetails.teacherId": id})` finds a document. */
  predicate TeacherHasId(teachers: map<string, Teacher>, id: string)
  {
    exists k :: k in teachers && teachers[k].teacherId == id
  }

  /** `Student.findOne({"studentDetails.studentId": id})` finds a document. */
  predicate StudentHasId(students: map<string, Student>, id: string)
  {
    exists k :: k in students && students[k].studentId == id
  }

  /** `checkEmailExists(email)`: looks in both collections; a teacher
      holding the email wins over a student holding it. */
  function CheckEmailExists(students: map<string, Student>, teachers: map<string, Teacher>,
                            email: string): (r: Existence)
    ensures r.found <==> TeacherHasEmail(teachers, email) || StudentHasEmail(students, email)
    ensures r.role == Some(TeacherRole) <==> TeacherHasEmail(teachers, email)
    ensures r.role == Some(StudentRole) <==> StudentHasEmail(students, email) && !TeacherHasEmail(teachers, email)
    ensures r.role.Some? <==> r.found
  {
    var teacher := TeacherHasEmail(teachers, email);
    var student := StudentHasEmail(students, email);
    if teacher then Existence(true, Some(TeacherRole))
    else if student then Existence(true, Some(StudentRole))
    else Existence(false, None)
  }

  /** `checkIdExists(id)`: the same precedence over `teacherId` and
      `studentId`. */
  function CheckIdExists(students: map<string, Student>, teachers: map<string, Teacher>,
                         id: string): (r: Existence)
    ensures r.found <==> TeacherHasId(teachers, id) || StudentHasId(students, id)
    ensures r.role == Some(TeacherRole) <==> TeacherHasId(teachers, id)
    ensures r.role == Some(StudentRole) <==> StudentHasId(students, id) && !TeacherHasId(teachers, id)
    ensures r.role.Some? <==> r.found
  {
    var teacher := TeacherHasId(teachers, id);
    var student := StudentHasId(students, id);
    if teacher then Existence(true, Some(TeacherRole))
    else if student then Existence(true, Some(StudentRole))
    else Existence(false, None)
  }

  // ---------------------------------------------------------------------
  // isEnrollNumExists
  // ---------------------------------------------------------------------

  /** One entry of the institution's roster (StudentData.json); either
      field of an entry may be missing. */
  datatype RosterEntry = RosterEntry(enrollment: string, name: Option<string>)

  /** The `{exists, message}` object `isEnrollNumExists` returns. */
  datatype EnrollCheck = EnrollCheck(found: bool, message: string)

  const NameMatchMsg := "Enrollment number and name match."
  const NameMismatchMsg := "The enrollment number exists, but the name does not match."
  const EnrollmentMissingMsg := "Enrollment number does not exist."

  /** A name as the check compares it: lower-cased, trimmed, split on
      whitespace runs; a missing name counts as the empty string. */
  function NameComponents(name: Option<string>): seq<string>
  {
    Split(Trim(ToLower(name.GetOr(""))))
  }

  /** Every element of `xs` occurs in `ys`. */
  predicate AllIn(xs: seq<string>, ys: seq<string>)
  {
    forall i :: 0 <= i < |xs| ==> xs[i] in ys
  }

  /** `inputNameComponents.every(c => storedNameComponents.includes(c))`. */
  predicate NameMatches(claimed: Option<string>, stored: Option<string>)
  {
    AllIn(NameComponents(claimed), NameComponents(stored))
  }

  /** `studentsData.find(s => s.enrollment === enrollmentNum)`, from index
      `from` on: the first entry with that enrollment. */
  function FindEnrollment(roster: seq<RosterEntry>, enrollment: string, from: nat): (r: Option<nat>)
    ensures r.Some? ==> from <= r.value < |roster| && roster[r.value].enrollment == enrollment
    ensures r.Some? ==> forall j :: from <= j < r.value ==> roster[j].enrollment != enrollment
    ensures r.None? ==> forall j :: from <= j < |roster| ==> roster[j].enrollment != enrollment
    decreases |roster| - from
  {
    if from >= |roster| then None
    else if roster[from].enrollment == enrollment then Some(from)
    else FindEnrollment(roster, enrollment, from + 1)
  }

  /** What the check reports for the roster entry holding the enrollment. */
  function EntryVerdict(name: Option<string>, entry: RosterEntry): EnrollCheck
  {
    EnrollCheck(true, if NameMatches(name, entry.name) then NameMatchMsg else NameMismatchMsg)
  }

  /** `i` is the first roster entry holding `enrollment`. */
  predicate FirstWith(roster: seq<RosterEntry>, enrollment: string, i: int)
  {
    && 0 <= i < |roster| && roster[i].enrollment == enrollment
    && forall j :: 0 <= j < i ==> roster[j].enrollment != enrollment
  }

  /** `isEnrollNumExists(enrollmentNum, studentsData, studentName)`. The
      enrollment is unknown exactly when no roster entry has it. */
  function IsEnrollNumExists(enrollment: string, roster: seq<RosterEntry>, name: Option<string>): (r: EnrollCheck)
    ensures !r.found <==> forall i :: 0 <= i < |roster| ==> roster[i].enrollment != enrollment
    ensures !r.found ==> r.message == EnrollmentMissingMsg
  {
    match FindEnrollment(roster, enrollment, 0)
    case None => EnrollCheck(false, EnrollmentMissingMsg)
    case Some(k) => EntryVerdict(name, roster[k])
  }

  /** When the enrollment is on the roster, the first entry holding it
      decides, and a name mismatch still reports the enrollment as
      existing. */
  lemma {:induction false} EnrollCheckUsesFirstEntry(enrollment: string, roster: seq<RosterEntry>, name: Option<string>, i: int)
    requires FirstWith(roster, enrollment, i)
    ensures IsEnrollNumExists(enrollment, roster, name) == EntryVerdict(name, roster[i])
    ensures IsEnrollNumExists(enrollment, roster, name).found
  {
    var k := FindEnrollment(roster, enrollment, 0);
    assert k.Some?;
    assert k.value == i;
  }

  /** The words of a name as the check sees them, after lower-casing. */
  function LowerWords(name: Option<string>): seq<string>
  {
    Words(ToLower(name.GetOr("")))
  }

  /** What `split(/\s+/)` of a trimmed string gives for a list of words. */
  function Pieces(words: seq<string>): seq<string>
  {
    if words == [] then [""] else words
  }

  lemma {:induction false} ComponentsAreWords(name: Option<string>)
    ensures NameComponents(name) == Pieces(LowerWords(name))
  {
    SplitTrimIsWords(ToLower(name.GetOr("")));
  }

  /** Every claimed word is a roster word; no claimed word at all matches
      only a roster name with no words either. */
  predicate WordsIncluded(cw: seq<string>, sw: seq<string>)
  {
    if cw == [] then sw == [] else forall w :: w in cw ==> w in sw
  }

  /** The inclusion test on pieces, in terms of the words they came from. */
  lemma {:induction false} PiecesIncluded(cw: seq<string>, sw: seq<string>)
    requires forall i :: 0 <= i < |cw| ==> cw[i] != ""
    requires forall i :: 0 <= i < |sw| ==> sw[i] != ""
    ensures AllIn(Pieces(cw), Pieces(sw)) <==> WordsIncluded(cw, sw)
  {
    if cw == [] {
      if sw != [] {
        assert "" !in sw;
        assert Pieces(cw)[0] !in Pieces(sw);
      }
    } else if sw == [] {
      assert cw[0] !in Pieces(sw);
    }
  }
}

/** Properties of the roster name check of module AuthUtils, stated in
    terms of the words of the two names. */
module NameCheck {
  import opened Wrappers
  import opened AuthUtils

  /** Equal arguments give equal answers. Stated as a lemma so that the
      proofs below can use it without unfolding `AllIn`. */
  lemma AllInCongruent(x1: seq<string>, x2: seq<string>, y1: seq<string>, y2: seq<string>)
    requires x1 == x2 && y1 == y2
    ensures AllIn(x1, y1) == AllIn(x2, y2)
  {
  }

  /** The same for `WordsIncluded`. */
  lemma WordsIncludedCongruent(x1: seq<string>, x2: seq<string>, y1: seq<string>, y2: seq<string>)
    requires x1 == x2 && y1 == y2
    ensures WordsIncluded(x1, y1) == WordsIncluded(x2, y2)
  {
  }

  lemma {:induction false} NameMatchesOnPieces(claimed: Option<string>, stored: Option<string>)
    ensures NameMatches(claimed, stored) <==> AllIn(Pieces(LowerWords(claimed)), Pieces(LowerWords(stored)))
  {
    ComponentsAreWords(claimed);
    ComponentsAreWords(stored);
    AllInCongruent(NameComponents(claimed), Pieces(LowerWords(claimed)),
                   NameComponents(stored), Pieces(LowerWords(stored)));
  }

  lemma {:induction false} LowerPiecesIncluded(claimed: Option<string>, stored: Option<string>)
    ensures AllIn(Pieces(LowerWords(claimed)), Pieces(LowerWords(stored))) <==> WordsIncluded(LowerWords(claimed), LowerWords(stored))
  {
    PiecesIncluded(LowerWords(claimed), LowerWords(stored));
  }

  /** The name check in terms of words: every word of the claimed name must
      be a word of the roster name. A claimed name with no words at all
      matches only a roster name with no words. */
  lemma {:induction false} NameMatchCharacterised(claimed: Option<string>, stored: Option<string>)
    ensures NameMatches(claimed, stored) <==> WordsIncluded(LowerWords(claimed), LowerWords(stored))
  {
    NameMatchesOnPieces(claimed, stored);
    LowerPiecesIncluded(claimed, stored);
  }

  /** The check is one-way: a claimed word the roster name lacks makes the
      names mismatch, whatever else matches. */
  lemma {:induction false} ExtraClaimedWordRejected(claimed: Option<string>, stored: Option<string>, w: string)
    requires w in LowerWords(claimed) && w !in LowerWords(stored)
    ensures !NameMatches(claimed, stored)
  {
    NameMatchCharacterised(claimed, stored);
  }

  /** ...while leaving out roster words (a middle name, say) still matches,
      as long as the claimed name has at least one word. */
  lemma {:induction false} OmittedRosterWordAccepted(claimed: Option<string>, stored: Option<string>)
    requires LowerWords(claimed) != []
    requires forall w :: w in LowerWords(claimed) ==> w in LowerWords(stored)
    ensures NameMatches(claimed, stored)
  {
    NameMatchCharacterised(claimed, stored);
  }

  /** Letter case and leading, trailing or repeated whitespace do not
      matter: two spellings with the same lower-cased words are judged
      alike, on either side. */
  lemma {:induction false} NameMatchIgnoresCaseAndSpacing(a1: Option<string>, a2: Option<string>,
                                       b1: Option<string>, b2: Option<string>)
    requires LowerWords(a1) == LowerWords(a2) && LowerWords(b1) == LowerWords(b2)
    ensures NameMatches(a1, b1) == NameMatches(a2, b2)
  {
    NameMatchCharacterised(a1, b1);
    NameMatchCharacterised(a2, b2);
    WordsIncludedCongruent(LowerWords(a1), LowerWords(a2), LowerWords(b1), LowerWords(b2));
  }
}
