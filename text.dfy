/** The few pieces of JavaScript's string semantics the modelled code relies
    on: the `\s` character class, `trim`, `split(/\s+/)`, ASCII case mapping,
    `startsWith`, `includes`, and the decimal rendering of a non-negative
    integer (`Number.prototype.toString`). */
module Text {

  /** Membership in JavaScript's `\s` class, which is also the set of
      characters `String.prototype.trim` removes (WhiteSpace and
      LineTerminator of ECMA-262). */
  predicate IsSpace(c: char)
  {
    || c == ' ' || c == '\t' || c == '\n' || c == '\U{B}' || c == '\U{C}' || c == '\r'
    || c == '\U{A0}' || c == '\U{1680}' || ('\U{2000}' <= c <= '\U{200A}')
    || c == '\U{2028}' || c == '\U{2029}' || c == '\U{202F}' || c == '\U{205F}'
    || c == '\U{3000}' || c == '\U{FEFF}'
  }

  predicate NoSpace(s: string)
  {
    forall i :: 0 <= i < |s| ==> !IsSpace(s[i])
  }

  predicate AllSpace(s: string)
  {
    forall i :: 0 <= i < |s| ==> IsSpace(s[i])
  }

  // ---------------------------------------------------------------------
  // Case mapping (ASCII letters only)
  // ---------------------------------------------------------------------

  function LowerChar(c: char): (r: char)
    ensures IsSpace(r) <==> IsSpace(c)
  {
    if 'A' <= c <= 'Z' then (c as int + 32) as char else c
  }

  function UpperChar(c: char): (r: char)
    ensures IsSpace(r) <==> IsSpace(c)
  {
    if 'a' <= c <= 'z' then (c as int - 32) as char else c
  }

  /** `s.toLowerCase()` restricted to ASCII letters. */
  function ToLower(s: string): (r: string)
    ensures |r| == |s|
    ensures forall i :: 0 <= i < |s| ==> r[i] == LowerChar(s[i])
  {
    if s == [] then [] else [LowerChar(s[0])] + ToLower(s[1..])
  }

  /** `s.toUpperCase()` restricted to ASCII letters. */
  function ToUpper(s: string): (r: string)
    ensures |r| == |s|
    ensures forall i :: 0 <= i < |s| ==> r[i] == UpperChar(s[i])
  {
    if s == [] then [] else [UpperChar(s[0])] + ToUpper(s[1..])
  }

  // ---------------------------------------------------------------------
  // Whitespace: trim and split(/\s+/)
  // ---------------------------------------------------------------------

  /** The longest prefix of `s` that holds no whitespace. */
  function TakeWord(s: string): (w: string)
    ensures |w| <= |s| && w == s[..|w|]
    ensures NoSpace(w)
    ensures |w| < |s| ==> IsSpace(s[|w|])
  {
    if s == [] || IsSpace(s[0]) then [] else [s[0]] + TakeWord(s[1..])
  }

  /** `s` without its leading whitespace (`trimStart`). */
  function DropSpaces(s: string): (r: string)
    ensures |r| <= |s| && r == s[|s| - |r|..]
    ensures r != [] ==> !IsSpace(r[0])
    ensures AllSpace(s[..|s| - |r|])
    ensures s != [] && IsSpace(s[0]) ==> |r| < |s|
  {
    if s != [] && IsSpace(s[0]) then DropSpaces(s[1..]) else s
  }

  /** `s` without its trailing whitespace (`trimEnd`). */
  function TrimEnd(s: string): (r: string)
    ensures |r| <= |s| && r == s[..|r|]
    ensures r != [] ==> !IsSpace(r[|r| - 1])
    ensures AllSpace(s[|r|..])
  {
    if s != [] && IsSpace(s[|s| - 1]) then TrimEnd(s[..|s| - 1]) else s
  }

  /** `s.trim()`. */
  function Trim(s: string): string
  {
    TrimEnd(DropSpaces(s))
  }

  /** `s.split(/\s+/)`: the pieces between maximal whitespace runs, keeping
      the empty piece before a leading run and after a trailing one. */
  function Split(s: string): (r: seq<string>)
    ensures |r| >= 1
    decreases |s|
  {
    var w := TakeWord(s);
    var rest := s[|w|..];
    if rest == [] then [w] else [w] + Split(DropSpaces(rest))
  }

  /** The words of `s`: its maximal non-empty runs of non-whitespace, in
      order. An independent reading of "the whitespace-separated parts". */
  function Words(s: string): (r: seq<string>)
    ensures forall i :: 0 <= i < |r| ==> r[i] != [] && NoSpace(r[i])
    decreases |s|
  {
    var t := DropSpaces(s);
    if t == [] then []
    else
      var w := TakeWord(t);
      assert w != [] by { assert !IsSpace(t[0]); }
      var rest := Words(t[|w|..]);
      [w] + rest
  }

  /** `parts.join(sep)`. */
  function Join(parts: seq<string>, sep: char): string
  {
    if |parts| == 0 then []
    else if |parts| == 1 then parts[0]
    else parts[0] + [sep] + Join(parts[1..], sep)
  }

  lemma DropSpacesOfAllSpace(s: string)
    requires AllSpace(s)
    ensures DropSpaces(s) == []
  {
  }

  lemma {:induction false} DropSpacesAppend(s: string, x: string)
    requires DropSpaces(s) != []
    ensures DropSpaces(s + x) == DropSpaces(s) + x
    decreases |s|
  {
    if IsSpace(s[0]) {
      assert (s + x)[1..] == s[1..] + x;
      DropSpacesAppend(s[1..], x);
    }
  }

  lemma {:induction false} TakeWordAppendSpace(t: string, sp: string)
    requires AllSpace(sp)
    ensures TakeWord(t + sp) == TakeWord(t)
    decreases |t|
  {
    if t == [] {
      assert t + sp == sp;
    } else if !IsSpace(t[0]) {
      assert (t + sp)[1..] == t[1..] + sp;
      TakeWordAppendSpace(t[1..], sp);
    }
  }

  /** One step of `Words` on a string that still holds a word. */
  lemma WordsStep(s: string)
    requires DropSpaces(s) != []
    ensures Words(s) == [TakeWord(DropSpaces(s))] + Words(DropSpaces(s)[|TakeWord(DropSpaces(s))|..])
  {
  }

  lemma AllSpaceAppend(s: string, sp: string)
    requires AllSpace(s) && AllSpace(sp)
    ensures AllSpace(s + sp)
  {
    forall i | 0 <= i < |s + sp| ensures IsSpace((s + sp)[i]) {
      if i < |s| { assert (s + sp)[i] == s[i]; } else { assert (s + sp)[i] == sp[i - |s|]; }
    }
  }

  /** A string with no word keeps none when whitespace is appended. */
  lemma NoWordsAppendSpace(s: string, sp: string)
    requires AllSpace(sp) && DropSpaces(s) == []
    ensures Words(s + sp) == [] && Words(s) == []
  {
    assert s == s[..|s| - |DropSpaces(s)|];
    AllSpaceAppend(s, sp);
    DropSpacesOfAllSpace(s + sp);
  }

  lemma SliceAppend(t: string, sp: string, k: nat)
    requires k <= |t|
    ensures (t + sp)[k..] == t[k..] + sp
  {
  }

  /** Trailing whitespace adds no word. */
  lemma {:induction false} WordsAppendSpace(s: string, sp: string)
    requires AllSpace(sp)
    ensures Words(s + sp) == Words(s)
    decreases |s|
  {
    var t := DropSpaces(s);
    if t == [] {
      NoWordsAppendSpace(s, sp);
    } else {
      DropSpacesAppend(s, sp);
      var w := TakeWord(t);
      TakeWordAppendSpace(t, sp);
      var rest := t[|w|..];
      SliceAppend(t, sp, |w|);
      WordsAppendSpace(rest, sp);
      WordsStep(s + sp);
      WordsStep(s);
    }
  }

  /** Leading and trailing whitespace add no word. */
  lemma WordsOfTrim(s: string)
    ensures Words(Trim(s)) == Words(s)
  {
    var d := DropSpaces(s);
    var t := TrimEnd(d);
    assert d == t + d[|t|..];
    WordsAppendSpace(t, d[|t|..]);
    assert DropSpaces(d) == d by {
      if d != [] { assert !IsSpace(d[0]); }
    }
  }

  /** On a string with no leading or trailing whitespace, `split(/\s+/)`
      yields exactly its words (or the single empty piece). */
  lemma {:induction false} SplitOfTrimmed(t: string)
    requires t == [] || (!IsSpace(t[0]) && !IsSpace(t[|t| - 1]))
    ensures Split(t) == if t == [] then [""] else Words(t)
    decreases |t|
  {
    if t != [] {
      var w := TakeWord(t);
      var rest := t[|w|..];
      assert DropSpaces(t) == t;
      if rest != [] {
        var u := DropSpaces(rest);
        assert u != [];
        assert u[|u| - 1] == t[|t| - 1];
        SplitOfTrimmed(u);
        assert DropSpaces(u) == u;
      }
    }
  }

  /** `s.trim().split(/\s+/)` is the list of words of `s`, or `[""]` when
      `s` holds no word at all. */
  lemma SplitTrimIsWords(s: string)
    ensures Split(Trim(s)) == if Words(s) == [] then [""] else Words(s)
  {
    var d := DropSpaces(s);
    var t := TrimEnd(d);
    assert t == [] || !IsSpace(t[0]) by {
      if t != [] { assert t[0] == d[0]; }
    }
    SplitOfTrimmed(t);
    WordsOfTrim(s);
    if t != [] {
      assert Words(t) != [] by {
        assert DropSpaces(t) == t;
      }
    }
  }

  /** Lower-casing twice is lower-casing once. */
  lemma ToLowerIdempotent(s: string)
    ensures ToLower(ToLower(s)) == ToLower(s)
  {
  }

  // ---------------------------------------------------------------------
  // Prefix and substring tests
  // ---------------------------------------------------------------------

  /** `s.startsWith(p)`. */
  predicate StartsWith(s: string, p: string)
  {
    |p| <= |s| && s[..|p|] == p
  }

  predicate OccursAt(s: string, t: string, i: int)
  {
    0 <= i && i + |t| <= |s| && s[i..i + |t|] == t
  }

  /** `s.includes(t)`. */
  predicate Contains(s: string, t: string)
  {
    exists i :: 0 <= i <= |s| && OccursAt(s, t, i)
  }

  // ---------------------------------------------------------------------
  // Decimal rendering of non-negative integers
  // ---------------------------------------------------------------------

  predicate IsDigit(c: char)
  {
    '0' <= c <= '9'
  }

  predicate AllDigits(s: string)
  {
    forall i :: 0 <= i < |s| ==> IsDigit(s[i])
  }

  function DigitChar(d: nat): (c: char)
    requires d < 10
    ensures IsDigit(c)
  {
    ('0' as int + d) as char
  }

  /** The value of a string of decimal digits, most significant first. */
  function DecimalValue(s: string): nat
    requires AllDigits(s)
  {
    if s == [] then 0
    else 10 * DecimalValue(s[..|s| - 1]) + (s[|s| - 1] as int - '0' as int)
  }

  /** `n.toString()` for a non-negative integer `n`: its shortest decimal
      numeral, which reads back as `n`. */
  function NatToDecimal(n: nat): (r: string)
    ensures |r| >= 1 && AllDigits(r)
    ensures DecimalValue(r) == n
    ensures |r| > 1 ==> r[0] != '0'
  {
    if n < 10 then [DigitChar(n)]
    else
      var prefix := NatToDecimal(n / 10);
      var r := prefix + [DigitChar(n % 10)];
      assert r[..|r| - 1] == prefix;
      r
  }

  function Pow10(k: nat): (p: nat)
    ensures p >= 1
  {
    if k == 0 then 1 else 10 * Pow10(k - 1)
  }

  /** A number with `k + 1` decimal digits renders as `k + 1` characters. */
  lemma {:induction false} DecimalLength(n: nat, k: nat)
    requires Pow10(k) <= n < Pow10(k + 1)
    ensures |NatToDecimal(n)| == k + 1
  {
    if k > 0 {
      DecimalLength(n / 10, k - 1);
    }
  }
}
