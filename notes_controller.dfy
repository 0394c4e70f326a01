/** The checks and names of the upload and listing handlers
    (Backend/controllers/notesController.js): the order in which `createNote`
    refuses a request, the storage path it derives from the subject and the
    file's name, and the query `getContent` selects. */
module NotesController {
  import opened Wrappers
  import opened Text

  const NoFileMsg := "No file uploaded"
  const NoUploaderMsg := "uploadedBy field is required"
  const NoSubjectMsg := "Subject field is required"
  const NoTypeError := "Type is required"
  const BadTypeError := "Invalid content type"

  // ---------------------------------------------------------------------
  // Subject: replace(/\s+/g, "_").toUpperCase()
  // ---------------------------------------------------------------------

  /** `s.replace(/\s+/g, "_")`: every maximal run of whitespace becomes a
      single underscore. */
  function CollapseSpaces(s: string): (r: string)
    ensures NoSpace(r) && |r| <= |s|
    decreases |s|
  {
    if s == [] then []
    else if IsSpace(s[0]) then "_" + CollapseSpaces(DropSpaces(s))
    else [s[0]] + CollapseSpaces(s[1..])
  }

  /** The folder name of a subject. */
  function SanitizeSubject(subject: string): (r: string)
    ensures NoSpace(r) && |r| <= |subject|
    ensures forall i :: 0 <= i < |r| ==> !('a' <= r[i] <= 'z')
  {
    ToUpper(CollapseSpaces(subject))
  }

  /** Sanitising a folder name again changes nothing. */
  lemma {:induction false} SanitizeSubjectIdempotent(subject: string)
    ensures SanitizeSubject(SanitizeSubject(subject)) == SanitizeSubject(subject)
  {
    var once := SanitizeSubject(subject);
    CollapseKeepsWord(once, []);
    assert once + [] == once;
    assert ToUpper(once) == once;
  }

  /** Dropping a run of whitespace stops at the first word character. */
  lemma {:induction false} DropSpacesOfRun(sp: string, b: string)
    requires AllSpace(sp) && (b == [] || !IsSpace(b[0]))
    ensures DropSpaces(sp + b) == b
    decreases |sp|
  {
    if sp == [] {
      assert sp + b == b;
    } else {
      assert (sp + b)[0] == sp[0];
      assert (sp + b)[1..] == sp[1..] + b;
      DropSpacesOfRun(sp[1..], b);
    }
  }

  /** Text without whitespace passes through unchanged ahead of the rest. */
  lemma {:induction false} CollapseKeepsWord(w: string, rest: string)
    requires NoSpace(w)
    ensures CollapseSpaces(w + rest) == w + CollapseSpaces(rest)
    decreases |w|
  {
    var x := w + rest;
    if w == [] {
      assert x == rest;
    } else {
      assert x[0] == w[0] && !IsSpace(x[0]);
      assert x[1..] == w[1..] + rest;
      CollapseKeepsWord(w[1..], rest);
      var c := CollapseSpaces(rest);
      calc {
        CollapseSpaces(x);
        [w[0]] + CollapseSpaces(w[1..] + rest);
        [w[0]] + (w[1..] + c);
        { assert w == [w[0]] + w[1..]; }
        w + c;
      }
    }
  }

  /** A word followed by a whitespace run and more text collapses to the
      word, one underscore, and the rest collapsed. */
  lemma {:induction false} CollapseAroundRun(w: string, sp: string, b: string)
    requires NoSpace(w) && AllSpace(sp) && sp != [] && (b == [] || !IsSpace(b[0]))
    ensures CollapseSpaces(w + (sp + b)) == w + ("_" + CollapseSpaces(b))
  {
    RunCollapses(sp, b);
    CollapseKeepsWord(w, sp + b);
  }

  /** Two subjects that differ only in the length of one whitespace run
      (between a word `w` and the text `b` after it) share a folder. */
  lemma {:induction false} SpacingIgnored(w: string, sp1: string, sp2: string, b: string)
    requires NoSpace(w) && AllSpace(sp1) && AllSpace(sp2) && sp1 != [] && sp2 != []
    requires b == [] || !IsSpace(b[0])
    ensures SanitizeSubject(w + (sp1 + b)) == SanitizeSubject(w + (sp2 + b))
  {
    CollapseAroundRun(w, sp1, b);
    CollapseAroundRun(w, sp2, b);
  }

  /** A whitespace run, whatever its length, becomes one underscore. */
  lemma {:induction false} RunCollapses(sp: string, b: string)
    requires AllSpace(sp) && sp != [] && (b == [] || !IsSpace(b[0]))
    ensures CollapseSpaces(sp + b) == "_" + CollapseSpaces(b)
  {
    assert (sp + b)[0] == sp[0];
    DropSpacesOfRun(sp, b);
  }

  // ---------------------------------------------------------------------
  // File name: `${Date.now()}_${basename(name).replace(/[^\w.-]/g, "_")}`
  // ---------------------------------------------------------------------

  /** The characters kept in a stored file name: `\w`, `.` and `-`. */
  predicate SafeChar(c: char)
  {
    ('A' <= c <= 'Z') || ('a' <= c <= 'z') || ('0' <= c <= '9') || c == '_' || c == '.' || c == '-'
  }

  predicate AllSafe(s: string)
  {
    forall i :: 0 <= i < |s| ==> SafeChar(s[i])
  }

  lemma AllSafeConcat(a: string, b: string)
    requires AllSafe(a) && AllSafe(b)
    ensures AllSafe(a + b)
  {
    forall i | 0 <= i < |a + b| ensures SafeChar((a + b)[i]) {
      if i >= |a| {
        assert (a + b)[i] == b[i - |a|];
      }
    }
  }

  lemma SafeHasNoSlash(s: string)
    requires AllSafe(s)
    ensures '/' !in s
  {
  }

  lemma DigitsAreSafe(d: string)
    requires AllDigits(d)
    ensures AllSafe(d)
  {
    forall i | 0 <= i < |d| ensures SafeChar(d[i]) {
      assert IsDigit(d[i]);
    }
  }

  /** `s.replace(/[^\w.-]/g, "_")`: each unsafe character becomes an
      underscore, one for one. */
  function SanitizeName(s: string): (r: string)
    ensures |r| == |s|
    ensures forall i :: 0 <= i < |s| ==> SafeChar(r[i]) && (SafeChar(s[i]) ==> r[i] == s[i])
  {
    if s == [] then [] else [if SafeChar(s[0]) then s[0] else '_'] + SanitizeName(s[1..])
  }

  /** A name made only of safe characters is kept as it is; so sanitising
      twice is sanitising once. */
  lemma {:induction false} SanitizeNameIdempotent(s: string)
    ensures SanitizeName(SanitizeName(s)) == SanitizeName(s)
  {
    var once := SanitizeName(s);
    assert SanitizeName(once) == once;
  }

  /** `s` without its trailing slashes. */
  function TrimSlashes(s: string): (r: string)
    ensures |r| <= |s|
    ensures r != [] ==> r[|r| - 1] != '/'
  {
    if s != [] && s[|s| - 1] == '/' then TrimSlashes(s[..|s| - 1]) else s
  }

  /** The text after the last slash of `s` (all of `s` when it has none). */
  function LastSegment(s: string): (r: string)
    ensures |r| <= |s| && '/' !in r
  {
    if s == [] || s[|s| - 1] == '/' then [] else LastSegment(s[..|s| - 1]) + [s[|s| - 1]]
  }

  /** `path.basename(p)` with POSIX separators. */
  function Basename(p: string): (r: string)
    ensures '/' !in r
  {
    LastSegment(TrimSlashes(p))
  }

  /** The name a file is stored under: the upload time in milliseconds, an
      underscore, and the sanitised base name. */
  function StoredFileName(timestamp: nat, originalName: string): string
  {
    NatToDecimal(timestamp) + ("_" + SanitizeName(Basename(originalName)))
  }

  /** A stored name holds only safe characters, so no slash: it can never
      name a folder. */
  lemma {:induction false} StoredFileNameSafe(timestamp: nat, originalName: string)
    ensures AllSafe(StoredFileName(timestamp, originalName)) && '/' !in StoredFileName(timestamp, originalName)
  {
    var digits := NatToDecimal(timestamp);
    DigitsAreSafe(digits);
    AllSafeConcat("_", SanitizeName(Basename(originalName)));
    AllSafeConcat(digits, "_" + SanitizeName(Basename(originalName)));
    SafeHasNoSlash(StoredFileName(timestamp, originalName));
  }

  /** The digits before the first underscore of `s`. */
  function LeadingDigits(s: string): (r: string)
    ensures AllDigits(r) && |r| <= |s| && r == s[..|r|]
  {
    if s != [] && IsDigit(s[0]) then [s[0]] + LeadingDigits(s[1..]) else []
  }

  lemma {:induction false} LeadingDigitsStop(d: string, rest: string)
    requires AllDigits(d) && (rest == [] || !IsDigit(rest[0]))
    ensures LeadingDigits(d + rest) == d
    decreases |d|
  {
    if d != [] {
      assert (d + rest)[1..] == d[1..] + rest;
      LeadingDigitsStop(d[1..], rest);
    } else {
      assert d + rest == rest;
    }
  }

  /** The upload time can be read back from a stored name: its leading
      digits spell the timestamp. */
  lemma {:induction false} TimestampRecoverable(timestamp: nat, originalName: string)
    ensures AllDigits(LeadingDigits(StoredFileName(timestamp, originalName)))
    ensures DecimalValue(LeadingDigits(StoredFileName(timestamp, originalName))) == timestamp
  {
    var digits := NatToDecimal(timestamp);
    var rest := "_" + SanitizeName(Basename(originalName));
    assert rest[0] == '_';
    LeadingDigitsStop(digits, rest);
  }

  /** `notes/${sanitizedSubject}/${sanitizedFileName}`. */
  function ObjectPath(subject: string, timestamp: nat, originalName: string): string
  {
    "notes/" + SanitizeSubject(subject) + "/" + StoredFileName(timestamp, originalName)
  }

  /** Whatever the original name holds (slashes, `..`), the object's last
      segment is exactly the stored file name, and the path lies under
      `notes/`. */
  lemma {:induction false} ObjectPathShape(subject: string, timestamp: nat, originalName: string)
    ensures var p := ObjectPath(subject, timestamp, originalName);
      && p[..6] == "notes/"
      && LastSegment(p) == StoredFileName(timestamp, originalName)
  {
    var f := StoredFileName(timestamp, originalName);
    StoredFileNameSafe(timestamp, originalName);
    var head := "notes/" + SanitizeSubject(subject) + "/";
    assert ObjectPath(subject, timestamp, originalName) == head + f;
    LastSegmentAfterSlash(head, f);
  }

  lemma {:induction false} LastSegmentAfterSlash(head: string, f: string)
    requires head != [] && head[|head| - 1] == '/' && '/' !in f
    ensures LastSegment(head + f) == f
    decreases |f|
  {
    if f == [] {
      assert head + f == head;
    } else {
      var g := f[..|f| - 1];
      assert (head + f)[..|head + f| - 1] == head + g;
      assert f == g + [f[|f| - 1]];
      LastSegmentAfterSlash(head, g);
    }
  }

  // ---------------------------------------------------------------------
  // createNote and getContent
  // ---------------------------------------------------------------------

  /** A note's record as saved: the subject as submitted, not sanitised. */
  datatype Note = Note(subject: string, title: Option<string>, uploadedBy: string, date: nat)

  datatype Upload =
    | Refused(message: string)
    | Store(path: string, note: Note)

  /** `createNote`'s checks and what it stores, for a file with original
      name `file` (`None` when nothing was uploaded). Empty fields count as
      missing, as JavaScript's `!` does. */
  function CreateNote(file: Option<string>, subject: string, title: Option<string>,
                      uploadedBy: string, now: nat): (u: Upload)
    ensures file.None? ==> u == Refused(NoFileMsg)
    ensures file.Some? && uploadedBy == "" ==> u == Refused(NoUploaderMsg)
    ensures file.Some? && uploadedBy != "" && subject == "" ==> u == Refused(NoSubjectMsg)
    ensures u.Store? <==> file.Some? && uploadedBy != "" && subject != ""
    ensures u.Store? ==> u.path == ObjectPath(subject, now, file.value) && u.note == Note(subject, title, uploadedBy, now)
  {
    if file.None? then Refused(NoFileMsg)
    else if uploadedBy == "" then Refused(NoUploaderMsg)
    else if subject == "" then Refused(NoSubjectMsg)
    else Store(ObjectPath(subject, now, file.value), Note(subject, title, uploadedBy, now))
  }

  datatype Collection = Notes | Pyqs

  datatype ContentQuery =
    | BadRequest(error: string)
    | Find(collection: Collection, subject: Option<string>)

  /** `getContent`: the collection named by `type`, filtered by `subject`
      unless it is missing or `"All"`. */
  function GetContent(contentType: string, subject: string): (q: ContentQuery)
    ensures contentType == "" ==> q == BadRequest(NoTypeError)
    ensures contentType != "" && contentType != "notes" && contentType != "pyq" ==> q == BadRequest(BadTypeError)
    ensures q.Find? <==> contentType == "notes" || contentType == "pyq"
    ensures q.Find? ==> (q.collection == Notes <==> contentType == "notes")
    ensures q.Find? ==> (q.subject.None? <==> subject == "" || subject == "All")
    ensures q.Find? && q.subject.Some? ==> q.subject.value == subject
  {
    if contentType == "" then BadRequest(NoTypeError)
    else
      var filter := if subject != "" && subject != "All" then Some(subject) else None;
      if contentType == "notes" then Find(Notes, filter)
      else if contentType == "pyq" then Find(Pyqs, filter)
      else BadRequest(BadTypeError)
  }
}
