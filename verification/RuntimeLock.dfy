/** The committed runtime lock: printing it with portable markers, parsing it, and
    rendering it for one machine. */
module RuntimeLock {
  import opened Basics

  const FORMAT_LINE := "# harnest-runtime-lock: 1"
  const DIGEST_LINE := "# harnest-input-sha256: "
  const WHEEL_MARKER := "__HARNEST_RELEASE_WHEEL_URI__"
  const PROJECT_MARKER := "__HARNEST_PROJECT_ROOT_URI__"

  // ---------------------------------------------------------------- replacing text

  predicate Starts(s: string, prefix: string) {
    |prefix| <= |s| && s[..|prefix|] == prefix
  }

  function Prepend(t: string, parts: seq<string>): seq<string>
    requires parts != []
  {
    [t + parts[0]] + parts[1..]
  }

  /** The text between the leftmost non-overlapping occurrences of a separator. */
  function Cut(s: string, separator: string): (parts: seq<string>)
    requires separator != ""
    ensures parts != []
  {
    if s == "" then [""]
    else if Starts(s, separator) then [""] + Cut(s[|separator|..], separator)
    else Prepend([s[0]], Cut(s[1..], separator))
  }

  function Glue(parts: seq<string>, separator: string): string
    requires parts != []
  {
    if |parts| == 1 then parts[0] else parts[0] + separator + Glue(parts[1..], separator)
  }

  function Count(s: string, wanted: string): nat
    requires wanted != ""
  {
    |Cut(s, wanted)| - 1
  }

  function ReplaceAll(s: string, old_: string, new_: string): string
    requires old_ != ""
  {
    Glue(Cut(s, old_), new_)
  }

  function ReplaceFirst(s: string, old_: string, new_: string): string
    requires old_ != ""
  {
    var parts := Cut(s, old_);
    if |parts| == 1 then s else parts[0] + new_ + Glue(parts[1..], old_)
  }

  // ---------------------------------------------------------------- the lock

  predicate IsDigest(s: string) {
    |s| == 64 && forall c <- s :: IsHex(c)
  }

  function LockText(digest: string, body: string): string {
    FORMAT_LINE + "\n" + (DIGEST_LINE + digest + "\n" + body)
  }

  /** `project` is the project's URI without a trailing slash. */
  function NormalizedBody(text: string, wheel: string, project: string): string
    requires wheel != ""
  {
    ReplaceAll(ReplaceFirst(text, wheel, WHEEL_MARKER), project + "/", PROJECT_MARKER + "/")
  }

  /** `normalizeRuntimeLock` */
  function Normalize(text: string, wheel: string, project: string, digest: string): Option<string>
    requires wheel != ""
  {
    if Count(text, wheel) != 1 then None else Some(LockText(digest, NormalizedBody(text, wheel, project)))
  }

  /** `splitRuntimeLock` */
  function SplitLock(text: string): Option<(string, string)> {
    var first := LineEnd(text);
    if first == |text| || text[..first] != FORMAT_LINE then None
    else
      var rest := text[first + 1..];
      var second := LineEnd(rest);
      if second == |rest| || !Starts(rest[..second], DIGEST_LINE) then None
      else
        var digest := rest[|DIGEST_LINE|..second];
        var body := rest[second + 1..];
        if !IsDigest(digest) || Count(body, WHEEL_MARKER) != 1 then None
        else Some((digest, body))
  }

  /** `renderRuntimeLock` */
  function Render(text: string, wheel: string, project: string): Option<string> {
    match SplitLock(text)
    case None => None
    case Some((_, body)) => Some(ReplaceAll(ReplaceFirst(body, WHEEL_MARKER, wheel), PROJECT_MARKER, project))
  }

  // ---------------------------------------------------------------- cutting

  predicate At(s: string, i: int, wanted: string) {
    0 <= i && i + |wanted| <= |s| && s[i..i + |wanted|] == wanted
  }

  lemma {:induction false} GlueCut(s: string, separator: string)
    requires separator != ""
    ensures Glue(Cut(s, separator), separator) == s
  {
    if s == "" {
    } else if Starts(s, separator) {
      GlueCut(s[|separator|..], separator);
      assert "" + separator == separator && s == separator + s[|separator|..];
      assert Cut(s, separator)[1..] == Cut(s[|separator|..], separator);
    } else {
      GlueCut(s[1..], separator);
      GluePrepend([s[0]], Cut(s[1..], separator), separator);
      assert s == [s[0]] + s[1..];
    }
  }

  lemma GluePrepend(t: string, parts: seq<string>, separator: string)
    requires parts != []
    ensures Glue(Prepend(t, parts), separator) == t + Glue(parts, separator)
  {
    if |parts| > 1 {
      assert Prepend(t, parts)[1..] == parts[1..];
      Regroup(t + parts[0], separator, Glue(parts[1..], separator));
      Regroup(t, parts[0], separator + Glue(parts[1..], separator));
      Regroup(parts[0], separator, Glue(parts[1..], separator));
    }
  }

  /** Text in which no occurrence starts is passed over. */
  lemma {:induction false} CutSkips(t: string, rest: string, separator: string)
    requires separator != "" && forall i | 0 <= i < |t| :: !At(t + rest, i, separator)
    ensures Cut(t + rest, separator) == Prepend(t, Cut(rest, separator))
  {
    var s := t + rest;
    if t == "" {
      var parts := Cut(rest, separator);
      assert s == rest && "" + parts[0] == parts[0] && parts == [parts[0]] + parts[1..];
    } else {
      assert !At(s, 0, separator);
      assert |separator| <= |s| ==> s[0..0 + |separator|] == s[..|separator|];
      assert s[1..] == t[1..] + rest;
      forall i | 0 <= i < |t[1..]| ensures !At(t[1..] + rest, i, separator) {
        assert !At(s, i + 1, separator);
        assert i + 1 + |separator| <= |s| ==> s[i + 1..i + 1 + |separator|] == s[1..][i..i + |separator|];
      }
      CutSkips(t[1..], rest, separator);
      Regroup([s[0]], t[1..], Cut(rest, separator)[0]);
      assert [s[0]] + t[1..] == t;
    }
  }

  lemma CutHere(rest: string, separator: string)
    requires separator != ""
    ensures Cut(separator + rest, separator) == [""] + Cut(rest, separator)
  {
    assert (separator + rest)[..|separator|] == separator && (separator + rest)[|separator|..] == rest;
  }

  /** The first occurrence is where the text is cut. */
  lemma CutAt(s: string, i: nat, separator: string)
    requires separator != "" && At(s, i, separator) && NoneBefore(s, i, separator)
    ensures Cut(s, separator) == [s[..i]] + Cut(s[i + |separator|..], separator)
  {
    var t, rest := s[..i], s[i..];
    assert s == t + rest && rest == separator + s[i + |separator|..];
    CutSkips(t, rest, separator);
    CutHere(s[i + |separator|..], separator);
    assert t + "" == t;
  }

  /** No occurrence starts before an index. */
  ghost predicate NoneBefore(s: string, n: int, wanted: string) {
    forall i | 0 <= i < n :: !At(s, i, wanted)
  }

  ghost predicate Lacks(s: string, wanted: string) {
    forall i: int :: !At(s, i, wanted)
  }

  lemma CutNone(s: string, separator: string)
    requires separator != "" && NoneBefore(s, |s|, separator)
    ensures Cut(s, separator) == [s]
  {
    assert s + "" == s;
    CutSkips(s, "", separator);
  }

  lemma {:induction false} FirstAt(s: string, n: nat, wanted: string) returns (i: nat)
    requires !NoneBefore(s, n, wanted)
    ensures i < n && At(s, i, wanted) && NoneBefore(s, i, wanted)
    decreases n
  {
    if NoneBefore(s, n - 1, wanted) {
      i := n - 1;
    } else {
      i := FirstAt(s, n - 1, wanted);
    }
  }

  lemma CountNone(s: string, wanted: string)
    requires wanted != ""
    ensures Count(s, wanted) == 0 <==> Lacks(s, wanted)
    ensures Lacks(s, wanted) <==> NoneBefore(s, |s|, wanted)
  {
    if NoneBefore(s, |s|, wanted) {
      CutNone(s, wanted);
    } else {
      var i := FirstAt(s, |s|, wanted);
      CutAt(s, i, wanted);
    }
  }

  // ---------------------------------------------------------------- markers

  /** What both markers have after their first underscores. */
  const CORE := "HARNEST_"

  predicate IsMarker(m: string) { m == WHEEL_MARKER || m == PROJECT_MARKER }

  lemma MarkerShape(m: string)
    requires IsMarker(m)
    ensures |m| == (if m == WHEEL_MARKER then 29 else 28)
    ensures m[0] == m[1] == '_' && m[|m| - 2] == m[|m| - 1] == '_' && forall j | 0 <= j < 8 :: m[2 + j] == CORE[j]
    ensures forall k | 0 < k < |m| - 2 :: m[k] != '_' || m[k + 1] != '_'
    ensures m[10] == if m == WHEEL_MARKER then 'R' else 'P'
  {
    assert |WHEEL_MARKER| == 29 && |PROJECT_MARKER| == 28;
    assert WHEEL_MARKER[10] == 'R' && PROJECT_MARKER[10] == 'P';
  }

  lemma WindowIf(s: string, i: int, m: string)
    ensures At(s, i, m) <==> 0 <= i && i + |m| <= |s| && forall j | 0 <= j < |m| :: s[i + j] == m[j]
  {
    if 0 <= i && i + |m| <= |s| {
      var window := s[i..i + |m|];
      assert forall j | 0 <= j < |m| :: window[j] == s[i + j];
    }
  }

  lemma Shifted(a: string, b: string, i: int, m: string)
    ensures At(a + b, |a| + i, m) && i >= 0 <==> At(b, i, m)
  {
    WindowIf(a + b, |a| + i, m);
    WindowIf(b, i, m);
  }

  lemma Inside(a: string, b: string, i: int, m: string)
    requires i + |m| <= |a|
    ensures At(a + b, i, m) <==> At(a, i, m)
  {
    WindowIf(a + b, i, m);
    WindowIf(a, i, m);
  }
}
