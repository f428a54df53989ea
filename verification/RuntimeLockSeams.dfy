/** Where markers appear in a printed lock, and where a rendered lock leaves its original:
    only at the seams between ordinary text and what was replaced. */
module RuntimeLockSeams {
  import opened Basics
  import opened RuntimeLock

  // ---------------------------------------------------------------- one seam

  predicate EndsIn(t: string, suffix: string) {
    |suffix| <= |t| && t[|t| - |suffix|..] == suffix
  }

  /** The text ends in a marker that lacks its last one or two underscores. */
  predicate Stump(t: string, m: string)
    requires IsMarker(m)
  {
    MarkerShape(m);
    EndsIn(t, m[..|m| - 1]) || EndsIn(t, m[..|m| - 2])
  }

  /** What follows a piece of text: nothing, or a marker. */
  predicate Opens(c: string) {
    c == "" || (|c| > 1 && c[0] == '_' && c[1] == '_')
  }

  /** A marker that starts in the text and ends in the marker behind it. */
  lemma CrossingIf(t: string, c: string, m: string, i: int)
    requires IsMarker(m) && Opens(c) && c != "" && 0 <= i < |t| < i + |m|
    ensures At(t + c, i, m) ==> Stump(t, m)
  {
    MarkerShape(m);
    if At(t + c, i, m) {
      WindowIf(t + c, i, m);
      var k := |t| - i;
      assert (t + c)[i + k] == c[0] == m[k];
      assert k + 1 < |m| ==> (t + c)[i + (k + 1)] == c[1] == m[k + 1];
      assert k == |m| - 1 || k == |m| - 2;
      assert t[i..] == (t + c)[i..|t|] == m[..k];
    }
  }

  lemma StumpGrows(t: string, c: string, m: string)
    requires IsMarker(m) && Opens(c) && c != "" && Stump(t, m)
    ensures !NoneBefore(t + c, |t|, m)
  {
    MarkerShape(m);
    var k := if EndsIn(t, m[..|m| - 1]) then |m| - 1 else |m| - 2;
    var i := |t| - k;
    WindowIf(t + c, i, m);
    assert t[i..] == m[..k];
    forall j | 0 <= j < |m| ensures (t + c)[i + j] == m[j] {
      if j < k {
        assert t[i + j] == t[i..][j];
      } else {
        assert (t + c)[i + j] == c[j - k];
      }
    }
    assert At(t + c, i, m);
  }

  /** No marker starts in a piece of text exactly if it holds none and, in front of a marker,
      does not end in a stump. */
  lemma PieceIff(t: string, c: string, m: string)
    requires IsMarker(m) && Opens(c)
    ensures NoneBefore(t + c, |t|, m) <==> Lacks(t, m) && (c != "" ==> !Stump(t, m))
  {
    MarkerShape(m);
    if NoneBefore(t + c, |t|, m) {
      forall i: int ensures !At(t, i, m) {
        if i + |m| <= |t| { Inside(t, c, i, m); }
      }
      if c != "" && Stump(t, m) {
        StumpGrows(t, c, m);
      }
    }
    if Lacks(t, m) && (c != "" ==> !Stump(t, m)) {
      forall i | 0 <= i < |t| ensures !At(t + c, i, m) {
        if i + |m| <= |t| {
          Inside(t, c, i, m);
        } else if c != "" {
          CrossingIf(t, c, m, i);
        }
      }
    }
  }

  // ---------------------------------------------------------------- pieces of text between project prefixes

  const PROJECT_PREFIX := PROJECT_MARKER + "/"

  /** The pieces with portable prefixes between them. */
  function Marked(parts: seq<string>): string
    requires parts != []
  {
    Glue(parts, PROJECT_PREFIX)
  }

  /** No wheel marker appears among the pieces; `next`: one follows them. */
  ghost predicate WheelClean(parts: seq<string>, next: bool) {
    forall i | 0 <= i < |parts| ::
      Lacks(parts[i], WHEEL_MARKER) && (i < |parts| - 1 || next ==> !Stump(parts[i], WHEEL_MARKER))
  }

  /** No project marker appears among the pieces but those put between them. */
  ghost predicate ProjectClean(parts: seq<string>) {
    forall i | 0 <= i < |parts| ::
      Lacks(parts[i], PROJECT_MARKER) && (i < |parts| - 1 ==> !Stump(parts[i], PROJECT_MARKER))
  }

  lemma WheelCleanRest(parts: seq<string>, next: bool)
    requires |parts| > 1
    ensures WheelClean(parts, next) <==>
              Lacks(parts[0], WHEEL_MARKER) && !Stump(parts[0], WHEEL_MARKER) && WheelClean(parts[1..], next)
  {
    assert parts == [parts[0]] + parts[1..];
  }

  lemma ProjectCleanRest(parts: seq<string>)
    requires |parts| > 1
    ensures ProjectClean(parts) <==>
              Lacks(parts[0], PROJECT_MARKER) && !Stump(parts[0], PROJECT_MARKER) && ProjectClean(parts[1..])
  {
    assert parts == [parts[0]] + parts[1..];
  }

  lemma MarkedRest(parts: seq<string>, c: string)
    requires |parts| > 1
    ensures Marked(parts) + c == parts[0] + (PROJECT_PREFIX + (Marked(parts[1..]) + c))
    ensures |Marked(parts)| == |parts[0]| + 29 + |Marked(parts[1..])|
  {
    MarkerShape(PROJECT_MARKER);
    Regroup(parts[0], PROJECT_PREFIX, Marked(parts[1..]));
    Regroup(parts[0], PROJECT_PREFIX + Marked(parts[1..]), c);
    Regroup(PROJECT_PREFIX, Marked(parts[1..]), c);
  }

  /** The two markers differ after the shared part, and agree nowhere else. */
  lemma NoWheelInPrefix(rest: string)
    ensures NoneBefore(PROJECT_PREFIX + rest, 29, WHEEL_MARKER)
  {
    MarkerShape(PROJECT_MARKER);
    MarkerShape(WHEEL_MARKER);
    var s := PROJECT_PREFIX + rest;
    assert s[10] == 'P' && s[28] == '/';
    forall i | 0 <= i < 29 ensures !At(s, i, WHEEL_MARKER) {
      WindowIf(s, i, WHEEL_MARKER);
      if i < 26 {
        assert s[i + 0] == PROJECT_MARKER[i] && s[i + 1] == PROJECT_MARKER[i + 1];
      } else {
        assert s[i + (28 - i)] == '/';
        PlainMarkers('/');
        assert WHEEL_MARKER[28 - i] in WHEEL_MARKER;
      }
    }
  }

  lemma PlainMarkers(c: char)
    requires c == '/' || c == 'f' || c == 'l'
    ensures c !in WHEEL_MARKER && c !in PROJECT_MARKER
  {
  }

  /** Where the wheel marker can start in marked pieces. */
  lemma {:induction false} WheelIff(parts: seq<string>, c: string)
    requires parts != [] && Opens(c)
    ensures NoneBefore(Marked(parts) + c, |Marked(parts)|, WHEEL_MARKER) <==> WheelClean(parts, c != "")
  {
    if |parts| == 1 {
      PieceIff(parts[0], c, WHEEL_MARKER);
    } else {
      var rest := Marked(parts[1..]) + c;
      MarkedRest(parts, c);
      MarkerShape(PROJECT_MARKER);
      PieceIff(parts[0], PROJECT_PREFIX + rest, WHEEL_MARKER);
      NoWheelInPrefix(rest);
      WheelIff(parts[1..], c);
      WheelCleanRest(parts, c != "");
      NoneInThree(parts[0], PROJECT_PREFIX, rest, |Marked(parts[1..])|, WHEEL_MARKER);
    }
  }

  lemma NoneInTwo(a: string, b: string, n: nat, m: string)
    ensures NoneBefore(a + b, |a| + n, m) <==> NoneBefore(a + b, |a|, m) && NoneBefore(b, n, m)
  {
    if NoneBefore(a + b, |a| + n, m) {
      forall i | 0 <= i < n ensures !At(b, i, m) {
        Shifted(a, b, i, m);
      }
    }
    if NoneBefore(a + b, |a|, m) && NoneBefore(b, n, m) {
      forall i | 0 <= i < |a| + n ensures !At(a + b, i, m) {
        if i >= |a| { Shifted(a, b, i - |a|, m); }
      }
    }
  }

  lemma NoneInThree(a: string, b: string, r: string, n: nat, m: string)
    ensures NoneBefore(a + (b + r), |a| + |b| + n, m) <==>
              NoneBefore(a + (b + r), |a|, m) && NoneBefore(b + r, |b|, m) && NoneBefore(r, n, m)
  {
    NoneInTwo(a, b + r, |b| + n, m);
    NoneInTwo(b, r, n, m);
  }

  // ---------------------------------------------------------------- putting the prefixes back

  /** Two texts that differ at an index of both. */
  ghost predicate Differ(r: string, s: string) {
    exists k :: 0 <= k < |r| && k < |s| && r[..k] == s[..k] && r[k] != s[k]
  }

  lemma DifferLater(a: string, r: string, s: string)
    requires Differ(r, s)
    ensures Differ(a + r, a + s)
  {
    var k :| 0 <= k < |r| && k < |s| && r[..k] == s[..k] && r[k] != s[k];
    assert (a + r)[..|a| + k] == a + r[..k] && (a + s)[..|a| + k] == a + s[..k];
    assert (a + r)[|a| + k] == r[k] && (a + s)[|a| + k] == s[k];
  }

  lemma DifferMore(r: string, s: string, x: string, y: string)
    requires Differ(r, s)
    ensures Differ(r + x, s + y) && r + x != s + y
  {
    var k :| 0 <= k < |r| && k < |s| && r[..k] == s[..k] && r[k] != s[k];
    assert (r + x)[..k] == r[..k] && (s + y)[..k] == s[..k];
    assert (r + x)[k] == r[k] && (s + y)[k] == s[k];
  }

  /** A text replaced at an index where the other one keeps an underscore. */
  lemma DifferAt(common: string, new_: string, x: string, s: string)
    requires common < s && s[|common|] == '_' && new_ != "" && new_[0] == 'f'
    ensures Differ(common + new_ + x, s)
  {
    var r, k := common + new_ + x, |common|;
    assert r[..k] == common && s[..k] == common && r[k] == 'f';
  }

  lemma NoProjectAtSlash(rest: string)
    ensures Cut("/" + rest, PROJECT_MARKER) == Prepend("/", Cut(rest, PROJECT_MARKER))
  {
    MarkerShape(PROJECT_MARKER);
    forall i | 0 <= i < |"/"| ensures !At("/" + rest, i, PROJECT_MARKER) {
      WindowIf("/" + rest, i, PROJECT_MARKER);
      assert ("/" + rest)[0 + 0] == '/';
    }
    CutSkips("/", rest, PROJECT_MARKER);
  }

  lemma GlueCons(first: string, parts: seq<string>, separator: string)
    requires parts != []
    ensures Glue([first] + parts, separator) == first + separator + Glue(parts, separator)
  {
    assert ([first] + parts)[1..] == parts;
  }

  /** The first prefix is put back. */
  lemma FirstBack(first: string, rest: string, project: string)
    requires NoneBefore(first + (PROJECT_PREFIX + rest), |first|, PROJECT_MARKER)
    ensures ReplaceAll(first + (PROJECT_PREFIX + rest), PROJECT_MARKER, project) ==
              first + ((project + "/") + ReplaceAll(rest, PROJECT_MARKER, project))
  {
    var s := first + (PROJECT_PREFIX + rest);
    MarkerShape(PROJECT_MARKER);
    Regroup(PROJECT_MARKER, "/", rest);
    Shifted(first, PROJECT_MARKER + ("/" + rest), 0, PROJECT_MARKER);
    assert (PROJECT_MARKER + ("/" + rest))[0..0 + 28] == PROJECT_MARKER;
    CutAt(s, |first|, PROJECT_MARKER);
    assert s[..|first|] == first && s[|first| + 28..] == "/" + rest;
    NoProjectAtSlash(rest);
    var parts := Cut(rest, PROJECT_MARKER);
    GlueCons(first, Prepend("/", parts), project);
    GluePrepend("/", parts, project);
    Regroup(first, project, "/" + Glue(parts, project));
    Regroup(project, "/", Glue(parts, project));
  }

  /** Clean pieces come back as they were, with the project's own prefix between them. */
  lemma {:induction false} CleanComesBack(parts: seq<string>, project: string)
    requires parts != [] && ProjectClean(parts)
    ensures ReplaceAll(Marked(parts), PROJECT_MARKER, project) == Glue(parts, project + "/")
  {
    MarkerShape(PROJECT_MARKER);
    if |parts| == 1 {
      CountNone(parts[0], PROJECT_MARKER);
      CutNone(parts[0], PROJECT_MARKER);
    } else {
      var rest := Marked(parts[1..]);
      MarkedRest(parts, "");
      assert Marked(parts) + "" == Marked(parts) && rest + "" == rest;
      PieceIff(parts[0], PROJECT_PREFIX + rest, PROJECT_MARKER);
      ProjectCleanRest(parts);
      CleanComesBack(parts[1..], project);
      FirstBack(parts[0], rest, project);
      Regroup(parts[0], project + "/", Glue(parts[1..], project + "/"));
    }
  }

  /** Other pieces come back with a prefix where there was a marker. */
  lemma {:induction false} OthersComeBackChanged(parts: seq<string>, project: string)
    requires parts != [] && !ProjectClean(parts) && project != "" && project[0] == 'f'
    ensures Differ(ReplaceAll(Marked(parts), PROJECT_MARKER, project), Glue(parts, project + "/"))
  {
    var m, q := PROJECT_MARKER, project + "/";
    MarkerShape(m);
    if |parts| == 1 {
      CountNone(parts[0], m);
      var i := FirstAt(parts[0], |parts[0]|, m);
      ChangedAt(parts[0], i, project, parts[0]);
    } else {
      var rest := Marked(parts[1..]);
      MarkedRest(parts, "");
      assert Marked(parts) + "" == Marked(parts) && rest + "" == rest;
      Regroup(parts[0], q, Glue(parts[1..], q));
      if NoneBefore(Marked(parts), |parts[0]|, m) {
        PieceIff(parts[0], PROJECT_PREFIX + rest, m);
        ProjectCleanRest(parts);
        OthersComeBackChanged(parts[1..], project);
        FirstBack(parts[0], rest, project);
        DifferLater(q, ReplaceAll(rest, m, project), Glue(parts[1..], q));
        DifferLater(parts[0], q + ReplaceAll(rest, m, project), q + Glue(parts[1..], q));
      } else {
        var i := FirstAt(Marked(parts), |parts[0]|, m);
        ChangedAt(Marked(parts), i, project, Glue(parts, q));
      }
    }
  }

  /** A marker in the text is replaced, and the original keeps its first underscore. */
  lemma ChangedAt(s: string, i: nat, project: string, original: string)
    requires At(s, i, PROJECT_MARKER) && NoneBefore(s, i, PROJECT_MARKER) && project != "" && project[0] == 'f'
    requires i < |original| && original[..i + 1] == s[..i + 1]
    ensures Differ(ReplaceAll(s, PROJECT_MARKER, project), original)
  {
    MarkerShape(PROJECT_MARKER);
    WindowIf(s, i, PROJECT_MARKER);
    CutAt(s, i, PROJECT_MARKER);
    var rest := Cut(s[i + 28..], PROJECT_MARKER);
    GlueCons(s[..i], rest, project);
    assert s[i + 0] == '_' && original[i] == original[..i + 1][i] == s[..i + 1][i];
    assert original[..i] == original[..i + 1][..i] == s[..i + 1][..i] == s[..i];
    DifferAt(s[..i], project, Glue(rest, project), original);
  }

  // ---------------------------------------------------------------- a wheel marker that was not put there

  /** The marked front is the text before an index, and the original goes on with an underscore. */
  ghost predicate Fronts(front: seq<string>, parts: seq<string>, i: nat, q: string) {
    && front != [] && parts != [] && i <= |Marked(parts)| && Marked(front) == Marked(parts)[..i]
    && Glue(front, q) < Glue(parts, q) && Glue(parts, q)[|Glue(front, q)|] == '_'
  }

  lemma FrontInFirst(parts: seq<string>, i: nat, q: string)
    requires parts != [] && i < |parts[0]| && parts[0][i] == '_'
    ensures Fronts([parts[0][..i]], parts, i, q)
  {
    if |parts| > 1 {
      Regroup(parts[0], q, Glue(parts[1..], q));
      Regroup(parts[0], PROJECT_PREFIX, Marked(parts[1..]));
    }
  }

  lemma WheelStart(s: string, i: nat)
    requires At(s, i, WHEEL_MARKER)
    ensures i < |s| && s[i] == '_'
  {
    MarkerShape(WHEEL_MARKER);
    WindowIf(s, i, WHEEL_MARKER);
    assert s[i + 0] == '_';
  }

  /** Behind the first piece a wheel marker can only start in the others. */
  lemma WheelLater(first: string, rest: string, i: nat)
    requires i >= |first| && At(first + (PROJECT_PREFIX + rest), i, WHEEL_MARKER)
    ensures i >= |first| + 29 && At(rest, i - |first| - 29, WHEEL_MARKER)
  {
    MarkerShape(PROJECT_MARKER);
    Shifted(first, PROJECT_PREFIX + rest, i - |first|, WHEEL_MARKER);
    NoWheelInPrefix(rest);
    Shifted(PROJECT_PREFIX, rest, i - |first| - 29, WHEEL_MARKER);
  }

  /** The text up to a wheel marker among the pieces: marked, and as it was. */
  lemma {:induction false} BeforeWheel(parts: seq<string>, c: string, i: nat, q: string) returns (front: seq<string>)
    requires parts != [] && Opens(c) && i < |Marked(parts)| && At(Marked(parts) + c, i, WHEEL_MARKER)
    ensures Fronts(front, parts, i, q)
  {
    hide Fronts;
    WheelStart(Marked(parts) + c, i);
    if |parts| == 1 {
      front := [parts[0][..i]];
      FrontInFirst(parts, i, q);
      return;
    }
    MarkedRest(parts, c);
    var rest := Marked(parts[1..]) + c;
    if i < |parts[0]| {
      assert (parts[0] + (PROJECT_PREFIX + rest))[i] == parts[0][i];
      front := [parts[0][..i]];
      FrontInFirst(parts, i, q);
    } else {
      WheelLater(parts[0], rest, i);
      var tail := BeforeWheel(parts[1..], c, i - |parts[0]| - 29, q);
      front := [parts[0]] + tail;
      FrontGrows(parts[0], tail, parts, q, i - |parts[0]| - 29);
    }
  }

  lemma FrontGrows(first: string, tail: seq<string>, parts: seq<string>, q: string, k: nat)
    requires |parts| > 1 && parts[0] == first && Fronts(tail, parts[1..], k, q)
    ensures Fronts([first] + tail, parts, |first| + 29 + k, q)
  {
    MarkerShape(PROJECT_MARKER);
    GlueCons(first, tail, q);
    GlueCons(first, tail, PROJECT_PREFIX);
    assert parts == [first] + parts[1..];
    GlueCons(first, parts[1..], q);
    GlueCons(first, parts[1..], PROJECT_PREFIX);
    Grows(first + PROJECT_PREFIX, Marked(parts[1..]), k);
    GrowsProper(first + q, Glue(tail, q), Glue(parts[1..], q));
  }

  lemma Grows(a: string, s: string, k: nat)
    requires k <= |s|
    ensures (a + s)[..|a| + k] == a + s[..k]
  {
  }

  lemma GrowsProper(a: string, r: string, s: string)
    requires r < s
    ensures a + r < a + s && (a + s)[|a + r|] == s[|r|]
  {
    assert (a + s)[..|a + r|] == a + s[..|r|];
  }
}
