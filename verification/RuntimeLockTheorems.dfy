/** Printing, parsing and rendering a runtime lock undo each other exactly if the seams of
    the resolver's text are clean. */
module RuntimeLockTheorems {
  import opened Basics
  import opened RuntimeLock
  import opened RuntimeLockSeams

  // ---------------------------------------------------------------- addresses

  /** The text does not hold the markers' shared part. */
  ghost predicate Free(s: string) {
    Lacks(s, CORE)
  }

  /** A file URI; a project's has no trailing slash. */
  ghost predicate IsUri(u: string) {
    |u| > 5 && u[..5] == "file:" && Free(u)
  }

  ghost predicate IsWheelUri(u: string) {
    IsUri(u) && u[|u| - 4..] == ".whl"
  }

  /** What stands between pieces of text and can hold no part of a marker at its ends. */
  ghost predicate Solid(u: string) {
    u != "" && u[0] == 'f' && (u[|u| - 1] == '/' || u[|u| - 1] == 'l') && Free(u)
  }

  lemma WheelIsSolid(wheel: string)
    requires IsWheelUri(wheel)
    ensures Solid(wheel)
  {
    assert wheel[0] == wheel[..5][0] && wheel[|wheel| - 1] == wheel[|wheel| - 4..][3];
  }

  lemma PrefixIsSolid(project: string)
    requires IsUri(project)
    ensures Solid(project + "/") && project[0] == 'f'
  {
    var q := project + "/";
    assert project[0] == project[..5][0];
    forall i: int ensures !At(q, i, CORE) {
      WindowIf(q, i, CORE);
      if i + 8 == |q| && i >= 0 {
        assert q[i + 7] == '/' && CORE[7] == '_';
      } else if i + 8 < |q| {
        Inside(project, "/", i, CORE);
      }
    }
  }

  lemma CoreWithMarker(s: string, i: int, m: string)
    requires IsMarker(m)
    ensures At(s, i, m) ==> At(s, i + 2, CORE)
  {
    MarkerShape(m);
    WindowIf(s, i, m);
    WindowIf(s, i + 2, CORE);
    if At(s, i, m) {
      forall j | 0 <= j < 8 ensures s[i + 2 + j] == CORE[j] {
        assert s[i + (2 + j)] == m[2 + j];
      }
    }
  }

  lemma OneCharOff(s: string, i: nat, m: string, k: nat)
    requires k < |m| && i + k < |s| && s[i + k] != m[k]
    ensures !At(s, i, m)
  {
    WindowIf(s, i, m);
  }

  lemma SolidEnds(u: string, m: string, k: nat)
    requires IsMarker(m) && Solid(u) && k < |m|
    ensures m[k] != u[0] && m[k] != u[|u| - 1]
  {
    PlainMarkers('f');
    PlainMarkers('/');
    PlainMarkers('l');
    assert m[k] in m;
  }

  /** A marker does not reach into a solid text, nor start in it. */
  lemma SolidAvoids(a: string, u: string, r: string, m: string, i: int)
    requires IsMarker(m) && Solid(u) && 0 <= i < |a| + |u|
    ensures At(a + (u + r), i, m) ==> i + |m| <= |a|
  {
    hide IsMarker;
    hide At;
    var s, last := a + (u + r), |a| + |u| - 1;
    if i < |a| < i + |m| {
      SolidEnds(u, m, |a| - i);
      assert s[|a|] == u[0];
      OneCharOff(s, i, m, |a| - i);
    } else if |a| <= i && last < i + |m| {
      SolidEnds(u, m, last - i);
      assert s[last] == u[|u| - 1];
      OneCharOff(s, i, m, last - i);
    } else if |a| <= i {
      Shifted(a, u + r, i - |a|, m);
      Inside(u, r, i - |a|, m);
      CoreWithMarker(u, i - |a|, m);
    }
  }

  lemma LacksAround(a: string, u: string, r: string, m: string)
    requires IsMarker(m) && Solid(u)
    ensures Lacks(a + (u + r), m) <==> Lacks(a, m) && Lacks(r, m)
  {
    LacksParts(a, u, r, m);
    if Lacks(a, m) && Lacks(r, m) {
      forall i: int ensures !At(a + (u + r), i, m) {
        if 0 <= i < |a| + |u| {
          SolidAvoids(a, u, r, m, i);
          if i + |m| <= |a| { Inside(a, u + r, i, m); }
        } else if |a| + |u| <= i {
          Shifted(a, u + r, i - |a|, m);
          Shifted(u, r, i - |a| - |u|, m);
        }
      }
    }
  }

  lemma LacksParts(a: string, u: string, r: string, m: string)
    requires m != ""
    ensures Lacks(a + (u + r), m) ==> Lacks(a, m) && Lacks(r, m)
  {
    if Lacks(a + (u + r), m) {
      forall i: int ensures !At(a, i, m) {
        if i + |m| <= |a| { Inside(a, u + r, i, m); }
      }
      forall i: int ensures !At(r, i, m) {
        Shifted(u, r, i, m);
        Shifted(a, u + r, |u| + i, m);
      }
    }
  }

  lemma HoldsWheel(x: string, y: string, q: string, i: nat)
    requires i <= |x| && |x| + 29 <= i + |q| && At(x + (WHEEL_MARKER + y), i, q)
    ensures At(q, |x| - i, WHEEL_MARKER)
  {
    var s, w := x + (WHEEL_MARKER + y), WHEEL_MARKER;
    MarkerShape(w);
    WindowIf(s, i, q);
    WindowIf(q, |x| - i, w);
    forall j | 0 <= j < 29 ensures q[|x| - i + j] == w[j] {
      assert s[i + (|x| - i + j)] == w[j];
    }
  }

  /** No project prefix overlaps the wheel marker. */
  lemma PrefixAvoids(x: string, y: string, q: string, i: nat)
    requires Solid(q) && q[|q| - 1] == '/' && i < |x| + |WHEEL_MARKER|
    ensures At(x + (WHEEL_MARKER + y), i, q) ==> i + |q| <= |x|
  {
    var s, w, last := x + (WHEEL_MARKER + y), WHEEL_MARKER, i + |q| - 1;
    MarkerShape(w);
    PlainMarkers('f');
    PlainMarkers('/');
    if |x| <= i {
      assert s[i] == w[i - |x|] && w[i - |x|] in w;
      OneCharOff(s, i, q, 0);
    } else if |x| <= last < |x| + 29 {
      assert s[last] == w[last - |x|] && w[last - |x|] in w;
      OneCharOff(s, i, q, |q| - 1);
    } else if |x| + 29 <= last && At(s, i, q) {
      HoldsWheel(x, y, q, i);
      CoreWithMarker(q, |x| - i, w);
    }
  }

  // ---------------------------------------------------------------- a text in the middle

  /** Two lists of pieces with a text between them, which joins the pieces at the seam. */
  function Merge(a: seq<string>, v: string, b: seq<string>): (r: seq<string>)
    requires a != [] && b != []
    ensures r != []
  {
    if |a| == 1 then Prepend(a[0] + v, b) else [a[0]] + Merge(a[1..], v, b)
  }

  lemma {:induction false} GlueMerge(a: seq<string>, v: string, b: seq<string>, z: string)
    requires a != [] && b != []
    ensures Glue(Merge(a, v, b), z) == Glue(a, z) + (v + Glue(b, z))
  {
    if |a| == 1 {
      GluePrepend(a[0] + v, b, z);
      Regroup(a[0], v, Glue(b, z));
    } else {
      GlueMerge(a[1..], v, b, z);
      assert Merge(a, v, b)[1..] == Merge(a[1..], v, b);
      Regroup(a[0] + z, Glue(a[1..], z), v + Glue(b, z));
    }
  }

  lemma MergePrepend(t: string, a: seq<string>, v: string, b: seq<string>)
    requires a != [] && b != []
    ensures Merge(Prepend(t, a), v, b) == Prepend(t, Merge(a, v, b))
  {
    if |a| == 1 {
      Regroup(t, a[0], v);
      Regroup(t, a[0] + v, b[0]);
    } else {
      assert Prepend(t, a)[1..] == a[1..];
    }
  }

  /** No occurrence touches the middle. */
  ghost predicate Avoids(x: string, v: string, y: string, q: string) {
    forall i | 0 <= i < |x| + |v| && At(x + (v + y), i, q) :: i + |q| <= |x|
  }

  lemma AvoidsRest(x: string, v: string, y: string, q: string, n: nat)
    requires n <= |x| && Avoids(x, v, y, q)
    ensures Avoids(x[n..], v, y, q) && (x + (v + y))[n..] == x[n..] + (v + y)
  {
    var s := x + (v + y);
    assert x == x[..n] + x[n..] && s == x[..n] + (x[n..] + (v + y));
    forall i | 0 <= i < |x[n..]| + |v| && At(x[n..] + (v + y), i, q) ensures i + |q| <= |x[n..]| {
      Shifted(x[..n], x[n..] + (v + y), i, q);
    }
  }

  lemma {:induction false} CutAround(x: string, v: string, y: string, q: string)
    requires q != "" && Avoids(x, v, y, q)
    ensures Cut(x + (v + y), q) == Merge(Cut(x, q), v, Cut(y, q))
  {
    var s := x + (v + y);
    if x == "" {
      assert s == v + y && "" + v == v;
      forall i | 0 <= i < |v| ensures !At(s, i, q) {
      }
      CutSkips(v, y, q);
    } else {
      StartsIf(x, v + y, q);
      assert At(s, 0, q) ==> |q| <= |x|;
      if Starts(x, q) {
        AvoidsRest(x, v, y, q, |q|);
        CutAround(x[|q|..], v, y, q);
      } else {
        AvoidsRest(x, v, y, q, 1);
        CutAround(x[1..], v, y, q);
        MergePrepend([x[0]], Cut(x[1..], q), v, Cut(y, q));
      }
    }
  }

  lemma StartsIf(x: string, r: string, q: string)
    ensures Starts(x + r, q) <==> At(x + r, 0, q)
    ensures Starts(x, q) ==> Starts(x + r, q)
    ensures Starts(x + r, q) && |q| <= |x| ==> Starts(x, q)
  {
    if |q| <= |x| {
      assert (x + r)[..|q|] == x[..|q|];
    }
    if |q| <= |x + r| {
      assert (x + r)[0..0 + |q|] == (x + r)[..|q|];
    }
  }

  lemma ReplaceAround(x: string, v: string, y: string, q: string, z: string)
    requires q != "" && Avoids(x, v, y, q)
    ensures ReplaceAll(x + (v + y), q, z) == ReplaceAll(x, q, z) + (v + ReplaceAll(y, q, z))
  {
    CutAround(x, v, y, q);
    GlueMerge(Cut(x, q), v, Cut(y, q), z);
  }

  // ---------------------------------------------------------------- the resolver's text in pieces

  /** The text before and after the wheel's URI, cut at the project's prefix. */
  function FrontParts(text: string, wheel: string, project: string): (parts: seq<string>)
    requires wheel != ""
    ensures parts != []
  {
    Cut(Cut(text, wheel)[0], project + "/")
  }

  function BackParts(text: string, wheel: string, project: string): (parts: seq<string>)
    requires wheel != "" && Count(text, wheel) == 1
    ensures parts != []
  {
    Cut(Cut(text, wheel)[1], project + "/")
  }

  /** No stump of a wheel marker stands before a project prefix or the wheel, and no stump of
      a project marker before a project prefix. */
  predicate SeamEnds(parts: seq<string>, wheelNext: bool) {
    forall i | 0 <= i < |parts| ::
      && (i < |parts| - 1 ==> !Stump(parts[i], WHEEL_MARKER) && !Stump(parts[i], PROJECT_MARKER))
      && (wheelNext ==> !Stump(parts[i], WHEEL_MARKER) || i < |parts| - 1)
  }

  /** What a caller can check of the resolver's text before the lock is printed. */
  predicate SeamsClean(text: string, wheel: string, project: string)
    requires wheel != "" && Count(text, wheel) == 1
  {
    && Count(text, WHEEL_MARKER) == 0 && Count(text, PROJECT_MARKER) == 0
    && SeamEnds(FrontParts(text, wheel, project), true)
    && SeamEnds(BackParts(text, wheel, project), false)
  }

  lemma WheelOnce(text: string, wheel: string)
    requires wheel != "" && Count(text, wheel) == 1
    ensures var parts := Cut(text, wheel);
            && text == parts[0] + (wheel + parts[1])
            && ReplaceFirst(text, wheel, WHEEL_MARKER) == parts[0] + (WHEEL_MARKER + parts[1])
  {
    GlueCut(text, wheel);
    var parts := Cut(text, wheel);
    Regroup(parts[0], wheel, parts[1]);
    Regroup(parts[0], WHEEL_MARKER, parts[1]);
  }

  /** The printed body, in pieces. */
  lemma BodyShape(text: string, wheel: string, project: string)
    requires wheel != "" && Count(text, wheel) == 1 && IsUri(project)
    ensures NormalizedBody(text, wheel, project) ==
              Marked(FrontParts(text, wheel, project)) + (WHEEL_MARKER + Marked(BackParts(text, wheel, project)))
  {
    var x, y, q := Cut(text, wheel)[0], Cut(text, wheel)[1], project + "/";
    WheelOnce(text, wheel);
    PrefixIsSolid(project);
    assert q[|q| - 1] == '/';
    forall i | 0 <= i < |x| + |WHEEL_MARKER| && At(x + (WHEEL_MARKER + y), i, q) ensures i + |q| <= |x| {
      PrefixAvoids(x, y, q, i);
    }
    ReplaceAround(x, WHEEL_MARKER, y, q, PROJECT_PREFIX);
  }

  ghost predicate AllLack(parts: seq<string>, m: string) {
    forall i | 0 <= i < |parts| :: Lacks(parts[i], m)
  }

  lemma AllLackRest(parts: seq<string>, m: string)
    requires |parts| > 1
    ensures AllLack(parts, m) <==> Lacks(parts[0], m) && AllLack(parts[1..], m)
  {
    assert parts == [parts[0]] + parts[1..];
  }

  lemma {:induction false} GlueLacks(parts: seq<string>, q: string, m: string)
    requires parts != [] && IsMarker(m) && Solid(q)
    ensures Lacks(Glue(parts, q), m) <==> AllLack(parts, m)
  {
    if |parts| > 1 {
      AllLackRest(parts, m);
      GlueLacks(parts[1..], q, m);
      LacksAround(parts[0], q, Glue(parts[1..], q), m);
      Regroup(parts[0], q, Glue(parts[1..], q));
    }
  }

  /** A marker in the text is a marker in one of the pieces. */
  lemma PiecesLackIff(text: string, wheel: string, project: string, m: string)
    requires wheel != "" && Count(text, wheel) == 1 && IsUri(project) && IsMarker(m) && m != ""
    ensures Count(text, m) == 0 ==>
              AllLack(FrontParts(text, wheel, project), m) && AllLack(BackParts(text, wheel, project), m)
    ensures Solid(wheel) &&
            AllLack(FrontParts(text, wheel, project), m) && AllLack(BackParts(text, wheel, project), m) ==>
              Count(text, m) == 0
  {
    var x, y, q := Cut(text, wheel)[0], Cut(text, wheel)[1], project + "/";
    WheelOnce(text, wheel);
    PrefixIsSolid(project);
    CountNone(text, m);
    GlueCut(x, q);
    GlueCut(y, q);
    GlueLacks(Cut(x, q), q, m);
    GlueLacks(Cut(y, q), q, m);
    LacksParts(x, wheel, y, m);
    if Solid(wheel) {
      LacksAround(x, wheel, y, m);
    }
  }

  /** The pieces are clean on both sides of the wheel. */
  ghost predicate PiecesClean(text: string, wheel: string, project: string)
    requires wheel != "" && Count(text, wheel) == 1
  {
    var a, b := FrontParts(text, wheel, project), BackParts(text, wheel, project);
    WheelClean(a, true) && WheelClean(b, false) && ProjectClean(a) && ProjectClean(b)
  }

  lemma EndsIff(parts: seq<string>, wheelNext: bool)
    ensures WheelClean(parts, wheelNext) && ProjectClean(parts) <==>
              AllLack(parts, WHEEL_MARKER) && AllLack(parts, PROJECT_MARKER) && SeamEnds(parts, wheelNext)
  {
    if AllLack(parts, WHEEL_MARKER) && AllLack(parts, PROJECT_MARKER) && SeamEnds(parts, wheelNext) {
      forall i | 0 <= i < |parts|
        ensures Lacks(parts[i], WHEEL_MARKER) && Lacks(parts[i], PROJECT_MARKER)
      {
      }
    }
    if WheelClean(parts, wheelNext) && ProjectClean(parts) {
      forall i | 0 <= i < |parts|
        ensures Lacks(parts[i], WHEEL_MARKER) && Lacks(parts[i], PROJECT_MARKER)
      {
      }
    }
  }

  lemma CleanIff(text: string, wheel: string, project: string)
    requires wheel != "" && Count(text, wheel) == 1 && IsUri(project)
    ensures SeamsClean(text, wheel, project) ==> PiecesClean(text, wheel, project)
    ensures Solid(wheel) && PiecesClean(text, wheel, project) ==> SeamsClean(text, wheel, project)
  {
    MarkerShape(WHEEL_MARKER);
    MarkerShape(PROJECT_MARKER);
    PiecesLackIff(text, wheel, project, WHEEL_MARKER);
    PiecesLackIff(text, wheel, project, PROJECT_MARKER);
    EndsIff(FrontParts(text, wheel, project), true);
    EndsIff(BackParts(text, wheel, project), false);
  }

  // ---------------------------------------------------------------- finding the wheel marker again

  lemma OnlyOne(s: string, m: string)
    requires m != ""
    ensures |Cut(s, m)| == 1 <==> NoneBefore(s, |s|, m)
    ensures |Cut(s, m)| == 1 ==> Cut(s, m) == [s]
  {
    CountNone(s, m);
    if NoneBefore(s, |s|, m) {
      CutNone(s, m);
    }
  }

  /** The wheel marker is found where it was put, once, exactly if none appears among the pieces. */
  lemma MarkerFoundIff(a: seq<string>, b: seq<string>)
    requires a != [] && b != []
    ensures Cut(Marked(a) + (WHEEL_MARKER + Marked(b)), WHEEL_MARKER) == [Marked(a), Marked(b)] <==>
              WheelClean(a, true) && WheelClean(b, false)
    ensures WheelClean(a, true) && !WheelClean(b, false) ==>
              Count(Marked(a) + (WHEEL_MARKER + Marked(b)), WHEEL_MARKER) != 1
  {
    var w, f, g := WHEEL_MARKER, Marked(a), Marked(b);
    var s := f + (w + g);
    MarkerShape(w);
    WheelIff(a, w + g);
    WheelIff(b, "");
    assert g + "" == g;
    OnlyOne(g, w);
    if WheelClean(a, true) {
      Shifted(f, w + g, 0, w);
      assert (w + g)[0..0 + 29] == w;
      CutAt(s, |f|, w);
      assert s[..|f|] == f && s[|f| + 29..] == g;
    } else {
      var i := FirstAt(s, |f|, w);
      CutAt(s, i, w);
      assert Cut(s, w)[0] == s[..i] && |s[..i]| < |f|;
    }
  }

  // ---------------------------------------------------------------- rendering

  /** The resolver's text with another wheel and another project prefix. */
  function Moved(text: string, wheel: string, project: string, wheel': string, project': string): string
    requires wheel != "" && Count(text, wheel) == 1
  {
    Glue(FrontParts(text, wheel, project), project' + "/")
    + (wheel' + Glue(BackParts(text, wheel, project), project' + "/"))
  }

  /** What `renderRuntimeLock` makes of a body. */
  function Rendered(body: string, wheel: string, project: string): Option<string> {
    if Count(body, WHEEL_MARKER) != 1 then None
    else Some(ReplaceAll(ReplaceFirst(body, WHEEL_MARKER, wheel), PROJECT_MARKER, project))
  }

  lemma RenderedAround(u: string, v: string, body: string, wheel: string, project: string)
    requires Cut(body, WHEEL_MARKER) == [u, v] && Solid(wheel)
    ensures Rendered(body, wheel, project) ==
              Some(ReplaceAll(u, PROJECT_MARKER, project) + (wheel + ReplaceAll(v, PROJECT_MARKER, project)))
  {
    MarkerShape(PROJECT_MARKER);
    Regroup(u, wheel, v);
    forall i | 0 <= i < |u| + |wheel| && At(u + (wheel + v), i, PROJECT_MARKER) ensures i + 28 <= |u| {
      SolidAvoids(u, wheel, v, PROJECT_MARKER, i);
    }
    ReplaceAround(u, wheel, v, PROJECT_MARKER, project);
  }

  /** Clean pieces are rendered with the new wheel and prefix, whatever the new prefix is. */
  lemma CleanRenders(a: seq<string>, b: seq<string>, wheel: string, project: string)
    requires a != [] && b != [] && Solid(wheel)
    requires WheelClean(a, true) && WheelClean(b, false) && ProjectClean(a) && ProjectClean(b)
    ensures Rendered(Marked(a) + (WHEEL_MARKER + Marked(b)), wheel, project) ==
              Some(Glue(a, project + "/") + (wheel + Glue(b, project + "/")))
  {
    MarkerFoundIff(a, b);
    RenderedAround(Marked(a), Marked(b), Marked(a) + (WHEEL_MARKER + Marked(b)), wheel, project);
    CleanComesBack(a, project);
    CleanComesBack(b, project);
  }

  /** If a false wheel marker comes first, the wheel appears where the original keeps an underscore. */
  lemma FalseWheelShows(a: seq<string>, b: seq<string>, wheel: string, project: string)
    requires a != [] && b != [] && Solid(wheel) && project != "" && project[0] == 'f' && !WheelClean(a, true)
    ensures Rendered(Marked(a) + (WHEEL_MARKER + Marked(b)), wheel, project) !=
              Some(Glue(a, project + "/") + (wheel + Glue(b, project + "/")))
  {
    var w, q := WHEEL_MARKER, project + "/";
    var c := w + Marked(b);
    var s := Marked(a) + c;
    MarkerShape(w);
    WheelIff(a, c);
    var i := FirstAt(s, |Marked(a)|, w);
    CutAt(s, i, w);
    if Count(s, w) == 1 {
      var v := Cut(s, w)[1];
      assert Cut(s, w) == [s[..i], v];
      var front := BeforeWheel(a, c, i, q);
      assert s[..i] == Marked(a)[..i];
      RenderedAround(s[..i], v, s, wheel, project);
      var r := ReplaceAll(v, PROJECT_MARKER, project);
      FrontDiffers(front, Glue(a, q), wheel, project, r);
      var u := ReplaceAll(Marked(front), PROJECT_MARKER, project);
      Regroup(u, wheel, r);
      DifferMore(u + wheel + r, Glue(a, q), "", wheel + Glue(b, q));
      assert u + wheel + r + "" == u + wheel + r;
    }
  }

  lemma FrontDiffers(front: seq<string>, original: string, wheel: string, project: string, r: string)
    requires front != [] && Solid(wheel) && project != "" && project[0] == 'f'
    requires Glue(front, project + "/") < original && original[|Glue(front, project + "/")|] == '_'
    ensures Differ(ReplaceAll(Marked(front), PROJECT_MARKER, project) + wheel + r, original)
  {
    var u, x := ReplaceAll(Marked(front), PROJECT_MARKER, project), Glue(front, project + "/");
    if ProjectClean(front) {
      CleanComesBack(front, project);
      DifferAt(x, wheel, r, original);
    } else {
      OthersComeBackChanged(front, project);
      Regroup(u, wheel, r);
      DifferMore(u, x, wheel + r, original[|x|..]);
      assert x + original[|x|..] == original;
    }
  }

  /** A project marker that was not put there shows, too. */
  lemma FalsePrefixShows(a: seq<string>, b: seq<string>, wheel: string, project: string)
    requires a != [] && b != [] && Solid(wheel) && project != "" && project[0] == 'f'
    requires WheelClean(a, true) && WheelClean(b, false) && !(ProjectClean(a) && ProjectClean(b))
    ensures Rendered(Marked(a) + (WHEEL_MARKER + Marked(b)), wheel, project) !=
              Some(Glue(a, project + "/") + (wheel + Glue(b, project + "/")))
  {
    var q := project + "/";
    MarkerFoundIff(a, b);
    RenderedAround(Marked(a), Marked(b), Marked(a) + (WHEEL_MARKER + Marked(b)), wheel, project);
    var u, v := ReplaceAll(Marked(a), PROJECT_MARKER, project), ReplaceAll(Marked(b), PROJECT_MARKER, project);
    if !ProjectClean(a) {
      OthersComeBackChanged(a, project);
      DifferMore(u, Glue(a, q), wheel + v, wheel + Glue(b, q));
    } else {
      CleanComesBack(a, project);
      OthersComeBackChanged(b, project);
      DifferLater(wheel, v, Glue(b, q));
      DifferLater(Glue(a, q), wheel + v, wheel + Glue(b, q));
      DifferMore(u + (wheel + v), Glue(a, q) + (wheel + Glue(b, q)), "", "");
      assert u + (wheel + v) + "" == u + (wheel + v);
      assert Glue(a, q) + (wheel + Glue(b, q)) + "" == Glue(a, q) + (wheel + Glue(b, q));
    }
  }

  lemma RenderedIff(a: seq<string>, b: seq<string>, wheel: string, project: string)
    requires a != [] && b != [] && Solid(wheel) && project != "" && project[0] == 'f'
    ensures Rendered(Marked(a) + (WHEEL_MARKER + Marked(b)), wheel, project) ==
              Some(Glue(a, project + "/") + (wheel + Glue(b, project + "/"))) <==>
            WheelClean(a, true) && WheelClean(b, false) && ProjectClean(a) && ProjectClean(b)
  {
    if !WheelClean(a, true) {
      FalseWheelShows(a, b, wheel, project);
    } else if !WheelClean(b, false) {
      MarkerFoundIff(a, b);
    } else if !(ProjectClean(a) && ProjectClean(b)) {
      FalsePrefixShows(a, b, wheel, project);
    } else {
      CleanRenders(a, b, wheel, project);
    }
  }

  // ---------------------------------------------------------------- results

  lemma PlainLines(digest: string)
    requires IsDigest(digest)
    ensures '\n' !in FORMAT_LINE && '\n' !in DIGEST_LINE + digest
  {
  }

  /** Splitting a printed lock returns its digest and body, and is refused only if the body
      does not hold the wheel marker exactly once. */
  lemma SplitDocument(digest: string, body: string)
    ensures IsDigest(digest) ==>
              SplitLock(LockText(digest, body)) == if Count(body, WHEEL_MARKER) == 1 then Some((digest, body)) else None
  {
    if IsDigest(digest) {
      var rest := DIGEST_LINE + digest + "\n" + body;
      PlainLines(digest);
      LineEndAt(FORMAT_LINE, rest);
      LineEndAt(DIGEST_LINE + digest, body);
      var document := LockText(digest, body);
      assert document == FORMAT_LINE + "\n" + rest;
      assert document[..|FORMAT_LINE|] == FORMAT_LINE && document[|FORMAT_LINE| + 1..] == rest;
      var second := |DIGEST_LINE + digest|;
      assert rest[..second] == DIGEST_LINE + digest && rest[second + 1..] == body;
      assert rest[..second][..|DIGEST_LINE|] == DIGEST_LINE && rest[|DIGEST_LINE|..second] == digest;
    }
  }

  lemma PrintedRenders(text: string, wheel: string, project: string, digest: string, wheel': string, project': string)
    requires wheel != "" && Count(text, wheel) == 1 && IsUri(project) && IsDigest(digest)
    ensures var lock := Normalize(text, wheel, project, digest);
            var body := NormalizedBody(text, wheel, project);
            && lock.Some?
            && Render(lock.value, wheel', project') == Rendered(body, wheel', project')
            && (Count(body, WHEEL_MARKER) == 1 ==> SplitLock(lock.value) == Some((digest, body)))
  {
    SplitDocument(digest, NormalizedBody(text, wheel, project));
  }

  /** Resolving in one place and rendering in another: if the seams are clean the lock parses,
      and the rendered text is the resolver's, with this wheel and with every project prefix
      changed, whatever the other project is called. */
  lemma RenderElsewhere(text: string, wheel: string, project: string, digest: string, wheel': string, project': string)
    requires wheel != "" && Count(text, wheel) == 1 && IsUri(project) && IsWheelUri(wheel') && IsDigest(digest)
    requires SeamsClean(text, wheel, project)
    ensures var lock := Normalize(text, wheel, project, digest);
            && lock.Some?
            && SplitLock(lock.value) == Some((digest, NormalizedBody(text, wheel, project)))
            && Render(lock.value, wheel', project') == Some(Moved(text, wheel, project, wheel', project'))
  {
    CleanIff(text, wheel, project);
    BodyShape(text, wheel, project);
    WheelIsSolid(wheel');
    MarkerFoundIff(FrontParts(text, wheel, project), BackParts(text, wheel, project));
    CleanRenders(FrontParts(text, wheel, project), BackParts(text, wheel, project), wheel', project');
    PrintedRenders(text, wheel, project, digest, wheel', project');
  }

  /** For URIs that condition is exact. */
  lemma RenderElsewhereIff(text: string, wheel: string, project: string, digest: string, wheel': string,
        project': string)
    requires IsWheelUri(wheel) && Count(text, wheel) == 1 && IsUri(project) && IsDigest(digest)
    requires IsWheelUri(wheel') && IsUri(project')
    ensures var lock := Normalize(text, wheel, project, digest);
            && lock.Some?
            && (Render(lock.value, wheel', project') == Some(Moved(text, wheel, project, wheel', project')) <==>
                  SeamsClean(text, wheel, project))
  {
    WheelIsSolid(wheel);
    WheelIsSolid(wheel');
    PrefixIsSolid(project');
    CleanIff(text, wheel, project);
    BodyShape(text, wheel, project);
    RenderedIff(FrontParts(text, wheel, project), BackParts(text, wheel, project), wheel', project');
    PrintedRenders(text, wheel, project, digest, wheel', project');
  }

  lemma NotMoved(text: string, wheel: string, project: string)
    requires wheel != "" && Count(text, wheel) == 1
    ensures Moved(text, wheel, project, wheel, project) == text
  {
    WheelOnce(text, wheel);
    GlueCut(Cut(text, wheel)[0], project + "/");
    GlueCut(Cut(text, wheel)[1], project + "/");
  }

  /** Rendering in the same project with the same wheel returns the resolver's text exactly
      if the seams are clean. */
  lemma RenderHereIff(text: string, wheel: string, project: string, digest: string)
    requires IsWheelUri(wheel) && IsUri(project) && IsDigest(digest) && Count(text, wheel) == 1
    ensures var lock := Normalize(text, wheel, project, digest);
            lock.Some? && (Render(lock.value, wheel, project) == Some(text) <==> SeamsClean(text, wheel, project))
  {
    RenderElsewhereIff(text, wheel, project, digest, wheel, project);
    NotMoved(text, wheel, project);
  }

  // ---------------------------------------------------------------- two texts

  lemma SliceLacks(s: string, lo: nat, hi: nat, m: string)
    requires m != "" && lo <= hi <= |s| && Lacks(s, m)
    ensures Lacks(s[lo..hi], m)
  {
    assert s == s[..lo] + (s[lo..hi] + s[hi..]);
    forall i: int ensures !At(s[lo..hi], i, m) {
      if 0 <= i && i + |m| <= hi - lo {
        Inside(s[lo..hi], s[hi..], i, m);
        Shifted(s[..lo], s[lo..hi] + s[hi..], i, m);
      }
    }
  }

  lemma {:induction false} CutIsPrefix(s: string, q: string)
    requires q != ""
    ensures Cut(s, q)[0] <= s
  {
    if s != "" && !Starts(s, q) {
      CutIsPrefix(s[1..], q);
    }
  }

  lemma {:induction false} CutLacks(s: string, q: string, m: string)
    requires q != "" && m != "" && Lacks(s, m)
    ensures AllLack(Cut(s, q), m)
  {
    var parts := Cut(s, q);
    CutIsPrefix(s, q);
    SliceLacks(s, 0, |parts[0]|, m);
    assert s[0..|parts[0]|] == parts[0];
    if s != "" {
      var n := if Starts(s, q) then |q| else 1;
      SliceLacks(s, n, |s|, m);
      assert s[n..|s|] == s[n..];
      CutLacks(s[n..], q, m);
      forall i | 0 < i < |parts| ensures Lacks(parts[i], m) {
        assert parts[i] in Cut(s[n..], q);
      }
    }
  }

  lemma StumpHoldsCore(t: string, m: string)
    requires IsMarker(m)
    ensures Stump(t, m) ==> !Free(t)
  {
    MarkerShape(m);
    if Stump(t, m) {
      var k := if EndsIn(t, m[..|m| - 1]) then |m| - 1 else |m| - 2;
      var at := |t| - k;
      WindowIf(t, at + 2, CORE);
      forall j | 0 <= j < 8 ensures t[at + 2 + j] == CORE[j] {
        assert t[at..][2 + j] == m[..k][2 + j];
      }
      assert At(t, at + 2, CORE);
    }
  }

  /** Text without the markers' shared part has clean seams. */
  lemma FreeIsClean(text: string, wheel: string, project: string)
    requires wheel != "" && Count(text, wheel) == 1 && Free(text)
    ensures SeamsClean(text, wheel, project)
  {
    forall m | IsMarker(m) ensures Count(text, m) == 0 {
      MarkerShape(m);
      CountNone(text, m);
      forall i: int ensures !At(text, i, m) {
        CoreWithMarker(text, i, m);
      }
    }
    CutLacks(text, wheel, CORE);
    FreeEnds(Cut(text, wheel)[0], project + "/", true);
    FreeEnds(Cut(text, wheel)[1], project + "/", false);
  }

  lemma FreeEnds(s: string, q: string, wheelNext: bool)
    requires q != "" && Free(s)
    ensures SeamEnds(Cut(s, q), wheelNext)
  {
    CutLacks(s, q, CORE);
    var parts := Cut(s, q);
    forall i | 0 <= i < |parts| ensures !Stump(parts[i], WHEEL_MARKER) && !Stump(parts[i], PROJECT_MARKER) {
      StumpHoldsCore(parts[i], WHEEL_MARKER);
      StumpHoldsCore(parts[i], PROJECT_MARKER);
    }
  }

  lemma RenderHere(text: string, wheel: string, project: string, digest: string)
    requires Free(text) && IsWheelUri(wheel) && IsUri(project) && IsDigest(digest)
    requires Count(text, wheel) == 1
    ensures var lock := Normalize(text, wheel, project, digest);
            lock.Some? && Render(lock.value, wheel, project) == Some(text)
  {
    FreeIsClean(text, wheel, project);
    RenderHereIff(text, wheel, project, digest);
  }

  /** A wheel marker without its last underscores. */
  const STUMP := "__HARNEST_RELEASE_WHEEL_URI"

  lemma StumpShape()
    ensures |STUMP| == 27 && STUMP + "__" == WHEEL_MARKER && STUMP == WHEEL_MARKER[..27]
    ensures 'f' !in STUMP
  {
    assert |STUMP| == 27;
    PlainMarkers('f');
    assert forall c <- STUMP :: c in WHEEL_MARKER;
  }

  lemma StumpText(wheel: string, project: string)
    requires IsWheelUri(wheel) && IsUri(project)
    ensures Cut(STUMP + wheel, wheel) == [STUMP, ""]
    ensures Cut(STUMP, project + "/") == [STUMP] && Cut("", project + "/") == [""]
  {
    var q := project + "/";
    WheelIsSolid(wheel);
    PrefixIsSolid(project);
    StumpShape();
    forall i | 0 <= i < |STUMP| ensures !At(STUMP + wheel, i, wheel) && !At(STUMP, i, q) {
      WindowIf(STUMP + wheel, i, wheel);
      WindowIf(STUMP, i, q);
      assert (STUMP + wheel)[i + 0] == STUMP[i] && STUMP[i] in STUMP;
    }
    CutSkips(STUMP, wheel, wheel);
    assert wheel + "" == wheel;
    CutHere("", wheel);
    assert STUMP + "" == STUMP;
    CutNone(STUMP, q);
  }

  lemma StumpLacks(m: string)
    requires IsMarker(m)
    ensures Lacks(STUMP, m)
  {
    MarkerShape(m);
    StumpShape();
  }

  /** That the text holds neither marker is not enough: a stump of the wheel marker right
      before the wheel's URI completes to a marker when the URI is replaced. */
  lemma MarkerFreeIsNotEnough(wheel: string, project: string, digest: string) returns (text: string)
    requires IsWheelUri(wheel) && IsUri(project) && IsDigest(digest)
    ensures Count(text, WHEEL_MARKER) == 0 && Count(text, PROJECT_MARKER) == 0 && Count(text, wheel) == 1
    ensures var lock := Normalize(text, wheel, project, digest);
            lock.Some? && Render(lock.value, wheel, project).Some? && Render(lock.value, wheel, project) != Some(text)
  {
    text := STUMP + wheel;
    WheelIsSolid(wheel);
    StumpShape();
    StumpText(wheel, project);
    assert text == STUMP + (wheel + "");
    forall m | IsMarker(m) ensures Count(text, m) == 0 {
      MarkerShape(m);
      StumpLacks(m);
      LacksAround(STUMP, wheel, "", m);
      CountNone(text, m);
    }
    assert Stump(STUMP, WHEEL_MARKER);
    RenderHereIff(text, wheel, project, digest);
    BodyShape(text, wheel, project);
    StumpCut();
    PrintedRenders(text, wheel, project, digest, wheel, project);
  }

  lemma StumpCut()
    ensures Marked([STUMP]) + (WHEEL_MARKER + Marked([""])) == STUMP + WHEEL_MARKER
    ensures Count(STUMP + WHEEL_MARKER, WHEEL_MARKER) == 1
  {
    var tail := WHEEL_MARKER[2..];
    StumpShape();
    MarkerShape(WHEEL_MARKER);
    assert WHEEL_MARKER + "" == WHEEL_MARKER;
    assert WHEEL_MARKER == "__" + tail;
    Regroup(STUMP, "__", tail);
    CutHere(tail, WHEEL_MARKER);
    CutNone(tail, WHEEL_MARKER);
  }
}
