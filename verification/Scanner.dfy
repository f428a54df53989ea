/** Scanning a text step by step, whatever the steps are: tokens keep their offsets, and a
    cut in front of a token is clean if the single steps are stable. */
module Scanner {
  import opened Basics

  datatype Lexeme = Lexeme(start: nat, text: string)
  {
    function End(): nat { start + |text| }
  }

  /** What the scanner does at the start of a text: pass over bytes, take a token, or give up. */
  datatype Step = Skip(n: nat) | Take(n: nat) | Stuck

  predicate Steps(step: string -> Step, s: string) {
    s != "" && (step(s).Stuck? || 0 < step(s).n <= |s|)
  }

  /** Giving up leaves this mark instead of a token. */
  const POISON := "/*"

  function Scan(step: string -> Step, s: string, at: nat): seq<Lexeme> {
    if !Steps(step, s) then []
    else
      match step(s)
      case Skip(n) => Scan(step, s[n..], at + n)
      case Take(n) => [Lexeme(at, s[..n])] + Scan(step, s[n..], at + n)
      case Stuck => [Lexeme(at, POISON)]
  }

  /** The scan comes to an offset and finds a token there, or gives up there. */
  predicate Reaches(step: string -> Step, s: string, p: nat) {
    Steps(step, s) &&
    if p == 0 then !step(s).Skip?
    else !step(s).Stuck? && step(s).n <= p && Reaches(step, s[step(s).n..], p - step(s).n)
  }

  lemma {:induction false} ScanReaches(step: string -> Step, s: string, at: nat, k: nat)
    requires k < |Scan(step, s, at)|
    ensures var p := Scan(step, s, at)[k].start - at;
            && 0 <= p < |s| && Reaches(step, s, p) && Steps(step, s[p..]) && !step(s[p..]).Skip?
            && Scan(step, s[p..], Scan(step, s, at)[k].start) == Scan(step, s, at)[k..]
  {
    if step(s).Stuck? || (step(s).Take? && k == 0) {
      assert s[0..] == s && Scan(step, s, at)[0..] == Scan(step, s, at);
    } else {
      var n := step(s).n;
      var j := if step(s).Take? then k - 1 else k;
      ScanReaches(step, s[n..], at + n, j);
      var p := Scan(step, s, at)[k].start - at;
      assert s[n..][p - n..] == s[p..];
    }
  }

  lemma FirstTaken(step: string -> Step, rest: string, at: nat, ls: seq<Lexeme>)
    requires Scan(step, rest, at) == ls && ls != [] && ls[0].text != POISON && !step(rest).Skip?
    ensures step(rest) == Take(|ls[0].text|) && 0 < |ls[0].text| <= |rest|
    ensures ls[0] == Lexeme(at, rest[..|ls[0].text|])
    ensures Scan(step, rest[|ls[0].text|..], at + |ls[0].text|) == ls[1..]
  {
  }

  lemma SliceSlice<T>(s: seq<T>, p: nat, n: nat)
    requires p + n <= |s|
    ensures s[p..][..n] == s[p..p + n] && s[p..][n..] == s[p + n..]
  {
  }

  lemma Suffix<T>(s: seq<T>, k: nat)
    requires k < |s|
    ensures s[k..][0] == s[k] && s[k..][1..] == s[k + 1..]
  {
  }

  /** A token's text is where its offset says, and the scan goes on behind it. */
  lemma ScanText(step: string -> Step, s: string, at: nat, k: nat)
    requires k < |Scan(step, s, at)| && Scan(step, s, at)[k].text != POISON
    ensures var l := Scan(step, s, at)[k];
            && at <= l.start < l.End() <= at + |s| && s[l.start - at..l.End() - at] == l.text
            && Scan(step, s[l.End() - at..], l.End()) == Scan(step, s, at)[k + 1..]
  {
    hide Scan;
    hide Reaches;
    ScanReaches(step, s, at, k);
    TextAt(step, s, at, Scan(step, s, at), k);
  }

  lemma TextAt(step: string -> Step, s: string, at: nat, ls: seq<Lexeme>, k: nat)
    requires k < |ls| && ls[k].text != POISON && 0 <= ls[k].start - at < |s|
    requires !step(s[ls[k].start - at..]).Skip? && Scan(step, s[ls[k].start - at..], ls[k].start) == ls[k..]
    ensures var l := ls[k];
            && at <= l.start < l.End() <= at + |s| && s[l.start - at..l.End() - at] == l.text
            && Scan(step, s[l.End() - at..], l.End()) == ls[k + 1..]
  {
    var p, n := ls[k].start - at, |ls[k].text|;
    Suffix(ls, k);
    FirstTaken(step, s[p..], at + p, ls[k..]);
    SliceSlice(s, p, n);
    assert ls[k].End() - at == p + n;
  }

  lemma ScanTakes(step: string -> Step, s: string, at: nat, ls: seq<Lexeme>, k: nat, p: nat)
    requires Scan(step, s, at) == ls && k < |ls| && ls[k].text != POISON && ls[k].start == at + p
    ensures p <= |s| && step(s[p..]) == Take(|ls[k].text|)
  {
    hide Reaches;
    ScanReaches(step, s, at, k);
    Suffix(ls, k);
    FirstTaken(step, s[p..], at + p, ls[k..]);
  }

  lemma ScanOrdered(step: string -> Step, s: string, at: nat, k: nat)
    requires k + 1 < |Scan(step, s, at)| && Scan(step, s, at)[k].text != POISON
    ensures Scan(step, s, at)[k].End() <= Scan(step, s, at)[k + 1].start
  {
    hide Scan;
    hide Reaches;
    ScanText(step, s, at, k);
    var e := Scan(step, s, at)[k].End();
    assert Scan(step, s, at)[k + 1..][0] == Scan(step, s, at)[k + 1];
    ScanReaches(step, s[e - at..], e, 0);
  }

  /** A token that another one follows does not end the text. */
  lemma TokenFollowed(step: string -> Step, s: string, ls: seq<Lexeme>, k: nat)
    requires Scan(step, s, 0) == ls && k + 1 < |ls| && ls[k].text != POISON
    ensures ls[k].start < ls[k].End() < |s| && s[ls[k].start..ls[k].End()] == ls[k].text
  {
    hide Scan;
    hide Reaches;
    ScanText(step, s, 0, k);
    ScanOrdered(step, s, 0, k);
    NextInside(step, s, ls, k + 1);
  }

  lemma NextInside(step: string -> Step, s: string, ls: seq<Lexeme>, k: nat)
    requires Scan(step, s, 0) == ls && k < |ls|
    ensures ls[k].start < |s|
  {
    ScanReaches(step, s, 0, k);
  }

  /** What follows the offset of a token does not change the first step. */
  ghost predicate Stable(step: string -> Step, s: string, p: nat, d: string) {
    0 < p <= |s| && Reaches(step, s, p) ==> Steps(step, s[..p] + d) && step(s[..p] + d) == step(s)
  }

  ghost predicate CutsCleanly(step: string -> Step, d: string) {
    forall s: string, p: nat :: Stable(step, s, p, d)
  }

  /** Cutting in front of a token and going on with other bytes. */
  lemma {:induction false} CutBefore(step: string -> Step, s: string, at: nat, k: nat, d: string)
    requires CutsCleanly(step, d) && k < |Scan(step, s, at)|
    ensures var p := Scan(step, s, at)[k].start - at;
            0 <= p <= |s| && Scan(step, s[..p] + d, at) == Scan(step, s, at)[..k] + Scan(step, d, at + p)
    decreases |s|
  {
    ScanReaches(step, s, at, k);
    if step(s).Stuck? || (step(s).Take? && k == 0) {
      assert s[..0] + d == d;
      assert Scan(step, s, at)[..0] + Scan(step, d, at) == Scan(step, d, at);
    } else {
      var j := if step(s).Take? then k - 1 else k;
      ScanReaches(step, s[step(s).n..], at + step(s).n, j);
      CutBefore(step, s[step(s).n..], at + step(s).n, j, d);
      CutOne(step, s, at, k, d);
    }
  }

  lemma CutOne(step: string -> Step, s: string, at: nat, k: nat, d: string)
    requires CutsCleanly(step, d) && k < |Scan(step, s, at)| && !step(s).Stuck? && (step(s).Take? ==> k > 0)
    requires var p := Scan(step, s, at)[k].start - at;
             && step(s).n <= p <= |s| && Reaches(step, s, p)
             && Scan(step, s[step(s).n..][..p - step(s).n] + d, at + step(s).n) ==
                  Scan(step, s[step(s).n..], at + step(s).n)[..if step(s).Take? then k - 1 else k] +
                      Scan(step, d, at + p)
    ensures var p := Scan(step, s, at)[k].start - at;
            Scan(step, s[..p] + d, at) == Scan(step, s, at)[..k] + Scan(step, d, at + p)
  {
    var n := step(s).n;
    var p := Scan(step, s, at)[k].start - at;
    assert Stable(step, s, p, d);
    CutSlices(s, p, d, n);
    StepSame(step, s, at, s[..p] + d);
    if step(s).Take? {
      ConsSlice(Lexeme(at, s[..n]), Scan(step, s[n..], at + n), k, Scan(step, d, at + p));
    }
  }

  lemma CutSlices<T>(s: seq<T>, p: nat, d: seq<T>, n: nat)
    requires n <= p <= |s|
    ensures (s[..p] + d)[n..] == s[n..][..p - n] + d && (s[..p] + d)[..n] == s[..n]
  {
  }

  lemma ConsSlice<T>(x: T, rest: seq<T>, k: nat, tail: seq<T>)
    requires 0 < k <= |rest| + 1
    ensures ([x] + rest)[..k] + tail == [x] + (rest[..k - 1] + tail)
  {
    assert ([x] + rest)[..k] == [x] + rest[..k - 1];
    Regroup([x], rest[..k - 1], tail);
  }

  /** Two texts with the same first step. */
  lemma StepSame(step: string -> Step, s: string, at: nat, u: string)
    requires Steps(step, s) && Steps(step, u) && step(u) == step(s) && !step(s).Stuck?
    requires u[..step(s).n] == s[..step(s).n]
    ensures var n := step(s).n;
            && Scan(step, s, at) == (if step(s).Take? then [Lexeme(at, s[..n])] else []) + Scan(step, s[n..], at + n)
            && Scan(step, u, at) == (if step(s).Take? then [Lexeme(at, s[..n])] else []) + Scan(step, u[n..], at + n)
  {
    var n := step(s).n;
    assert [] + Scan(step, s[n..], at + n) == Scan(step, s[n..], at + n);
    assert [] + Scan(step, u[n..], at + n) == Scan(step, u[n..], at + n);
  }

  function Texts(ls: seq<Lexeme>): (ts: seq<string>)
    ensures |ts| == |ls| && forall i | 0 <= i < |ls| :: ts[i] == ls[i].text
  {
    seq(|ls|, i requires 0 <= i < |ls| => ls[i].text)
  }

  lemma {:induction false} TextsShift(step: string -> Step, s: string, at: nat, to: nat)
    ensures Texts(Scan(step, s, at)) == Texts(Scan(step, s, to))
  {
    if Steps(step, s) && !step(s).Stuck? {
      var n := step(s).n;
      TextsShift(step, s[n..], at + n, to + n);
      if step(s).Take? {
        assert Texts(Scan(step, s, at)) == [s[..n]] + Texts(Scan(step, s[n..], at + n));
        assert Texts(Scan(step, s, to)) == [s[..n]] + Texts(Scan(step, s[n..], to + n));
      }
    }
  }

  /** Where a range of tokens starts and ends in the text. */
  ghost predicate Spans(step: string -> Step, t: string, q: nat, e: nat, start: nat, end: nat) {
    && q < |Scan(step, t, 0)| && e < |Scan(step, t, 0)| && Scan(step, t, 0)[e].text != POISON
    && Scan(step, t, 0)[q].start == start && Scan(step, t, 0)[e].End() == end
  }

  lemma SpanInText(step: string -> Step, t: string, q: nat, e: nat, start: nat, end: nat, at: nat)
    requires Spans(step, t, q, e, start, end)
    ensures start <= |t| && end <= |t| && Texts(Scan(step, t[end..], at)) == Texts(Scan(step, t, 0)[e + 1..])
  {
    ScanReaches(step, t, 0, q);
    TextsAfter(step, t, e, end);
    TextsShift(step, t[end..], at, end);
  }

  lemma TextsAfter(step: string -> Step, t: string, e: nat, end: nat)
    requires e < |Scan(step, t, 0)| && Scan(step, t, 0)[e].text != POISON && Scan(step, t, 0)[e].End() == end
    ensures end <= |t| && Texts(Scan(step, t[end..], end)) == Texts(Scan(step, t, 0)[e + 1..])
  {
    ScanText(step, t, 0, e);
  }

  /** A range of bytes between tokens replaced by one other token. */
  lemma ScanReplaced(step: string -> Step, t: string, q: nat, start: nat, r: string, x: string)
    requires q < |Scan(step, t, 0)| && Scan(step, t, 0)[q].start == start && start <= |t|
    requires CutsCleanly(step, r + x) && TakenWhole(step, r, x, start)
    ensures Scan(step, t[..start] + r + x, 0) ==
              Scan(step, t, 0)[..q] + ([Lexeme(start, r)] + Scan(step, x, start + |r|))
  {
    hide Scan;
    CutBefore(step, t, 0, q, r + x);
    Taken(step, t, q, start, r, x);
    ScanRegrouped(step, t[..start], r, x, Scan(step, t, 0)[..q] + ([Lexeme(start, r)] + Scan(step, x, start + |r|)));
  }

  lemma Taken(step: string -> Step, t: string, q: nat, start: nat, r: string, x: string)
    requires q <= |Scan(step, t, 0)| && start <= |t| && TakenWhole(step, r, x, start)
    requires Scan(step, t[..start] + (r + x), 0) == Scan(step, t, 0)[..q] + Scan(step, r + x, start)
    ensures Scan(step, t[..start] + (r + x), 0) ==
              Scan(step, t, 0)[..q] + ([Lexeme(start, r)] + Scan(step, x, start + |r|))
  {
  }

  lemma ScanRegrouped(step: string -> Step, a: string, r: string, x: string, all: seq<Lexeme>)
    requires Scan(step, a + (r + x), 0) == all
    ensures Scan(step, a + r + x, 0) == all
  {
    Regroup(a, r, x);
  }

  ghost predicate TakenWhole(step: string -> Step, r: string, x: string, at: nat) {
    Scan(step, r + x, at) == [Lexeme(at, r)] + Scan(step, x, at + |r|)
  }

  /** Going on differently in front of a token, as far as texts are concerned. */
  lemma TextsInserted(step: string -> Step, c: string, n: nat, start: nat, d: string)
    requires n < |Scan(step, c, 0)| && Scan(step, c, 0)[n].start == start && CutsCleanly(step, d)
    ensures start <= |c|
    ensures Texts(Scan(step, c[..start] + d, 0)) == Texts(Scan(step, c, 0))[..n] + Texts(Scan(step, d, 0))
    ensures Texts(Scan(step, c[start..], 0)) == Texts(Scan(step, c, 0))[n..]
  {
    hide Scan;
    hide Reaches;
    ScanReaches(step, c, 0, n);
    TextsBehind(step, c, n, start);
    CutBefore(step, c, 0, n, d);
    TextsJoined(Scan(step, c, 0), n, Scan(step, d, start), Scan(step, c[..start] + d, 0));
    TextsShift(step, d, start, 0);
  }

  lemma TextsJoined(ls: seq<Lexeme>, n: nat, ms: seq<Lexeme>, all: seq<Lexeme>)
    requires n <= |ls| && all == ls[..n] + ms
    ensures Texts(all) == Texts(ls)[..n] + Texts(ms)
  {
  }

  lemma TextsBehind(step: string -> Step, c: string, n: nat, start: nat)
    requires n < |Scan(step, c, 0)| && Scan(step, c, 0)[n].start == start
    ensures start <= |c| && Texts(Scan(step, c[start..], 0)) == Texts(Scan(step, c, 0))[n..]
  {
    ScanReaches(step, c, 0, n);
    TextsConcat(Scan(step, c, 0), n, []);
    TextsShift(step, c[start..], start, 0);
  }

  lemma TextsConcat(ls: seq<Lexeme>, n: nat, ms: seq<Lexeme>)
    requires n <= |ls|
    ensures Texts(ls[..n] + ms) == Texts(ls)[..n] + Texts(ms) && Texts(ls[n..]) == Texts(ls)[n..]
  {
  }

  // ---------------------------------------------------------------- texts with the same tokens

  /** The scanner passes over exactly the first bytes. */
  predicate Passes(step: string -> Step, m: string, n: nat)
    requires n <= |m|
  {
    n == 0 || (Steps(step, m) && step(m).Skip? && step(m).n <= n && Passes(step, m[step(m).n..], n - step(m).n))
  }

  lemma {:induction false} PassScan(step: string -> Step, m: string, n: nat, at: nat)
    requires n <= |m| && Passes(step, m, n)
    ensures Scan(step, m, at) == Scan(step, m[n..], at + n)
  {
    if n == 0 {
      assert m[0..] == m;
    } else {
      var k := step(m).n;
      PassScan(step, m[k..], n - k, at + k);
      assert m[k..][n - k..] == m[n..];
    }
  }

  /** Where one text has a token, the other has the same one, and where one has none, the
      other has none. */
  ghost predicate Mirrors(step: string -> Step, related: (string, string) -> bool, s: string, m: string) {
    related(s, m) ==>
      && |s| == |m|
      && (s != "" ==>
            && Steps(step, s) && !step(s).Stuck?
            && var n := step(s).n;
               && related(s[n..], m[n..])
               && if step(s).Skip? then Passes(step, m, n)
                  else Steps(step, m) && step(m) == step(s) && m[..n] == s[..n])
  }

  lemma {:induction false} ScanMirrored(step: string -> Step, related: (string, string) -> bool, s: string,
        m: string, at: nat)
    requires (forall x: string, y: string :: Mirrors(step, related, x, y)) && related(s, m)
    ensures Scan(step, m, at) == Scan(step, s, at)
    decreases |s|
  {
    assert Mirrors(step, related, s, m);
    if s != "" {
      var n := step(s).n;
      ScanMirrored(step, related, s[n..], m[n..], at + n);
      if step(s).Skip? {
        PassScan(step, m, n, at);
      }
    }
  }

  // ---------------------------------------------------------------- trailing commas

  /** Commas whose next token closes a container are not there for the decoder. */
  function Drop(ls: seq<Lexeme>): seq<Lexeme> {
    if ls == [] then []
    else if Trails(Texts(ls)) then Drop(ls[1..])
    else [ls[0]] + Drop(ls[1..])
  }

  predicate Closer(t: string) { t == "}" || t == "]" }

  predicate Trails(ts: seq<string>) {
    |ts| > 1 && ts[0] == "," && Closer(ts[1])
  }

  /** Like `Mirrors`, but where one text has a trailing comma, the other has nothing. */
  ghost predicate Thins(step: string -> Step, related: (string, string) -> bool, s: string, m: string) {
    related(s, m) ==>
      && |s| == |m|
      && (s != "" ==>
            && Steps(step, s) && !step(s).Stuck?
            && var n := step(s).n;
               && related(s[n..], m[n..])
               && if step(s).Skip? || Trails(Texts(Scan(step, s, 0))) then Passes(step, m, n)
                  else Steps(step, m) && step(m) == step(s) && m[..n] == s[..n])
  }

  lemma {:induction false} ScanThinned(step: string -> Step, related: (string, string) -> bool, s: string,
        m: string, at: nat)
    requires (forall x: string, y: string :: Thins(step, related, x, y)) && related(s, m)
    ensures Scan(step, m, at) == Drop(Scan(step, s, at))
    decreases |s|
  {
    assert Thins(step, related, s, m);
    if s != "" {
      var n := step(s).n;
      ScanThinned(step, related, s[n..], m[n..], at + n);
      TextsShift(step, s, at, 0);
      if step(s).Skip? {
        PassScan(step, m, n, at);
      } else {
        DropFirst(Lexeme(at, s[..n]), Scan(step, s[n..], at + n));
        if Trails(Texts(Scan(step, s, at))) {
          PassScan(step, m, n, at);
        }
      }
    }
  }

  lemma DropFirst(l: Lexeme, tail: seq<Lexeme>)
    ensures Drop([l] + tail) == if Trails(Texts([l] + tail)) then Drop(tail) else [l] + Drop(tail)
  {
    assert ([l] + tail)[1..] == tail;
  }

  // ---------------------------------------------------------------- what lies between tokens

  ghost predicate PassesAt(step: string -> Step, ok: string -> bool, blank: char -> bool, x: string) {
    ok(x) && Steps(step, x) ==>
      && !step(x).Stuck? && ok(x[step(x).n..])
      && (step(x).Skip? ==> step(x).n == 1 && blank(x[0]))
  }

  /** In good texts nothing but blanks is passed over, and the rest is good again. */
  ghost predicate PassesBlanks(step: string -> Step, ok: string -> bool, blank: char -> bool) {
    && (forall x: string :: PassesAt(step, ok, blank, x))
    && (forall x: string :: ok(x) && x != "" ==> Steps(step, x))
  }

  function FirstAt(step: string -> Step, s: string, at: nat): nat {
    if Scan(step, s, at) == [] then at + |s| else Scan(step, s, at)[0].start
  }

  lemma {:induction false} GapIsBlank(step: string -> Step, ok: string -> bool, blank: char -> bool, s: string, at: nat)
    requires PassesBlanks(step, ok, blank) && ok(s)
    ensures at <= FirstAt(step, s, at) <= at + |s|
    ensures forall i | 0 <= i < FirstAt(step, s, at) - at :: blank(s[i])
    decreases |s|
  {
    assert PassesAt(step, ok, blank, s);
    if s != "" && step(s).Skip? {
      GapIsBlank(step, ok, blank, s[1..], at + 1);
      assert FirstAt(step, s, at) == FirstAt(step, s[1..], at + 1);
      forall i | 0 <= i < FirstAt(step, s, at) - at ensures blank(s[i]) {
        if i > 0 {
          assert s[1..][i - 1] == s[i];
        }
      }
    }
  }

  lemma {:induction false} GoodBehind(step: string -> Step, ok: string -> bool, blank: char -> bool, s: string,
        at: nat, k: nat)
    requires PassesBlanks(step, ok, blank) && ok(s) && k < |Scan(step, s, at)|
    ensures var e := Scan(step, s, at)[k].End(); at <= e <= at + |s| && ok(s[e - at..])
    decreases |s|
  {
    assert PassesAt(step, ok, blank, s);
    var n := step(s).n;
    if step(s).Skip? || k > 0 {
      GoodBehind(step, ok, blank, s[n..], at + n, if step(s).Skip? then k else k - 1);
      var e := Scan(step, s, at)[k].End();
      assert s[n..][e - (at + n)..] == s[e - at..];
    }
  }

  /** Between a token and the next, or the end of the text, there are only blanks. */
  lemma BehindToken(step: string -> Step, ok: string -> bool, blank: char -> bool, s: string, k: nat)
    requires PassesBlanks(step, ok, blank) && ok(s) && k < |Scan(step, s, 0)| && Scan(step, s, 0)[k].text != POISON
    ensures var ls := Scan(step, s, 0);
            var e, next := ls[k].End(), if k + 1 < |ls| then ls[k + 1].start else |s|;
            e <= next <= |s| && forall i | e <= i < next :: blank(s[i])
  {
    hide Scan;
    hide Reaches;
    hide PassesBlanks;
    var e := Scan(step, s, 0)[k].End();
    ScanText(step, s, 0, k);
    GoodBehind(step, ok, blank, s, 0, k);
    GapIsBlank(step, ok, blank, s[e..], e);
    FirstBehind(step, s, k, e);
    BlankSuffix(blank, s, e, FirstAt(step, s[e..], e));
  }

  lemma FirstBehind(step: string -> Step, s: string, k: nat, e: nat)
    requires k < |Scan(step, s, 0)| && e <= |s| && Scan(step, s[e..], e) == Scan(step, s, 0)[k + 1..]
    ensures FirstAt(step, s[e..], e) == if k + 1 < |Scan(step, s, 0)| then Scan(step, s, 0)[k + 1].start else |s|
  {
  }

  lemma BlankSuffix(blank: char -> bool, s: string, e: nat, next: nat)
    requires e <= next <= |s| && forall i | 0 <= i < next - e :: blank(s[e..][i])
    ensures forall i | e <= i < next :: blank(s[i])
  {
    forall i | e <= i < next ensures blank(s[i]) {
      assert s[e..][i - e] == s[i];
    }
  }
}
