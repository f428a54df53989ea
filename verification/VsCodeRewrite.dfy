/** Replacing every stale value of the interpreter setting at once. */
module VsCodeRewrite {
  import opened Basics
  import opened JsoncMask
  import opened JsoncLex
  import opened JsoncSplice
  import opened JsonGrammar
  import opened Scanner
  import opened VsCodeSettings

  ghost predicate Reads(c: string, es: seq<Entry>) {
    Settings(c) == Some(es)
  }

  lemma ReadTokens(c: string, es: seq<Entry>)
    requires Reads(c, es)
    ensures Tokens(c) == ObjectTokens(es) && POISON !in Texts(Lex(c, 0)) && forall e <- es :: WellEntry(e)
  {
    EntriesSound(Tokens(c));
    FinishedIff(c, 0);
  }

  // ---------------------------------------------------------------- byte ranges

  /** Ascending, non-overlapping ranges from an offset on. */
  predicate InOrder(copied: nat, spans: seq<(nat, nat)>, length: nat)
    decreases |spans|
  {
    if spans == [] then copied <= length
    else copied <= spans[0].0 < spans[0].1 && InOrder(spans[0].1, spans[1..], length)
  }

  lemma {:induction false} InOrderEnds(copied: nat, spans: seq<(nat, nat)>, length: nat)
    requires InOrder(copied, spans, length)
    ensures copied <= length && (spans != [] ==> spans[0].1 <= length)
    decreases |spans|
  {
    if spans != [] {
      InOrderEnds(spans[0].1, spans[1..], length);
    }
  }

  /** The text from an offset on, with the ranges replaced and every other byte kept. */
  function Splice(c: string, copied: nat, spans: seq<(nat, nat)>, r: string): string
    requires InOrder(copied, spans, |c|)
    decreases |spans|
  {
    InOrderEnds(copied, spans, |c|);
    if spans == [] then c[copied..]
    else c[copied..spans[0].0] + r + Splice(c, spans[0].1, spans[1..], r)
  }

  /** Replacing later ranges first leaves everything in front of them alone. */
  lemma SpliceLater(c: string, copied: nat, spans: seq<(nat, nat)>, r: string, at: nat)
    requires copied <= at && InOrder(at, spans, |c|)
    ensures InOrder(copied, spans, |c|) && at <= |c|
    ensures Splice(c, copied, spans, r) == c[copied..at] + Splice(c, at, spans, r)
  {
    InOrderEnds(at, spans, |c|);
    if spans == [] {
      assert c[copied..] == c[copied..at] + c[at..];
    } else {
      var rest := Splice(c, spans[0].1, spans[1..], r);
      assert c[copied..spans[0].0] == c[copied..at] + c[at..spans[0].0];
      Regroup(c[copied..at], c[at..spans[0].0], r);
      Regroup(c[copied..at], c[at..spans[0].0] + r, rest);
    }
  }

  lemma SpliceFirst(c: string, span: (nat, nat), spans: seq<(nat, nat)>, r: string)
    requires InOrder(0, [span] + spans, |c|)
    ensures InOrder(0, spans, |c|)
    ensures var o := Splice(c, 0, spans, r);
            && span.0 <= |o| && span.1 <= |o| && o[..span.0] + r + o[span.1..] == Splice(c, 0, [span] + spans, r)
  {
    assert ([span] + spans)[1..] == spans;
    SpliceLater(c, 0, spans, r, span.1);
    var o, rest := Splice(c, 0, spans, r), Splice(c, span.1, spans, r);
    assert o == c[0..span.1] + rest;
    assert o[..span.0] == c[0..span.0] && o[span.1..] == rest;
  }

  // ---------------------------------------------------------------- the stale values

  function ValueEnd(es: seq<Entry>, k: nat): nat
    requires k < |es| && WellEntry(es[k])
  {
    ValueAt(es, k) + |es[k].value| - 1
  }

  lemma ValueInside(c: string, es: seq<Entry>, k: nat)
    requires Reads(c, es) && k < |es|
    ensures WellEntry(es[k]) && ValueAt(es, k) <= ValueEnd(es, k) < |Visible(c)|
    ensures TokenOf(Visible(c)[ValueAt(es, k)].text) == es[k].value[0]
    ensures !Closer(Visible(c)[ValueAt(es, k)].text)
  {
    ReadTokens(c, es);
    assert es[k] in es;
    ObjectAt(es, k, []);
    assert Tokens(c)[ValueAt(es, k)] == TokenOf(Texts(Visible(c))[ValueAt(es, k)]);
    assert ObjectTokens(es)[ValueAt(es, k)..ValueAt(es, k) + |es[k].value|][0] == es[k].value[0];
    FirstOpens(es[k].value, Visible(c)[ValueAt(es, k)].text);
  }

  lemma FirstOpens(v: seq<Token>, text: string)
    requires WholeValue(v) && TokenOf(text) == v[0]
    ensures !Closer(text)
  {
  }

  /** Tokens lie one behind the other. */
  lemma {:induction false} VisibleOrdered(c: string, i: nat, j: nat)
    requires MaskComments(c).Some? && i < j < |Visible(c)|
    ensures Visible(c)[i].End() <= Visible(c)[j].start
    decreases j
  {
    hide Scan;
    hide Drop;
    hide MaskComments;
    hide MaskCommas;
    var cm := MaskCommas(MaskComments(c).value);
    DecoderOffsets(c);
    FinishedIff(c, 0);
    VisibleIn(c, j - 1);
    NeverPoison(c, j - 1);
    ScanOrdered(TokenStep, cm, 0, j - 1);
    if i < j - 1 {
      VisibleOrdered(c, i, j - 1);
    }
  }

  lemma NeverPoison(c: string, i: nat)
    requires POISON !in Texts(Lex(c, 0)) && i < |Visible(c)|
    ensures Visible(c)[i].text != POISON
  {
    var q := Place(Lex(c, 0), i);
    assert Texts(Lex(c, 0))[q] == Visible(c)[i].text;
  }

  /** The bytes of one member's value. */
  function Span(c: string, es: seq<Entry>, k: nat): (nat, nat)
    requires k < |es| && WellEntry(es[k]) && ValueEnd(es, k) < |Visible(c)|
  {
    (Visible(c)[ValueAt(es, k)].start, Visible(c)[ValueEnd(es, k)].End())
  }

  ghost function StaleSpans(c: string, es: seq<Entry>, k: nat, codec: Codec, interpreter: string): seq<(nat, nat)>
    requires Reads(c, es) && k <= |es|
    decreases |es| - k
  {
    if k == |es| then []
    else
      ValueInside(c, es, k);
      var rest := StaleSpans(c, es, k + 1, codec, interpreter);
      if Stale(codec, es[k], interpreter) then [Span(c, es, k)] + rest else rest
  }

  lemma StaleStep(c: string, es: seq<Entry>, k: nat, codec: Codec, interpreter: string)
    requires Reads(c, es) && k < |es|
    ensures WellEntry(es[k]) && ValueEnd(es, k) < |Visible(c)|
    ensures StaleSpans(c, es, k, codec, interpreter) ==
              (if Stale(codec, es[k], interpreter) then [Span(c, es, k)] else []) +
                  StaleSpans(c, es, k + 1, codec, interpreter)
  {
    ValueInside(c, es, k);
    assert [] + StaleSpans(c, es, k + 1, codec, interpreter) == StaleSpans(c, es, k + 1, codec, interpreter);
  }

  lemma {:induction false} StaleInOrder(c: string, es: seq<Entry>, k: nat, codec: Codec, interpreter: string,
        copied: nat)
    requires Reads(c, es) && k <= |es| && copied <= |c|
    requires k < |es| ==> (ValueInside(c, es, k); copied <= Span(c, es, k).0)
    ensures InOrder(copied, StaleSpans(c, es, k, codec, interpreter), |c|)
    decreases |es| - k
  {
    if k < |es| {
      ValueInside(c, es, k);
      SpanInside(c, es, k);
      var span := Span(c, es, k);
      var stale := Stale(codec, es[k], interpreter);
      if k + 1 < |es| {
        ValueInside(c, es, k + 1);
        VisibleOrdered(c, ValueEnd(es, k), ValueAt(es, k + 1));
      }
      StaleInOrder(c, es, k + 1, codec, interpreter, if stale then span.1 else copied);
      var rest := StaleSpans(c, es, k + 1, codec, interpreter);
      assert ([span] + rest)[1..] == rest;
    }
  }

  lemma SpanInside(c: string, es: seq<Entry>, k: nat)
    requires Reads(c, es) && k < |es|
    ensures WellEntry(es[k]) && ValueEnd(es, k) < |Visible(c)| && Span(c, es, k).0 < Span(c, es, k).1 <= |c|
  {
    ValueInside(c, es, k);
    ReadTokens(c, es);
    RangeInside(c, ValueAt(es, k), ValueEnd(es, k));
  }

  lemma RangeInside(c: string, i: nat, j: nat)
    requires MaskComments(c).Some? && POISON !in Texts(Lex(c, 0)) && i <= j < |Visible(c)|
    ensures Visible(c)[i].start < Visible(c)[j].End() <= |c|
  {
    VisibleIn(c, i);
    VisibleIn(c, j);
    if i < j {
      VisibleOrdered(c, i, j);
    }
  }

  /** One member as it should be afterwards. */
  function Fixed(e: Entry, codec: Codec, interpreter: string, r: string): Entry {
    if Stale(codec, e, interpreter) then e.(value := [Quoted(r)]) else e
  }

  function FixedFrom(es: seq<Entry>, k: nat, codec: Codec, interpreter: string, r: string): (fs: seq<Entry>)
    ensures |fs| == |es|
  {
    seq(|es|, i requires 0 <= i < |es| => if i >= k then Fixed(es[i], codec, interpreter, r) else es[i])
  }

  lemma {:induction false} KeyAtKept(es: seq<Entry>, fs: seq<Entry>, k: nat)
    requires k <= |es| && k <= |fs| && es[..k] == fs[..k]
    ensures KeyAt(fs, k) == KeyAt(es, k)
  {
    if k > 0 {
      assert es[..k - 1] == es[..k][..k - 1] && fs[..k - 1] == fs[..k][..k - 1];
      assert es[..k][k - 1] == es[k - 1] && fs[..k][k - 1] == fs[k - 1];
      KeyAtKept(es, fs, k - 1);
    }
  }

  ghost predicate RewrittenTo(c: string, o: string, es: seq<Entry>, k: nat, fs: seq<Entry>)
    requires k <= |es|
  {
    && POISON !in Texts(Lex(o, 0)) && Tokens(o) == ObjectTokens(fs)
    && KeyAt(es, k) <= |Visible(o)| && KeyAt(es, k) <= |Visible(c)|
    && Visible(o)[..KeyAt(es, k)] == Visible(c)[..KeyAt(es, k)]
  }

  lemma {:induction false} RewrittenFrom(c: string, es: seq<Entry>, k: nat, codec: Codec, interpreter: string,
        r: string)
    requires Reads(c, es) && k <= |es| && Literal(r)
    ensures InOrder(0, StaleSpans(c, es, k, codec, interpreter), |c|)
    ensures RewrittenTo(c, Splice(c, 0, StaleSpans(c, es, k, codec, interpreter), r), es, k,
              FixedFrom(es, k, codec, interpreter, r))
    decreases |es| - k
  {
    hide Scan;
    hide Drop;
    hide ObjectTokens;
    hide Entries;
    StaleInOrder(c, es, k, codec, interpreter, 0);
    if k == |es| {
      RewrittenNone(c, es, codec, interpreter, r);
    } else {
      RewrittenFrom(c, es, k + 1, codec, interpreter, r);
      RewrittenNext(c, es, k, codec, interpreter, r);
    }
  }

  lemma RewrittenNone(c: string, es: seq<Entry>, codec: Codec, interpreter: string, r: string)
    requires Reads(c, es)
    ensures RewrittenTo(c, Splice(c, 0, [], r), es, |es|, FixedFrom(es, |es|, codec, interpreter, r))
  {
    ReadTokens(c, es);
    assert FixedFrom(es, |es|, codec, interpreter, r) == es && c[0..] == c;
    KeyInside(es, |es|);
  }

  lemma RewrittenNext(c: string, es: seq<Entry>, k: nat, codec: Codec, interpreter: string, r: string)
    requires Reads(c, es) && k < |es| && Literal(r)
    requires var later := StaleSpans(c, es, k + 1, codec, interpreter);
             && InOrder(0, later, |c|)
             && RewrittenTo(c, Splice(c, 0, later, r), es, k + 1, FixedFrom(es, k + 1, codec, interpreter, r))
    requires InOrder(0, StaleSpans(c, es, k, codec, interpreter), |c|)
    ensures RewrittenTo(c, Splice(c, 0, StaleSpans(c, es, k, codec, interpreter), r), es, k,
              FixedFrom(es, k, codec, interpreter, r))
  {
    hide Scan;
    hide Drop;
    hide ObjectTokens;
    var later := StaleSpans(c, es, k + 1, codec, interpreter);
    ValueInside(c, es, k);
    FixedNext(es, k, codec, interpreter, r);
    if Stale(codec, es[k], interpreter) {
      SpliceFirst(c, Span(c, es, k), later, r);
      RewrittenOne(c, Splice(c, 0, later, r), es, FixedFrom(es, k + 1, codec, interpreter, r), k, r);
    } else {
      Shorter(c, Splice(c, 0, later, r), es, k, FixedFrom(es, k + 1, codec, interpreter, r));
    }
  }

  lemma FixedNext(es: seq<Entry>, k: nat, codec: Codec, interpreter: string, r: string)
    requires k < |es|
    ensures var fs, gs := FixedFrom(es, k, codec, interpreter, r), FixedFrom(es, k + 1, codec, interpreter, r);
            && gs[k] == es[k] && gs[..k] == es[..k]
            && fs == if Stale(codec, es[k], interpreter) then gs[k := gs[k].(value := [Quoted(r)])] else gs
  {
  }

  lemma KeyInside(es: seq<Entry>, k: nat)
    requires k <= |es|
    ensures KeyAt(es, k) <= |ObjectTokens(es)|
  {
    if k > 0 {
      ListSplits(es, k - 1);
      SplitLength(ListTokens(es), Before(es, k - 1), es[k - 1].value, After(es, k - 1));
    }
  }

  lemma SplitLength(ts: seq<Token>, a: seq<Token>, v: seq<Token>, b: seq<Token>)
    requires ts == a + v + b
    ensures |ts| == |a| + |v| + |b|
  {
  }

  lemma Shorter(c: string, o: string, es: seq<Entry>, k: nat, fs: seq<Entry>)
    requires k < |es| && RewrittenTo(c, o, es, k + 1, fs)
    ensures RewrittenTo(c, o, es, k, fs)
  {
    var n := KeyAt(es, k);
    assert Visible(o)[..n] == Visible(o)[..KeyAt(es, k + 1)][..n];
    assert Visible(c)[..n] == Visible(c)[..KeyAt(es, k + 1)][..n];
  }

  /** One more value replaced, in front of those already replaced. */
  lemma RewrittenOne(c: string, o: string, es: seq<Entry>, gs: seq<Entry>, k: nat, r: string)
    requires Reads(c, es) && k < |es| == |gs| && gs[k] == es[k] && gs[..k] == es[..k] && Literal(r)
    requires RewrittenTo(c, o, es, k + 1, gs)
    requires WellEntry(es[k]) && ValueEnd(es, k) < |Visible(c)| && Span(c, es, k).0 <= |o| && Span(c, es, k).1 <= |o|
    ensures RewrittenTo(c, o[..Span(c, es, k).0] + r + o[Span(c, es, k).1..], es, k,
              gs[k := gs[k].(value := [Quoted(r)])])
  {
    ValueInside(c, es, k);
    SameRange(c, o, es, gs, k);
    ReplacedTokens(o, ValueAt(es, k), ValueEnd(es, k), r);
    RewrittenAt(c, o, Replaced(o, ValueAt(es, k), ValueEnd(es, k), r), es, gs, k, r);
  }

  /** The value to be replaced is where it was. */
  lemma SameRange(c: string, o: string, es: seq<Entry>, gs: seq<Entry>, k: nat)
    requires k < |es| && WellEntry(es[k]) && RewrittenTo(c, o, es, k + 1, gs)
    ensures ValueAt(es, k) <= ValueEnd(es, k) < |Visible(o)| && ValueEnd(es, k) < |Visible(c)|
    ensures Visible(o)[ValueAt(es, k)] == Visible(c)[ValueAt(es, k)]
    ensures Visible(o)[ValueEnd(es, k)] == Visible(c)[ValueEnd(es, k)]
  {
    hide Scan;
    hide Drop;
    hide ObjectTokens;
    SameLexemes(c, o, KeyAt(es, k + 1), ValueAt(es, k));
    SameLexemes(c, o, KeyAt(es, k + 1), ValueEnd(es, k));
  }

  lemma RewrittenAt(c: string, o: string, p: string, es: seq<Entry>, gs: seq<Entry>, k: nat, r: string)
    requires k < |es| == |gs| && gs[k] == es[k] && gs[..k] == es[..k] && WellEntry(es[k]) && Literal(r)
    requires RewrittenTo(c, o, es, k + 1, gs) && POISON !in Texts(Lex(p, 0))
    requires Retexted(Visible(o), Visible(p), ValueAt(es, k), ValueEnd(es, k), r)
    ensures RewrittenTo(c, p, es, k, gs[k := gs[k].(value := [Quoted(r)])])
  {
    hide Scan;
    hide Drop;
    hide ObjectTokens;
    RetextedTokens(Visible(o), Visible(p), ValueAt(es, k), ValueEnd(es, k), r);
    ValueReplaced(es, gs, k, r);
    Shorter(c, o, es, k, gs);
    ShorterPrefix(Visible(o), Visible(p), ValueAt(es, k), KeyAt(es, k));
  }

  lemma ValueReplaced(es: seq<Entry>, gs: seq<Entry>, k: nat, r: string)
    requires k < |es| == |gs| && gs[k] == es[k] && gs[..k] == es[..k] && WellEntry(es[k])
    ensures var ts, from, last := ObjectTokens(gs), ValueAt(es, k), ValueEnd(es, k);
            && from <= last < |ts|
            && ObjectTokens(gs[k := gs[k].(value := [Quoted(r)])]) == ts[..from] + [Quoted(r)] + ts[last + 1..]
  {
    hide ObjectTokens;
    KeyAtKept(es, gs, k);
    ObjectAt(gs, k, [Quoted(r)]);
  }

  lemma ShorterPrefix(ds: seq<Lexeme>, ps: seq<Lexeme>, from: nat, n: nat)
    requires n <= from <= |ds| && from <= |ps| && ps[..from] == ds[..from]
    ensures ps[..n] == ds[..n]
  {
    assert ps[..n] == ps[..from][..n] && ds[..n] == ds[..from][..n];
  }

  lemma SameLexemes(c: string, o: string, n: nat, i: nat)
    requires n <= |Visible(c)| && n <= |Visible(o)| && Visible(o)[..n] == Visible(c)[..n] && i < n
    ensures Visible(o)[i] == Visible(c)[i]
  {
    assert Visible(o)[..n][i] == Visible(c)[..n][i];
  }

  lemma RetextedTokens(ds: seq<Lexeme>, ps: seq<Lexeme>, from: nat, last: nat, r: string)
    requires Retexted(ds, ps, from, last, r) && Literal(r)
    ensures TokensOf(Texts(ps)) == TokensOf(Texts(ds))[..from] + [Quoted(r)] + TokensOf(Texts(ds))[last + 1..]
  {
    assert TokenOf(r) == Quoted(r);
  }
}
