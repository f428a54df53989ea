/** Setting one value in an editor's settings file by replacing byte ranges only. */
module VsCodeSettings {
  import opened Basics
  import opened JsoncMask
  import opened JsoncLex
  import opened JsoncSplice
  import opened JsonGrammar
  import opened Scanner

  const KEY := "python.defaultInterpreterPath"
  const KEY_LITERAL := "\"" + KEY + "\""

  /** The JSON library's string coding. */
  datatype Codec = Codec(unquote: string -> string, quote: string -> string)

  ghost predicate Codes(codec: Codec, text: string, literal: string) {
    Literal(literal) && codec.unquote(literal) == text
  }

  // ---------------------------------------------------------------- what the decoder sees

  function TokensOf(ts: seq<string>): (r: seq<Token>)
    ensures |r| == |ts| && forall i | 0 <= i < |ts| :: r[i] == TokenOf(ts[i])
  {
    seq(|ts|, i requires 0 <= i < |ts| => TokenOf(ts[i]))
  }

  /** The tokens of a file that the decoder sees, at their offsets. */
  function Visible(c: string): seq<Lexeme> {
    Drop(Lex(c, 0))
  }

  function Tokens(c: string): seq<Token> {
    TokensOf(Texts(Visible(c)))
  }

  /** The top-level members, if the file is one object. */
  function Settings(c: string): Option<seq<Entry>> {
    if MaskComments(c).None? then None else Entries(Tokens(c))
  }

  predicate Names(codec: Codec, e: Entry) {
    e.key.Quoted? && codec.unquote(e.key.text) == KEY
  }

  /** The value decoded into a string variable; `null` leaves it empty. */
  function Decoded(codec: Codec, v: seq<Token>): Option<string> {
    if |v| == 1 && v[0].Quoted? then Some(codec.unquote(v[0].text))
    else if v == [Word("null")] then Some("")
    else None
  }

  predicate Stale(codec: Codec, e: Entry, interpreter: string) {
    Names(codec, e) && Decoded(codec, e.value) != Some(interpreter)
  }

  // ---------------------------------------------------------------- where the members are

  function KeyAt(es: seq<Entry>, k: nat): nat
    requires k <= |es|
  {
    if k == 0 then 1 else KeyAt(es, k - 1) + |es[k - 1].value| + 3
  }

  function ValueAt(es: seq<Entry>, k: nat): nat
    requires k < |es|
  {
    KeyAt(es, k) + 2
  }

  lemma {:induction false} KeyAtRest(es: seq<Entry>, k: nat)
    requires 0 < k <= |es|
    ensures KeyAt(es, k) == |es[0].value| + 3 + KeyAt(es[1..], k - 1)
  {
    if k > 1 {
      KeyAtRest(es, k - 1);
    }
  }

  /** The tokens before and after one member's value. */
  function Before(es: seq<Entry>, k: nat): seq<Token>
    requires k < |es|
  {
    if k == 0 then [es[0].key, Punct(':')] else EntryTokens(es[0]) + ([Punct(',')] + Before(es[1..], k - 1))
  }

  function After(es: seq<Entry>, k: nat): seq<Token>
    requires k < |es|
  {
    if k > 0 then After(es[1..], k - 1)
    else if |es| == 1 then [Punct('}')]
    else [Punct(',')] + ListTokens(es[1..])
  }

  lemma {:induction false} ListSplits(es: seq<Entry>, k: nat)
    requires k < |es|
    ensures ListTokens(es) == Before(es, k) + es[k].value + After(es, k)
    ensures |Before(es, k)| == ValueAt(es, k) - 1 && Before(es, k)[|Before(es, k)| - 2] == es[k].key
    ensures After(es, k) != []
  {
    if k == 0 {
      Regroup([es[0].key, Punct(':')], es[0].value, After(es, 0));
    } else {
      ListSplits(es[1..], k - 1);
      KeyAtRest(es, k);
      Nested(EntryTokens(es[0]), [Punct(',')], Before(es[1..], k - 1), es[k].value, After(es, k));
      LastButOne(EntryTokens(es[0]), [Punct(',')], Before(es[1..], k - 1));
    }
  }

  lemma Nested(first: seq<Token>, comma: seq<Token>, a: seq<Token>, v: seq<Token>, b: seq<Token>)
    ensures first + (comma + (a + v + b)) == first + (comma + a) + v + b
  {
    Regroup(comma, a, v);
    Regroup(comma, a + v, b);
    Regroup(first, comma + a, v);
    Regroup(first, comma + a + v, b);
  }

  lemma LastButOne(first: seq<Token>, comma: seq<Token>, a: seq<Token>)
    requires |a| > 1
    ensures var all := first + (comma + a); all[|all| - 2] == a[|a| - 2]
  {
  }

  lemma {:induction false} SidesStay(es: seq<Entry>, k: nat, v: seq<Token>)
    requires k < |es|
    ensures var fs := es[k := es[k].(value := v)]; Before(fs, k) == Before(es, k) && After(fs, k) == After(es, k)
  {
    var fs := es[k := es[k].(value := v)];
    if k == 0 {
      assert fs[1..] == es[1..];
    } else {
      SidesStay(es[1..], k - 1, v);
      assert fs[1..] == es[1..][k - 1 := es[k].(value := v)];
    }
  }

  /** The tokens of one member, and of the object with that member's value changed. */
  lemma ObjectAt(es: seq<Entry>, k: nat, v: seq<Token>)
    requires k < |es|
    ensures var ts, from := ObjectTokens(es), ValueAt(es, k);
            var to := from + |es[k].value|;
            && 3 <= from <= to < |ts| && ts[from - 2] == es[k].key && ts[from..to] == es[k].value
            && ObjectTokens(es[k := es[k].(value := v)]) == ts[..from] + v + ts[to..]
  {
    ListSplits(es, k);
    var fs := es[k := es[k].(value := v)];
    SidesStay(es, k, v);
    ListSplits(fs, k);
    ThreeParts([Punct('{')], Before(es, k), es[k].value, After(es, k));
    ThreeParts([Punct('{')], Before(es, k), v, After(es, k));
    assert ObjectTokens(es)[ValueAt(es, k) - 2] == Before(es, k)[|Before(es, k)| - 2];
  }

  lemma ThreeParts(h: seq<Token>, a: seq<Token>, v: seq<Token>, b: seq<Token>)
    ensures var ts, n := h + (a + v + b), |h| + |a|;
            && |ts| == n + |v| + |b| && ts[..n] == h + a && ts[n..n + |v|] == v && ts[n + |v|..] == b
            && ts == h + a + v + b
  {
    Regroup(h, a + v, b);
    Regroup(h, a, v);
  }

  // ---------------------------------------------------------------- replacing one range of tokens by a string

  lemma {:induction false} LiteralEnds(s: string, t: string)
    requires Body(s)
    ensures BodyEnd(s + t) == |s| && BodyCloses(s + t)
  {
    var u := s + t;
    assert u[0] == s[0];
    if s[0] == '"' {
    } else if s[0] == '\\' && s[1] == 'u' {
      assert u[1] == s[1] && u[2] == s[2] && u[3] == s[3] && u[4] == s[4] && u[5] == s[5];
      LiteralEnds(s[6..], t);
      assert u[2..] == u[2..6] + (s[6..] + t);
      FourPlain(u[2..], s[6..] + t);
    } else if s[0] == '\\' {
      LiteralEnds(s[2..], t);
      assert u[1] == s[1] && u[2..] == s[2..] + t;
    } else {
      LiteralEnds(s[1..], t);
      assert u[1..] == s[1..] + t;
    }
  }

  lemma FourPlain(u: string, rest: string)
    requires |u| >= 4 && u[4..] == rest && forall i | 0 <= i < 4 :: u[i] != '"' && u[i] != '\\'
    ensures BodyEnd(u) == 4 + BodyEnd(rest) && (BodyCloses(rest) ==> BodyCloses(u))
  {
    assert u[1..][1..] == u[2..] && u[2..][1..] == u[3..] && u[3..][1..] == u[4..];
    OnePlain(u);
    OnePlain(u[1..]);
    OnePlain(u[2..]);
    OnePlain(u[3..]);
  }

  lemma OnePlain(u: string)
    requires u != "" && u[0] != '"' && u[0] != '\\'
    ensures BodyEnd(u) == 1 + BodyEnd(u[1..]) && (BodyCloses(u) <==> BodyCloses(u[1..]))
  {
  }

  lemma LexLiteral(r: string, t: string, at: nat)
    requires Literal(r)
    ensures Lex(r + t, at) == [Lexeme(at, r)] + Lex(t, at + |r|)
  {
    LiteralEnds(r[1..], t);
    assert (r + t)[1..] == r[1..] + t;
    LexToken(r, t, at);
  }

  lemma Joined(a: seq<Lexeme>, b: seq<Lexeme>)
    ensures Texts(a + b) == Texts(a) + Texts(b)
  {
  }

  lemma TextsSlice(ls: seq<Lexeme>, lo: nat, hi: nat)
    requires lo <= hi <= |ls|
    ensures Texts(ls[lo..hi]) == Texts(ls)[lo..hi]
  {
  }

  /** The text with the bytes of visible tokens `from` to `last` replaced. */
  function Replaced(t: string, from: nat, last: nat, r: string): string
    requires from <= last < |Visible(t)| && Visible(t)[from].start <= |t| && Visible(t)[last].End() <= |t|
  {
    t[..Visible(t)[from].start] + r + t[Visible(t)[last].End()..]
  }

  lemma VisibleIn(t: string, i: nat)
    requires i < |Visible(t)| && POISON !in Texts(Lex(t, 0))
    ensures Visible(t)[i].start < Visible(t)[i].End() <= |t|
  {
    var q := Place(Lex(t, 0), i);
    assert Texts(Lex(t, 0))[q] == Lex(t, 0)[q].text;
    ScanText(TokenStep, t, 0, q);
  }

  lemma LiteralScans(r: string, x: string, at: nat)
    requires Literal(r)
    ensures CutsCleanly(TokenStep, r + x) && TakenWhole(TokenStep, r, x, at)
  {
    TokensCutCleanly(r + x);
    LexLiteral(r, x, at);
  }

  /** All tokens of the changed text. */
  lemma ReplacedScan(t: string, q: nat, start: nat, r: string, x: string)
    requires Literal(r) && q < |Lex(t, 0)| && Lex(t, 0)[q].start == start && start <= |t|
    ensures Lex(t[..start] + r + x, 0) == Lex(t, 0)[..q] + ([Lexeme(start, r)] + Lex(x, start + |r|))
  {
    hide Scan;
    LiteralScans(r, x, start);
    ScanReplaced(TokenStep, t, q, start, r, x);
  }

  lemma ReplacedTail(t: string, q: nat, e: nat, start: nat, end: nat, r: string)
    requires Spans(TokenStep, t, q, e, start, end)
    ensures start <= |t| && end <= |t| && Texts(Lex(t[end..], start + |r|)) == Texts(Lex(t, 0)[e + 1..])
  {
    hide Scan;
    SpanInText(TokenStep, t, q, e, start, end, start + |r|);
  }

  /** Only that range changes, and what is in front keeps its offsets. */
  lemma ReplacedTokens(t: string, from: nat, last: nat, r: string)
    requires Literal(r) && POISON !in Texts(Lex(t, 0))
    requires from <= last < |Visible(t)| && !Closer(Visible(t)[from].text)
    ensures Visible(t)[from].start <= |t| && Visible(t)[last].End() <= |t|
    ensures POISON !in Texts(Lex(Replaced(t, from, last, r), 0))
    ensures Retexted(Visible(t), Visible(Replaced(t, from, last, r)), from, last, r)
  {
    hide Scan;
    hide Drop;
    var ls := Lex(t, 0);
    var q, e := Place(ls, from), Place(ls, last);
    var start, end := ls[q].start, ls[e].End();
    assert Texts(ls)[e] == ls[e].text;
    ReplacedTail(t, q, e, start, end, r);
    ReplacedScan(t, q, start, r, t[end..]);
    var tail := Lex(t[end..], start + |r|);
    LiteralIsPlain(r);
    NoPoison(ls, q, start, r, tail, e);
    DropReplaced(ls, from, last, start, r, tail);
  }

  lemma LiteralIsPlain(r: string)
    requires Literal(r)
    ensures r != POISON && r != "," && !Closer(r)
  {
    assert r[0] == '"';
  }

  /** One range of tokens became one token, and the tokens in front are the same. */
  ghost predicate Retexted(ds: seq<Lexeme>, es: seq<Lexeme>, from: nat, last: nat, r: string) {
    && from <= last < |ds| && from <= |es| && es[..from] == ds[..from]
    && Texts(es) == Texts(ds)[..from] + [r] + Texts(ds)[last + 1..]
  }

  lemma DropReplaced(ls: seq<Lexeme>, from: nat, last: nat, start: nat, r: string, tail: seq<Lexeme>)
    requires r != "," && !Closer(r) && from <= last < |Drop(ls)| && !Closer(Drop(ls)[from].text)
    requires Texts(tail) == Texts(ls[Place(ls, last) + 1..])
    ensures Retexted(Drop(ls), Drop(ls[..Place(ls, from)] + ([Lexeme(start, r)] + tail)), from, last, r)
  {
    hide Drop;
    var l := Lexeme(start, r);
    BeforePlace(ls, from, [l] + tail);
    PlainFirst(l, tail);
    DropAfter(ls, last, ls[Place(ls, last) + 1..], tail);
    RetextedTexts(Drop(ls), from, last, l, Drop(tail));
    Concluded(Drop(ls), Drop(ls[..Place(ls, from)] + ([l] + tail)), from, last, l, Drop(tail));
  }

  lemma PlainFirst(l: Lexeme, tail: seq<Lexeme>)
    requires l.text != ","
    ensures Drop([l] + tail) == [l] + Drop(tail)
  {
    DropFirst(l, tail);
    assert Texts([l] + tail)[0] == l.text;
  }

  lemma Concluded(ds: seq<Lexeme>, es: seq<Lexeme>, from: nat, last: nat, l: Lexeme, tail: seq<Lexeme>)
    requires from <= last < |ds| && es == ds[..from] + ([l] + tail)
    requires Texts(ds[..from] + ([l] + tail)) == Texts(ds)[..from] + [l.text] + Texts(ds)[last + 1..]
    ensures Retexted(ds, es, from, last, l.text)
  {
  }

  lemma SameTextsSameDrop(a: seq<Lexeme>, b: seq<Lexeme>)
    requires Texts(a) == Texts(b)
    ensures Texts(Drop(a)) == Texts(Drop(b))
  {
    TextsOfDrop(a);
    TextsOfDrop(b);
  }

  lemma DropAfter(ls: seq<Lexeme>, last: nat, rest: seq<Lexeme>, tail: seq<Lexeme>)
    requires last < |Drop(ls)| && rest == ls[Place(ls, last) + 1..] && Texts(tail) == Texts(rest)
    ensures Texts(Drop(tail)) == Texts(Drop(ls)[last + 1..])
  {
    AfterPlace(ls, last);
    SameTextsSameDrop(tail, rest);
  }

  lemma RetextedTexts(ds: seq<Lexeme>, from: nat, last: nat, l: Lexeme, tail: seq<Lexeme>)
    requires from <= last < |ds| && Texts(tail) == Texts(ds[last + 1..])
    ensures Texts(ds[..from] + ([l] + tail)) == Texts(ds)[..from] + [l.text] + Texts(ds)[last + 1..]
  {
    Joined(ds[..from], [l] + tail);
    Joined([l], tail);
    TextsSlice(ds, 0, from);
    TextsSlice(ds, last + 1, |ds|);
    assert Texts([l]) == [l.text];
    Regroup(Texts(ds)[..from], [l.text], Texts(tail));
  }

  lemma NoPoison(ls: seq<Lexeme>, q: nat, start: nat, r: string, tail: seq<Lexeme>, e: nat)
    requires q <= |ls| && e < |ls| && POISON !in Texts(ls) && r != POISON && Texts(tail) == Texts(ls[e + 1..])
    ensures POISON !in Texts(ls[..q] + ([Lexeme(start, r)] + tail))
  {
    var all := ls[..q] + ([Lexeme(start, r)] + tail);
    forall i | 0 <= i < |all| ensures Texts(all)[i] != POISON {
      if i < q {
        assert Texts(ls)[i] == all[i].text;
      } else if i > q {
        assert Texts(tail)[i - q - 1] == Texts(ls[e + 1..])[i - q - 1] == Texts(ls)[e + 1 + (i - q - 1)];
      }
    }
  }
}
