/** Which texts are settings: an object written down with blanks and comments between its
    tokens, and with any number of lists that end in a comma. */
module JsonLayout {
  import opened Basics
  import opened JsoncMask
  import opened JsoncLex
  import opened JsonGrammar
  import opened JsonTrees
  import opened Scanner
  import opened VsCodeSettings

  // ---------------------------------------------------------------- what stands between tokens

  datatype Filler = White(c: char) | LineComment(text: string) | BlockComment(text: string)
  {
    function Text(): string {
      match this
      case White(c) => [c]
      case LineComment(text) => "//" + text
      case BlockComment(text) => "/*" + (text + "*/")
    }

    predicate Proper() {
      match this
      case White(c) => c in [' ', '\t', '\r', '\n']
      case LineComment(text) => '\n' !in text
      case BlockComment(text) => forall i | 0 <= i < |text| :: !EndsComment(text + "*/", i)
    }
  }

  predicate EndsComment(s: string, i: nat) {
    i + 1 < |s| && s[i] == '*' && s[i + 1] == '/'
  }

  function FillersText(gap: seq<Filler>): string {
    if gap == [] then "" else gap[0].Text() + FillersText(gap[1..])
  }

  /** A line comment goes on to the end of its line, or of the text. */
  predicate ProperGap(gap: seq<Filler>, last: bool) {
    gap != [] ==>
      && gap[0].Proper() && ProperGap(gap[1..], last)
      && (gap[0].LineComment? ==> if |gap| > 1 then gap[1] == White('\n') else last)
  }

  predicate ProperGaps(gaps: seq<seq<Filler>>) {
    gaps != [] ==> ProperGap(gaps[0], |gaps| == 1) && ProperGaps(gaps[1..])
  }

  /** Tokens with a gap before, between and behind them. */
  function Laid(gaps: seq<seq<Filler>>, texts: seq<string>): string
    requires |gaps| == |texts| + 1
  {
    if texts == [] then FillersText(gaps[0])
    else FillersText(gaps[0]) + (texts[0] + Laid(gaps[1..], texts[1..]))
  }

  function TokenText(t: Token): string {
    match t
    case Punct(mark) => [mark]
    case Quoted(text) => text
    case Word(text) => text
  }

  function TokenTexts(ts: seq<Token>): (texts: seq<string>)
    ensures |texts| == |ts| && forall i | 0 <= i < |ts| :: texts[i] == TokenText(ts[i])
  {
    seq(|ts|, i requires 0 <= i < |ts| => TokenText(ts[i]))
  }

  /** Commas in front of a closing mark left out. */
  function Trimmed(us: seq<Token>): seq<Token> {
    if us == [] then []
    else if |us| > 1 && us[0] == Punct(',') && us[1] in [Punct('}'), Punct(']')] then Trimmed(us[1..])
    else [us[0]] + Trimmed(us[1..])
  }

  /** The text is one object, with comments and trailing commas, and nothing else. */
  ghost predicate ObjectText(c: string) {
    exists members, us, gaps :: LaysOut(members, us, gaps, c)
  }

  ghost predicate LaysOut(members: seq<Named>, us: seq<Token>, gaps: seq<seq<Filler>>, c: string) {
    && Proper(Object(members)) && Trimmed(us) == Written(Object(members))
    && |gaps| == |us| + 1 && ProperGaps(gaps) && c == Laid(gaps, TokenTexts(us))
  }

  // ---------------------------------------------------------------- the tokens of a tree

  predicate Wordy(s: string) {
    forall i | 0 <= i < |s| :: !Stop(s[i]) && s[i] != '/'
  }

  predicate Solid(t: Token) {
    match t
    case Punct(mark) => mark in "{}[]:,"
    case Quoted(text) => Literal(text)
    case Word(text) => Wordy(text) && Scalar(text)
  }

  /** No two words or strings stand side by side. */
  predicate Spaced(ts: seq<Token>) {
    && (forall i | 0 <= i < |ts| :: Solid(ts[i]))
    && (forall i | 0 <= i < |ts| - 1 :: ts[i].Punct? || ts[i + 1].Punct?)
  }

  lemma SpacedJoin(a: seq<Token>, mark: char, b: seq<Token>)
    requires Spaced(a) && Spaced(b) && mark in "{}[]:,"
    ensures Spaced(a + ([Punct(mark)] + b))
  {
    var all := a + ([Punct(mark)] + b);
    forall i | 0 <= i < |all|
      ensures Solid(all[i]) && (i + 1 < |all| ==> all[i].Punct? || all[i + 1].Punct?)
    {
      if i < |a| {
        assert all[i] == a[i];
        assert i + 1 < |a| ==> all[i + 1] == a[i + 1];
      } else if i > |a| {
        assert all[i] == b[i - |a| - 1];
        assert i + 1 < |all| ==> all[i + 1] == b[i - |a|];
      }
    }
  }

  /** A list in its brackets. */
  lemma SpacedList(open: char, inner: seq<Token>, close: char)
    requires Spaced(inner) && open in "{}[]:," && close in "{}[]:,"
    ensures Spaced([Punct(open)] + (inner + [Punct(close)]))
  {
    SpacedJoin(inner, close, []);
    assert [Punct(close)] + [] == [Punct(close)];
    SpacedJoin([], open, inner + [Punct(close)]);
    assert [] + ([Punct(open)] + (inner + [Punct(close)])) == [Punct(open)] + (inner + [Punct(close)]);
  }

  lemma DecimalWordy(s: string)
    requires Decimal(s)
    ensures Wordy(s)
  {
    forall i | 0 <= i < |s|
      ensures !Stop(s[i]) && s[i] != '/'
    {
      assert '0' <= s[i] <= '9';
    }
  }

  lemma NumberWordy(n: Numeral)
    requires n.Proper()
    ensures Wordy(n.Text())
  {
    DecimalWordy(n.whole);
    if n.fraction.Some? {
      DecimalWordy(n.fraction.value);
    }
    if n.exponent.Some? {
      DecimalWordy(n.exponent.value.digits);
      assert Wordy(n.ScaleText());
    }
    assert Wordy(n.FractionText());
  }

  lemma {:induction false} WrittenSpaced(j: Json)
    requires Proper(j)
    ensures Spaced(Written(j))
  {
    match j
    case Null => assert Spaced(Written(j));
    case Boolean(value) => assert Spaced(Written(j));
    case Number(numeral) =>
      NumberWordy(numeral);
      NumberWritten(numeral);
    case Text(pieces) => LiteralWritten(pieces);
    case Array(items) =>
      ItemsSpaced(items);
      SpacedList('[', WrittenItems(items), ']');
    case Object(members) =>
      MembersSpaced(members);
      SpacedList('{', WrittenMembers(members), '}');
  }

  lemma {:induction false} ItemsSpaced(items: seq<Json>)
    requires forall i | 0 <= i < |items| :: Proper(items[i])
    ensures Spaced(WrittenItems(items))
  {
    if items != [] {
      WrittenSpaced(items[0]);
      if |items| > 1 {
        ItemsSpaced(items[1..]);
        SpacedJoin(Written(items[0]), ',', WrittenItems(items[1..]));
      }
    }
  }

  lemma {:induction false} MemberSpaced(m: Named)
    requires ProperMember(m)
    ensures Spaced(WrittenMember(m))
  {
    LiteralWritten(m.key);
    WrittenSpaced(m.value);
    var key := Quoted(QuotedText(m.key));
    SpacedJoin([key], ':', Written(m.value));
    Regroup([key], [Punct(':')], Written(m.value));
    assert [key] + [Punct(':')] == [key, Punct(':')];
  }

  lemma {:induction false} MembersSpaced(members: seq<Named>)
    requires forall i | 0 <= i < |members| :: ProperMember(members[i])
    ensures Spaced(WrittenMembers(members))
  {
    if members != [] {
      MemberSpaced(members[0]);
      if |members| > 1 {
        MembersSpaced(members[1..]);
        SpacedJoin(WrittenMember(members[0]), ',', WrittenMembers(members[1..]));
      }
    }
  }

  // ---------------------------------------------------------------- reading a layout

  lemma {:induction false} LineRead(line: string, t: string)
    requires '\n' !in line && (t == "" || t[0] == '\n')
    ensures LineEnd(line + t) == |line|
  {
    if line == "" {
      assert line + t == t;
    } else {
      assert (line + t)[1..] == line[1..] + t && (line + t)[0] == line[0];
      LineRead(line[1..], t);
    }
  }

  lemma BlockRead(text: string, t: string)
    requires BlockComment(text).Proper()
    ensures FindClose(text + "*/" + t) == Some(|text| + 2)
  {
    hide FindClose;
    var s := text + "*/" + t;
    forall i | 0 <= i < |text| ensures !(i + 1 < |s| && s[i] == '*' && s[i + 1] == '/') {
      assert !EndsComment(text + "*/", i);
    }
    NoCloseBefore(s, |text|);
    assert s[|text|..] == "*/" + t;
    CloseAtOnce(s[|text|..]);
  }

  lemma CloseAtOnce(s: string)
    requires |s| > 1 && s[0] == '*' && s[1] == '/'
    ensures FindClose(s) == Some(2)
  {
  }

  lemma SkipStep(s: string, at: nat)
    requires s != "" && (Blank(s[0]) || Opener(s)) && PieceLen(s).Some?
    ensures var n := PieceLen(s).value; Lex(s, at) == Lex(s[n..], at + n)
  {
  }

  lemma FillerPiece(f: Filler, t: string)
    requires f.Proper() && (f.LineComment? ==> t == "" || t[0] == '\n')
    ensures var s := f.Text() + t; s != "" && (Blank(s[0]) || Opener(s)) && PieceLen(s) == Some(|f.Text()|)
  {
    hide FindClose, LineEnd;
    var s := f.Text() + t;
    match f {
      case White(c) => assert s[0] == c;
      case LineComment(text) =>
        assert '\n' !in f.Text();
        LineRead(f.Text(), t);
        assert s[0] == '/' && s[1] == '/';
      case BlockComment(text) =>
        BlockRead(text, t);
        assert s[0] == '/' && s[1] == '*' && s[2..] == text + "*/" + t;
    }
  }

  lemma FillerRead(f: Filler, t: string, at: nat)
    requires f.Proper() && (f.LineComment? ==> t == "" || t[0] == '\n')
    ensures Lex(f.Text() + t, at) == Lex(t, at + |f.Text()|)
  {
    hide PieceLen;
    FillerPiece(f, t);
    SkipStep(f.Text() + t, at);
    assert (f.Text() + t)[|f.Text()|..] == t;
  }

  /** Behind a line comment its line ends, or the text does. */
  lemma BehindFiller(gap: seq<Filler>, t: string)
    requires gap != [] && ProperGap(gap, t == "") && gap[0].LineComment?
    ensures var rest := FillersText(gap[1..]) + t; rest == "" || rest[0] == '\n'
  {
    if |gap| > 1 {
      assert gap[1..][0] == White('\n') && FillersText(gap[1..])[0] == '\n';
    }
  }

  lemma {:induction false} GapRead(gap: seq<Filler>, t: string, at: nat)
    requires ProperGap(gap, t == "")
    ensures Lex(FillersText(gap) + t, at) == Lex(t, at + |FillersText(gap)|)
  {
    hide Lex, Filler.Text, Filler.Proper;
    if gap == [] {
      assert FillersText(gap) + t == t;
    } else {
      var rest := FillersText(gap[1..]) + t;
      Regroup(gap[0].Text(), FillersText(gap[1..]), t);
      if gap[0].LineComment? {
        BehindFiller(gap, t);
      }
      FillerRead(gap[0], rest, at);
      GapRead(gap[1..], t, at + |gap[0].Text()|);
    }
  }

  lemma {:induction false} WordRead(w: string, t: string)
    requires Wordy(w) && Halts(t)
    ensures WordLen(w + t) == |w| && (w != "" ==> !Opener(w + t))
  {
    if w == "" {
      assert w + t == t;
    } else {
      assert (w + t)[1..] == w[1..] + t && (w + t)[0] == w[0];
      WordRead(w[1..], t);
    }
  }

  /** A word ends where a blank, a mark, a quote or a comment starts. */
  predicate Halts(t: string) { t == "" || Stop(t[0]) || Opener(t) }

  lemma TokenRead(tok: Token, t: string, at: nat)
    requires Solid(tok) && (tok.Word? ==> Halts(t))
    ensures var u := TokenText(tok); Lex(u + t, at) == [Lexeme(at, u)] + Lex(t, at + |u|)
    ensures TokenText(tok) != ""
  {
    var u := TokenText(tok);
    match tok {
      case Punct(mark) =>
        assert (u + t)[0] == mark;
        LexToken(u, t, at);
      case Quoted(text) => LexLiteral(u, t, at);
      case Word(text) =>
        WordRead(u, t);
        assert u != "" && (u + t)[0] == u[0];
        LexToken(u, t, at);
    }
  }

  /** One gap and one token. */
  lemma FirstRead(gap: seq<Filler>, tok: Token, rest: string, at: nat)
    requires ProperGap(gap, false) && Solid(tok) && (tok.Word? ==> Halts(rest))
    ensures var u, k := TokenText(tok), at + |FillersText(gap)|;
            Texts(Lex(FillersText(gap) + (u + rest), at)) == [u] + Texts(Lex(rest, k + |u|))
  {
    hide Lex, ProperGap, FillersText, Solid, Halts;
    var u, k := TokenText(tok), at + |FillersText(gap)|;
    TokenRead(tok, rest, k);
    GapRead(gap, u + rest, at);
    assert Texts([Lexeme(k, u)] + Lex(rest, k + |u|)) == [u] + Texts(Lex(rest, k + |u|));
  }

  lemma {:induction false} LayoutRead(gaps: seq<seq<Filler>>, ts: seq<Token>, at: nat)
    requires |gaps| == |ts| + 1 && ProperGaps(gaps) && Spaced(ts)
    ensures Texts(Lex(Laid(gaps, TokenTexts(ts)), at)) == TokenTexts(ts)
  {
    hide Lex, Solid, ProperGap, FillersText, TokenText;
    var texts := TokenTexts(ts);
    if ts == [] {
      GapRead(gaps[0], "", at);
      assert FillersText(gaps[0]) + "" == FillersText(gaps[0]);
      EmptyRead(at + |FillersText(gaps[0])|);
    } else {
      assert texts[1..] == TokenTexts(ts[1..]);
      var rest := Laid(gaps[1..], texts[1..]);
      if ts[0].Word? {
        RestHalts(gaps[1..], ts[1..]);
      }
      FirstRead(gaps[0], ts[0], rest, at);
      SpacedRest(ts);
      LayoutRead(gaps[1..], ts[1..], at + |FillersText(gaps[0])| + |texts[0]|);
      assert texts == [texts[0]] + texts[1..];
    }
  }

  lemma EmptyRead(at: nat)
    ensures Lex("", at) == []
  {
  }

  lemma RestHalts(gaps: seq<seq<Filler>>, ts: seq<Token>)
    requires |gaps| == |ts| + 1 && ProperGaps(gaps) && (ts != [] ==> ts[0].Punct? && Solid(ts[0]))
    ensures Halts(Laid(gaps, TokenTexts(ts)))
  {
    if gaps[0] != [] {
      assert gaps[0][0].Proper();
    }
  }

  // ---------------------------------------------------------------- every text is a layout

  lemma {:induction false} ClosesFirst(s: string)
    requires FindClose(s).Some?
    ensures var n := FindClose(s).value;
            EndsComment(s, n - 2) && forall i | 0 <= i < n - 2 :: !EndsComment(s, i)
  {
    if !(s[0] == '*' && s[1] == '/') {
      ClosesFirst(s[1..]);
      var n := FindClose(s).value;
      assert EndsComment(s[1..], n - 3);
      forall i | 0 <= i < n - 2 ensures !EndsComment(s, i) {
        assert i > 0 ==> !EndsComment(s[1..], i - 1);
      }
    }
  }

  /** The blank or comment that a text begins with. */
  lemma FillerAt(s: string) returns (f: Filler)
    requires s != "" && (Blank(s[0]) || Opener(s)) && PieceLen(s).Some?
    ensures f.Proper() && |f.Text()| == PieceLen(s).value && s[..PieceLen(s).value] == f.Text()
    ensures Blank(s[0]) ==> f == White(s[0])
    ensures f.LineComment? ==> PieceLen(s).value == |s| || s[PieceLen(s).value] == '\n'
  {
    hide FindClose;
    var n := PieceLen(s).value;
    if Blank(s[0]) {
      f := White(s[0]);
    } else if s[1] == '/' {
      LineSlashes(s);
      f := LineComment(s[2..n]);
      assert s[..n] == "//" + s[2..n];
      assert s[2..n] == s[..n][2..];
    } else {
      f := BlockAt(s, n);
    }
  }

  lemma BlockAt(s: string, n: nat) returns (f: Filler)
    requires |s| > 1 && s[0] == '/' && s[1] == '*' && FindClose(s[2..]).Some? && n == 2 + FindClose(s[2..]).value
    ensures f.BlockComment? && f.Proper() && |f.Text()| == n && s[..n] == f.Text()
  {
    hide FindClose;
    ClosesFirst(s[2..]);
    assert EndsComment(s[2..], n - 4);
    var text := s[2..n - 2];
    assert text + "*/" == s[2..n];
    forall i | 0 <= i < |text| ensures !EndsComment(text + "*/", i) {
      assert !EndsComment(s[2..], i);
    }
    f := BlockComment(text);
    assert s[..n] == "/*" + s[2..n];
  }

  lemma LineSlashes(s: string)
    requires |s| > 1 && s[0] == '/' && s[1] == '/'
    ensures LineEnd(s) >= 2
  {
  }

  lemma GapGrows(f: Filler, gaps: seq<seq<Filler>>, texts: seq<string>)
    requires |gaps| == |texts| + 1 && ProperGaps(gaps) && f.Proper()
    requires f.LineComment? ==> if gaps[0] == [] then texts == [] else gaps[0][0] == White('\n')
    ensures var more := [[f] + gaps[0]] + gaps[1..];
            ProperGaps(more) && Laid(more, texts) == f.Text() + Laid(gaps, texts)
  {
    var first := [f] + gaps[0];
    var more := [first] + gaps[1..];
    assert more[1..] == gaps[1..] && first[1..] == gaps[0];
    assert FillersText(first) == f.Text() + FillersText(gaps[0]);
    assert ProperGap(first, |gaps| == 1);
    if texts != [] {
      Regroup(f.Text(), FillersText(gaps[0]), texts[0] + Laid(gaps[1..], texts[1..]));
    }
  }

  lemma TokenAdded(text: string, gaps: seq<seq<Filler>>, texts: seq<string>)
    requires |gaps| == |texts| + 1 && ProperGaps(gaps)
    ensures ProperGaps([[]] + gaps) && Laid([[]] + gaps, [text] + texts) == text + Laid(gaps, texts)
  {
    assert ([[]] + gaps)[1..] == gaps && ([text] + texts)[1..] == texts;
    assert "" + (text + Laid(gaps, texts)) == text + Laid(gaps, texts);
  }

  /** A text whose comments end is its tokens with blanks and comments around them. */
  lemma {:induction false} TextIsLaid(s: string, at: nat) returns (gaps: seq<seq<Filler>>)
    requires MaskComments(s).Some?
    ensures |gaps| == |Lex(s, at)| + 1 && ProperGaps(gaps) && Laid(gaps, Texts(Lex(s, at))) == s
    ensures s == "" ==> gaps == [[]] && Lex(s, at) == []
    ensures s != "" && Blank(s[0]) ==> gaps[0] != [] && gaps[0][0] == White(s[0])
    decreases |s|
  {
    hide Lex, TokenLen, ProperGaps, Laid, MaskComments, PieceLen, Opener;
    if s == "" {
      gaps := [[]];
      EmptyRead(at);
      EmptyLaid();
    } else if StartsToken(s) {
      FinishedToken(s);
      var rest := TextIsLaid(s[TokenLen(s)..], at + TokenLen(s));
      gaps := [[]] + rest;
      TokenLaid(s, at, rest);
    } else {
      FinishedGap(s, at);
      var n := PieceLen(s).value;
      var rest := TextIsLaid(s[n..], at + n);
      gaps := GapLaid(s, at, rest);
    }
  }

  lemma TokenLaid(s: string, at: nat, rest: seq<seq<Filler>>)
    requires StartsToken(s)
    requires var n := TokenLen(s);
             && |rest| == |Lex(s[n..], at + n)| + 1 && ProperGaps(rest)
             && Laid(rest, Texts(Lex(s[n..], at + n))) == s[n..]
    ensures var gaps := [[]] + rest;
            && |gaps| == |Lex(s, at)| + 1 && ProperGaps(gaps) && Laid(gaps, Texts(Lex(s, at))) == s
  {
    hide Lex, TokenLen, ProperGaps, Laid;
    var n := TokenLen(s);
    LexStep(s, at);
    TokenAdded(s[..n], rest, Texts(Lex(s[n..], at + n)));
    assert Texts(Lex(s, at)) == [s[..n]] + Texts(Lex(s[n..], at + n));
    assert s == s[..n] + s[n..];
  }

  lemma NewlineIsBlank()
    ensures Blank('\n')
  {
  }

  lemma GapLaid(s: string, at: nat, rest: seq<seq<Filler>>) returns (gaps: seq<seq<Filler>>)
    requires s != "" && (Blank(s[0]) || Opener(s)) && PieceLen(s).Some?
    requires var n := PieceLen(s).value;
             && |rest| == |Lex(s[n..], at + n)| + 1 && ProperGaps(rest)
             && Laid(rest, Texts(Lex(s[n..], at + n))) == s[n..]
             && (s[n..] == "" ==> rest == [[]] && Lex(s[n..], at + n) == [])
             && (s[n..] != "" && Blank(s[n]) ==> rest[0] != [] && rest[0][0] == White(s[n]))
    ensures |gaps| == |Lex(s, at)| + 1 && ProperGaps(gaps) && Laid(gaps, Texts(Lex(s, at))) == s
    ensures Blank(s[0]) ==> gaps[0] != [] && gaps[0][0] == White(s[0])
  {
    hide Lex, ProperGaps, Laid, PieceLen, Opener, Blank, Filler.Text, Filler.Proper;
    var n := PieceLen(s).value;
    var t := s[n..];
    SkipStep(s, at);
    var f := FillerAt(s);
    gaps := [[f] + rest[0]] + rest[1..];
    assert f.LineComment? && t != "" ==> t[0] == '\n' && Blank(t[0]) by {
      NewlineIsBlank();
    }
    assert t != "" ==> t[0] == s[n];
    GapGrows(f, rest, Texts(Lex(t, at + n)));
    assert s == s[..n] + t;
  }

  lemma EmptyLaid()
    ensures ProperGaps([[]]) && Laid([[]], []) == ""
  {
  }

  lemma TextOfToken(text: string)
    ensures TokenText(TokenOf(text)) == text
  {
  }

  lemma TextsOfTokens(texts: seq<string>)
    ensures TokenTexts(TokensOf(texts)) == texts
  {
    forall i | 0 <= i < |texts| ensures TokenText(TokenOf(texts[i])) == texts[i] {
      TextOfToken(texts[i]);
    }
  }

  lemma TokensOfTexts(ts: seq<Token>)
    requires Spaced(ts)
    ensures TokensOf(TokenTexts(ts)) == ts
  {
    forall i | 0 <= i < |ts| ensures TokenOf(TokenText(ts[i])) == ts[i] {
      assert Solid(ts[i]);
      SolidToken(ts[i]);
    }
  }

  lemma SolidToken(t: Token)
    requires Solid(t)
    ensures TokenOf(TokenText(t)) == t && TokenText(t) != POISON
  {
    assert t.Word? ==> POISON[0] == '/';
  }

  // ---------------------------------------------------------------- trailing commas

  lemma {:induction false} TrimmedSpaced(us: seq<Token>)
    requires Spaced(Trimmed(us))
    ensures Spaced(us)
  {
    if us != [] {
      var ts := Trimmed(us);
      if !(|us| > 1 && us[0] == Punct(',') && us[1] in [Punct('}'), Punct(']')]) {
        assert ts[0] == us[0] && ts[1..] == Trimmed(us[1..]);
        SpacedRest(ts);
        TrimmedFirst(us[1..]);
      }
      TrimmedSpaced(us[1..]);
      SpacedCons(us);
    }
  }

  lemma TrimmedFirst(us: seq<Token>)
    ensures us != [] && !us[0].Punct? ==> Trimmed(us) != [] && Trimmed(us)[0] == us[0]
  {
  }

  lemma SpacedRest(ts: seq<Token>)
    requires Spaced(ts) && ts != []
    ensures Spaced(ts[1..])
  {
    forall i | 0 <= i < |ts[1..]|
      ensures Solid(ts[1..][i]) && (i + 1 < |ts[1..]| ==> ts[1..][i].Punct? || ts[1..][i + 1].Punct?)
    {
      assert Solid(ts[i + 1]);
    }
  }

  lemma SpacedCons(us: seq<Token>)
    requires us != [] && Spaced(us[1..]) && Solid(us[0]) && (|us| > 1 ==> us[0].Punct? || us[1].Punct?)
    ensures Spaced(us)
  {
    forall i | 0 <= i < |us|
      ensures Solid(us[i]) && (i + 1 < |us| ==> us[i].Punct? || us[i + 1].Punct?)
    {
      if i > 0 {
        assert us[i] == us[1..][i - 1];
        assert i + 1 < |us| ==> us[i + 1] == us[1..][i];
      }
    }
  }

  /** The decoder does not see the commas that the trimming leaves out. */
  lemma {:induction false} DropTrims(ls: seq<Lexeme>)
    ensures TokensOf(Texts(Drop(ls))) == Trimmed(TokensOf(Texts(ls)))
  {
    if ls != [] {
      DropTrims(ls[1..]);
      var us := TokensOf(Texts(ls));
      assert us[1..] == TokensOf(Texts(ls[1..]));
      MarkText(ls[0].text);
      if |ls| > 1 {
        MarkText(ls[1].text);
      }
      assert TokensOf(Texts([ls[0]] + Drop(ls[1..]))) == [us[0]] + TokensOf(Texts(Drop(ls[1..])));
    }
  }

  lemma MarkText(text: string)
    ensures TokenOf(text) == Punct(',') <==> text == ","
    ensures TokenOf(text) in [Punct('}'), Punct(']')] <==> Closer(text)
  {
  }

  // ---------------------------------------------------------------- which files are settings

  /** A settings file is accepted exactly when it is the text of one object with blanks and
      comments around its tokens and commas in front of closing marks. */
  lemma SettingsIffObjectText(c: string)
    ensures Settings(c).Some? <==> ObjectText(c)
  {
    if Settings(c).Some? {
      SettingsAreObjectText(c);
    }
    if ObjectText(c) {
      var members, us, gaps :| LaysOut(members, us, gaps, c);
      ObjectTextIsRead(members, us, gaps, c);
    }
  }

  lemma SettingsAreObjectText(c: string)
    requires Settings(c).Some?
    ensures ObjectText(c)
  {
    hide MaskComments, Entries, Scan;
    var ls := Lex(c, 0);
    var texts := Texts(ls);
    var us := TokensOf(texts);
    DropTrims(ls);
    EntriesIffWritten(Trimmed(us));
    var members :| Proper(Object(members)) && Written(Object(members)) == Trimmed(us);
    var gaps := TextIsLaid(c, 0);
    TextsOfTokens(texts);
    assert LaysOut(members, us, gaps, c);
  }

  /** Whatever stands between the tokens of an object, its members are read. */
  lemma ObjectTextIsRead(members: seq<Named>, us: seq<Token>, gaps: seq<seq<Filler>>, c: string)
    requires LaysOut(members, us, gaps, c)
    ensures Settings(c) == Some(EntriesOf(members))
  {
    hide MaskComments, Entries, Scan, Spaced, Trimmed;
    var ls := Lex(c, 0);
    WrittenSpaced(Object(members));
    TrimmedSpaced(us);
    LayoutRead(gaps, us, 0);
    TokensOfTexts(us);
    DropTrims(ls);
    NoPoison(us);
    FinishedIff(c, 0);
    ObjectReadsBack(members);
  }

  lemma NoPoison(us: seq<Token>)
    requires Spaced(us)
    ensures POISON !in TokenTexts(us)
  {
    forall i | 0 <= i < |us| ensures TokenTexts(us)[i] != POISON {
      assert Solid(us[i]);
      SolidToken(us[i]);
    }
  }
}
