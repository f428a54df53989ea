/** Tokens of a settings file with their offsets, and how they survive masking and splicing. */
module JsoncLex {
  import opened Basics
  import opened JsoncMask
  import opened Scanner

  predicate Mark(c: char) { c in "{}[]:," }

  predicate Stop(c: char) { Blank(c) || Mark(c) || c == '"' }

  /** A run of bytes that are neither blanks, marks, quotes nor the start of a comment. */
  function WordLen(s: string): (n: nat)
    ensures n <= |s| && (s != "" && !Stop(s[0]) && !Opener(s) ==> n > 0)
    ensures n == |s| || Stop(s[n]) || Opener(s[n..])
  {
    if s == "" || Stop(s[0]) || Opener(s) then 0 else 1 + WordLen(s[1..])
  }

  /** The length of the token at the start of a text that starts with one. */
  function TokenLen(s: string): (n: nat)
    requires s != "" && !Blank(s[0]) && !Opener(s)
    ensures 1 <= n <= |s|
  {
    if s[0] == '"' then 1 + BodyEnd(s[1..]) else if Mark(s[0]) then 1 else WordLen(s)
  }

  /** Blanks and finished comments are passed over; everything else is a token. */
  function TokenStep(s: string): Step {
    if s == "" then Stuck
    else if Blank(s[0]) then Skip(1)
    else if Opener(s) then (var n := PieceLen(s); if n.None? then Stuck else Skip(n.value))
    else Take(TokenLen(s))
  }

  /** The tokens of a text; no grammar accepts the mark of an unfinished comment. */
  function Lex(s: string, at: nat): seq<Lexeme> {
    Scan(TokenStep, s, at)
  }

  // ---------------------------------------------------------------- words and blanks

  /** A word followed by a byte that stops it. */
  lemma {:induction false} WordStable(s: string, t: string)
    requires t == "" || Stop(t[0])
    ensures WordLen(s[..WordLen(s)] + t) == WordLen(s)
  {
    var n := WordLen(s);
    var u := s[..n] + t;
    if n > 0 {
      WordStable(s[1..], t);
      assert u[1..] == s[1..][..n - 1] + t && u[0] == s[0];
    }
  }

  lemma {:induction false} WordMasked(s: string)
    ensures MaskComments(s).Some? <==> MaskComments(s[WordLen(s)..]).Some?
    ensures MaskComments(s).Some? ==> MaskComments(s).value == s[..WordLen(s)] + MaskComments(s[WordLen(s)..]).value
  {
    var n := WordLen(s);
    if n == 0 {
      assert s[0..] == s;
      if MaskComments(s).Some? {
        assert s[..0] + MaskComments(s).value == MaskComments(s).value;
      }
    } else {
      WordMasked(s[1..]);
      PlainMasked(s);
      WordSlices(s, n);
      if MaskComments(s).Some? {
        Grouped(MaskComments(s).value, [s[0]], s[1..][..n - 1], MaskComments(s[n..]).value);
      }
    }
  }

  lemma PlainMasked(s: string)
    requires s != "" && s[0] != '"' && !Opener(s)
    ensures MaskComments(s).Some? <==> MaskComments(s[1..]).Some?
    ensures MaskComments(s).Some? ==> MaskComments(s).value == [s[0]] + MaskComments(s[1..]).value
  {
    assert s[..1] == [s[0]];
  }

  lemma {:induction false} LexBlanks(b: string, t: string, at: nat)
    requires forall c <- b :: c == ' ' || c == '\n'
    ensures Lex(b + t, at) == Lex(t, at + |b|)
  {
    var s := b + t;
    if b == "" {
      assert s == t;
    } else {
      assert s[0] == b[0] && b[0] in b && s[1..] == b[1..] + t;
      assert forall c <- b[1..] :: c in b;
      LexBlanks(b[1..], t, at + 1);
    }
  }

  lemma LexToken(u: string, t: string, at: nat)
    requires u != "" && !Blank(u[0]) && !Opener(u + t) && TokenLen(u + t) == |u|
    ensures Lex(u + t, at) == [Lexeme(at, u)] + Lex(t, at + |u|)
  {
    assert (u + t)[..|u|] == u && (u + t)[|u|..] == t;
  }

  // ---------------------------------------------------------------- masking does not move tokens

  predicate StartsToken(s: string) { s != "" && !Blank(s[0]) && !Opener(s) }

  lemma LexStep(s: string, at: nat)
    requires StartsToken(s)
    ensures var n := TokenLen(s); Lex(s, at) == [Lexeme(at, s[..n])] + Lex(s[n..], at + n)
  {
  }

  ghost predicate MaskedTo(s: string, m: string) { MaskComments(s) == Some(m) }

  lemma {:induction false} BlanksPass(b: string, t: string)
    requires forall c <- b :: c == ' ' || c == '\n'
    ensures Passes(TokenStep, b + t, |b|)
  {
    if b != "" {
      assert (b + t)[0] == b[0] && b[0] in b && (b + t)[1..] == b[1..] + t;
      assert forall c <- b[1..] :: c in b;
      BlanksPass(b[1..], t);
    }
  }

  /** What masking does at the start of a text. */
  lemma MaskedPiece(s: string, m: string)
    requires s != "" && MaskedTo(s, m)
    ensures !StartsToken(s) ==>
              var n := PieceLen(s).value;
              && MaskComments(s[n..]).Some?
              && m == (if Opener(s) then Blanked(s[..n]) else s[..n]) + MaskComments(s[n..]).value
    ensures StartsToken(s) ==>
              var n := TokenLen(s);
              MaskComments(s[n..]).Some? && m == s[..n] + MaskComments(s[n..]).value
  {
    if StartsToken(s) && s[0] != '"' && !Mark(s[0]) {
      WordMasked(s);
    }
  }

  lemma MaskedToken(s: string, m: string)
    requires StartsToken(s) && MaskedTo(s, m)
    ensures TokenStep(m) == TokenStep(s)
  {
    var n := TokenLen(s);
    MaskedPiece(s, m);
    var rest := MaskComments(s[n..]).value;
    assert m[0] == s[0];
    if s[0] == '"' {
      StringStays(s, rest);
    } else if !Mark(s[0]) {
      MaskedStops(s[n..]);
      WordStays(s, rest);
    }
  }

  lemma MaskMirrors(s: string, m: string)
    ensures Mirrors(TokenStep, MaskedTo, s, m)
  {
    if MaskedTo(s, m) && s != "" {
      MaskedPiece(s, m);
      if StartsToken(s) {
        MaskedToken(s, m);
        Halves(s[..TokenLen(s)], MaskComments(s[TokenLen(s)..]).value);
      } else {
        var n := PieceLen(s).value;
        var first := if Opener(s) then Blanked(s[..n]) else s[..n];
        Halves(first, MaskComments(s[n..]).value);
        if Opener(s) {
          BlanksPass(first, MaskComments(s[n..]).value);
        } else {
          assert m[0] == s[0] && Passes(TokenStep, m[1..], 0);
        }
      }
    }
  }

  lemma Halves(a: string, b: string)
    ensures (a + b)[..|a|] == a && (a + b)[|a|..] == b
  {
  }

  /** Masking comments leaves every token where it was. */
  lemma LexMasked(s: string, at: nat)
    requires MaskComments(s).Some?
    ensures Lex(MaskComments(s).value, at) == Lex(s, at)
  {
    forall x: string, y: string ensures Mirrors(TokenStep, MaskedTo, x, y) {
      MaskMirrors(x, y);
    }
    ScanMirrored(TokenStep, MaskedTo, s, MaskComments(s).value, at);
  }

  lemma MaskedStops(s: string)
    requires MaskComments(s).Some? && (s == "" || Stop(s[0]) || Opener(s))
    ensures MaskComments(s).value == "" || Stop(MaskComments(s).value[0])
  {
    if s != "" {
      CommentsExactly(s, 0);
      assert Opener(s) ==> InComment(s, 0);
    }
  }

  lemma WordStays(s: string, t: string)
    requires s != "" && !Stop(s[0]) && !Opener(s) && (t == "" || Stop(t[0]))
    ensures StartsToken(s[..WordLen(s)] + t) && TokenLen(s[..WordLen(s)] + t) == WordLen(s)
  {
    WordStable(s, t);
    WordIsNoOpener(s, t);
  }

  lemma WordIsNoOpener(s: string, t: string)
    requires s != "" && !Stop(s[0]) && !Opener(s) && (t == "" || Stop(t[0]))
    ensures !Opener(s[..WordLen(s)] + t)
  {
    var n := WordLen(s);
    assert n == 1 || (s[..n] + t)[1] == s[1];
  }

  lemma CleanRest(s: string)
    requires s != "" && Clean(s)
    ensures PieceLen(s).Some? && !Opener(s) && Clean(s[PieceLen(s).value..])
  {
    var n := PieceLen(s).value;
    assert !InComment(s, 0);
    assert s[n..] == MaskComments(s).value[n..] == MaskComments(s[n..]).value;
    forall i: int ensures !InComment(s[n..], i) {
      assert !InComment(s, i + n);
    }
  }

  lemma {:induction false} CleanAfterWord(s: string)
    requires Clean(s)
    ensures Clean(s[WordLen(s)..])
    ensures WordLen(s) < |s| ==> Stop(s[WordLen(s)])
  {
    var n := WordLen(s);
    if s != "" {
      CleanRest(s);
    }
    if n == 0 {
      assert s[0..] == s;
    } else {
      CleanAfterWord(s[1..]);
      assert s[1..][n - 1..] == s[n..];
    }
  }

  lemma {:induction false} CommasAfterWord(s: string)
    ensures MaskCommas(s) == s[..WordLen(s)] + MaskCommas(s[WordLen(s)..])
  {
    var n := WordLen(s);
    if n == 0 {
      assert s[0..] == s && s[..0] + MaskCommas(s) == MaskCommas(s);
    } else {
      CommasAfterWord(s[1..]);
      PlainFirst(s);
      WordSlices(s, n);
      Grouped(MaskCommas(s), [s[0]], s[1..][..n - 1], MaskCommas(s[n..]));
    }
  }

  lemma PlainFirst(s: string)
    requires s != "" && s[0] != '"' && s[0] != ','
    ensures MaskCommas(s) == [s[0]] + MaskCommas(s[1..])
  {
  }

  lemma Grouped(whole: string, a: string, b: string, c: string)
    requires whole == a + (b + c)
    ensures whole == (a + b) + c
  {
  }

  lemma WordSlices(s: string, n: nat)
    requires 0 < n <= |s|
    ensures s[1..][n - 1..] == s[n..] && s[..n] == [s[0]] + s[1..][..n - 1]
  {
  }

  /** The byte after the blanks is the first byte of the first token. */
  lemma {:induction false} FirstToken(s: string, at: nat)
    requires Clean(s)
    ensures NextByte(s).None? <==> Lex(s, at) == []
    ensures NextByte(s).Some? ==> Lex(s, at)[0].text != "" && Lex(s, at)[0].text[0] == NextByte(s).value
    ensures NextByte(s).Some? && Mark(NextByte(s).value) ==> |Lex(s, at)[0].text| == 1
  {
    if s != "" {
      CleanRest(s);
      if Blank(s[0]) {
        FirstToken(s[1..], at + 1);
      }
    }
  }

  lemma TrailsIff(s: string, at: nat)
    requires s != "" && s[0] == ',' && Clean(s)
    ensures ClosesNext(s[1..]) <==> Trails(Texts(Lex(s, at)))
    ensures Lex(s, at) == [Lexeme(at, ",")] + Lex(s[1..], at + 1)
  {
    CleanRest(s);
    FirstToken(s[1..], at + 1);
    assert s[..1] == ",";
    var ls := Lex(s[1..], at + 1);
    assert Lex(s, at)[0].text == "," && Lex(s, at)[1..] == ls;
    if ls != [] {
      assert Texts(Lex(s, at))[1] == ls[0].text;
      OneByte(ls[0].text, NextByte(s[1..]).value);
    }
  }

  lemma OneByte(t: string, c: char)
    requires t != "" && t[0] == c && (Mark(c) ==> |t| == 1)
    ensures Closer(t) <==> c == '}' || c == ']'
  {
  }

  ghost predicate CommasGone(s: string, m: string) { Clean(s) && m == MaskCommas(s) }

  lemma CommasThin(s: string, m: string)
    ensures Thins(TokenStep, CommasGone, s, m)
  {
    if CommasGone(s, m) && s != "" {
      CleanRest(s);
      if Blank(s[0]) {
        assert m[1..] == MaskCommas(s[1..]) && m[0] == s[0] && Passes(TokenStep, m[1..], 0);
      } else if s[0] == ',' {
        CommaThins(s, m);
      } else {
        CommasAfterToken(s);
        Halves(s[..TokenLen(s)], MaskCommas(s[TokenLen(s)..]));
        FirstIsNoComma(s);
      }
    }
  }

  lemma CommaThins(s: string, m: string)
    requires CommasGone(s, m) && s != "" && s[0] == ',' && Clean(s[1..])
    ensures Thins(TokenStep, CommasGone, s, m)
  {
    CleanRest(s);
    TrailsIff(s, 0);
    assert m[1..] == MaskCommas(s[1..]);
    if ClosesNext(s[1..]) {
      assert m[0] == ' ' && Passes(TokenStep, m[1..], 0);
    } else {
      assert m[0] == ',' && m[..1] == s[..1];
    }
  }

  lemma FirstIsNoComma(s: string)
    requires StartsToken(s) && s[0] != ','
    ensures !Trails(Texts(Lex(s, 0)))
  {
    LexStep(s, 0);
    assert Texts(Lex(s, 0))[0] == s[..TokenLen(s)];
    assert s[..TokenLen(s)][0] != ',';
  }

  /** Masking trailing commas removes just those tokens and moves no other. */
  lemma LexCommas(s: string, at: nat)
    requires Clean(s)
    ensures Lex(MaskCommas(s), at) == Drop(Lex(s, at))
  {
    forall x: string, y: string ensures Thins(TokenStep, CommasGone, x, y) {
      CommasThin(x, y);
    }
    ScanThinned(TokenStep, CommasGone, s, MaskCommas(s), at);
  }

  lemma CommasAfterToken(s: string)
    requires StartsToken(s) && Clean(s) && s[0] != ','
    ensures var n := TokenLen(s);
            var rest := MaskCommas(s[n..]);
            && Clean(s[n..]) && MaskCommas(s) == s[..n] + rest
            && StartsToken(s[..n] + rest) && TokenLen(s[..n] + rest) == n
  {
    CleanRest(s);
    var n := TokenLen(s);
    var rest := MaskCommas(s[n..]);
    if s[0] == '"' {
      StringStays(s, rest);
    } else if Mark(s[0]) {
      assert MaskCommas(s) == s[..1] + rest;
    } else {
      CleanAfterWord(s);
      CommasAfterWord(s);
      if rest != "" {
        CommasExactly(s[n..], 0);
      }
      WordStays(s, rest);
    }
  }

  lemma StringStays(s: string, t: string)
    requires s != "" && s[0] == '"' && |t| == |s| - TokenLen(s)
    ensures StartsToken(s[..TokenLen(s)] + t) && TokenLen(s[..TokenLen(s)] + t) == TokenLen(s)
  {
    var n := TokenLen(s);
    if BodyCloses(s[1..]) {
      BodyStable(s[1..], t);
      assert (s[..n] + t)[1..] == s[1..][..n - 1] + t;
    } else {
      OpenBodyIsRest(s[1..]);
      assert s[..n] + t == s;
    }
  }

  /** What the decoder sees has the file's own offsets. */
  lemma DecoderOffsets(s: string)
    requires MaskComments(s).Some?
    ensures Lex(MaskCommas(MaskComments(s).value), 0) == Drop(Lex(s, 0))
  {
    MaskIsClean(s);
    LexCommas(MaskComments(s).value, 0);
    LexMasked(s, 0);
  }

  lemma FinishedToken(s: string)
    requires StartsToken(s)
    ensures MaskComments(s).Some? <==> MaskComments(s[TokenLen(s)..]).Some?
    ensures s[..TokenLen(s)] != POISON
  {
    if s[0] != '"' && !Mark(s[0]) {
      WordMasked(s);
    }
    if TokenLen(s) == 2 {
      assert s[..2][0] == s[0] && s[..2][1] == s[1];
    }
  }

  lemma PoisonCons(l: Lexeme, ls: seq<Lexeme>)
    ensures POISON in Texts([l] + ls) <==> l.text == POISON || POISON in Texts(ls)
  {
    var ts := Texts([l] + ls);
    assert ts == [l.text] + Texts(ls);
  }

  lemma {:induction false} FinishedIff(s: string, at: nat)
    ensures MaskComments(s).Some? <==> POISON !in Texts(Lex(s, at))
  {
    if StartsToken(s) {
      var n := TokenLen(s);
      FinishedIff(s[n..], at + n);
      FinishedStep(s, at);
    } else if s != "" {
      FinishedGap(s, at);
      if PieceLen(s).Some? {
        FinishedIff(s[PieceLen(s).value..], at + PieceLen(s).value);
      }
    }
  }

  lemma FinishedStep(s: string, at: nat)
    requires StartsToken(s)
    requires var n := TokenLen(s); MaskComments(s[n..]).Some? <==> POISON !in Texts(Lex(s[n..], at + n))
    ensures MaskComments(s).Some? <==> POISON !in Texts(Lex(s, at))
  {
    var n := TokenLen(s);
    FinishedToken(s);
    LexStep(s, at);
    PoisonCons(Lexeme(at, s[..n]), Lex(s[n..], at + n));
  }

  lemma FinishedGap(s: string, at: nat)
    requires s != "" && (Blank(s[0]) || Opener(s))
    ensures PieceLen(s).None? ==> MaskComments(s).None? && POISON in Texts(Lex(s, at))
    ensures PieceLen(s).Some? ==>
              var n := PieceLen(s).value;
              && Lex(s, at) == Lex(s[n..], at + n)
              && (MaskComments(s).Some? <==> MaskComments(s[n..]).Some?)
  {
    if PieceLen(s).None? {
      assert Texts(Lex(s, at))[0] == POISON;
    }
  }
}
