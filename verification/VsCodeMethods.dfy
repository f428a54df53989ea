/** The settings rewriter itself, byte by byte, against its specification. */
module VsCodeMethods {
  import opened Basics
  import opened JsoncMask
  import opened JsoncLex
  import opened JsonGrammar
  import opened JsonLayout
  import opened JsoncSplice
  import opened Scanner
  import opened VsCodeSettings
  import opened VsCodeRewrite
  import opened VsCodeInsert
  import opened VsCodeInterpreter

  // ---------------------------------------------------------------- bytes around tokens

  lemma CleanAfterToken(s: string)
    requires StartsToken(s) && Clean(s)
    ensures Clean(s[TokenLen(s)..])
  {
    CleanRest(s);
    if s[0] != '"' && !Mark(s[0]) {
      CleanAfterWord(s);
    }
  }

  lemma CleanStep(s: string)
    requires s != "" && Clean(s)
    ensures TokenStep(s).Skip? ==> TokenStep(s) == Skip(1) && Blank(s[0]) && Clean(s[1..])
    ensures !TokenStep(s).Skip? ==> StartsToken(s) && TokenStep(s) == Take(TokenLen(s)) && Clean(s[TokenLen(s)..])
  {
    CleanRest(s);
    if !Blank(s[0]) {
      CleanAfterToken(s);
    }
  }

  lemma CleanPasses()
    ensures PassesBlanks(TokenStep, Clean, Blank)
  {
    forall x: string ensures PassesAt(TokenStep, Clean, Blank, x) {
      if x != "" && Clean(x) {
        CleanStep(x);
      }
    }
    forall x: string | Clean(x) && x != "" ensures Steps(TokenStep, x) {
      CleanStep(x);
    }
  }

  lemma {:induction false} BodyQuoted(s: string)
    requires BodyCloses(s)
    ensures 0 < BodyEnd(s) && s[BodyEnd(s) - 1] == '"'
  {
    if s[0] == '\\' {
      BodyQuoted(s[2..]);
    } else if s[0] != '"' {
      BodyQuoted(s[1..]);
    }
  }

  lemma {:induction false} WordBytes(s: string, i: nat)
    requires i < WordLen(s)
    ensures !Stop(s[i])
  {
    if i > 0 {
      WordBytes(s[1..], i - 1);
    }
  }

  /** The last byte of a token that others follow tells whether it is an opening brace or a comma. */
  lemma TokenEnds(s: string)
    requires StartsToken(s) && TokenLen(s) < |s|
    ensures var t := s[..TokenLen(s)];
            !Blank(t[|t| - 1]) && (t[|t| - 1] == '{' <==> t == "{") && (t[|t| - 1] == ',' <==> t == ",")
  {
    var n := TokenLen(s);
    if s[0] == '"' {
      if BodyCloses(s[1..]) {
        BodyQuoted(s[1..]);
      } else {
        OpenBodyIsRest(s[1..]);
      }
    } else if !Mark(s[0]) {
      WordBytes(s, n - 1);
      WordBytes(s, 0);
    }
  }

  predicate EndsLike(b: char, text: string) {
    !Blank(b) && (b == '{' <==> text == "{") && (b == ',' <==> text == ",")
  }

  /** The last byte that is not blank. */
  function LastSolid(s: string): Option<char> {
    if s == "" then None else if Blank(s[|s| - 1]) then LastSolid(s[..|s| - 1]) else Some(s[|s| - 1])
  }

  lemma {:induction false} LastSolidAt(s: string, e: nat)
    requires 0 < e <= |s| && !Blank(s[e - 1]) && forall i | e <= i < |s| :: Blank(s[i])
    ensures LastSolid(s) == Some(s[e - 1])
    decreases |s|
  {
    if e < |s| {
      LastSolidAt(s[..|s| - 1], e);
    }
  }

  /** Around the closing brace: only blanks behind it, and in front of it the end of the
      token before it. */
  lemma AroundClosing(c: string, es: seq<Entry>)
    requires Reads(c, es)
    ensures Lex(c, 0) != [] && |Raw(c)| > 1
    ensures var m, at := MaskComments(c).value, Closing(c);
            && at < |m| && m[at] == '}' && (forall i | at < i < |m| :: m[i] != '}')
            && LastSolid(m[..at]).Some? && EndsLike(LastSolid(m[..at]).value, Raw(c)[|Raw(c)| - 2])
  {
    RawShape(c, es);
    MaskIsClean(c);
    LexMasked(c, 0);
    FinishedIff(c, 0);
    ClosingByte(MaskComments(c).value, Lex(c, 0));
    TokenBefore(MaskComments(c).value, Lex(c, 0));
  }

  lemma ClosingByte(m: string, ls: seq<Lexeme>)
    requires Clean(m) && Lex(m, 0) == ls && ls != [] && Texts(ls)[|ls| - 1] == "}"
    ensures var at := ls[|ls| - 1].start;
            at < |m| && m[at] == '}' && forall i | at < i < |m| :: m[i] != '}'
  {
    hide Scan;
    hide PassesBlanks;
    hide MaskComments;
    var k := |ls| - 1;
    var at := ls[k].start;
    CleanPasses();
    ScanText(TokenStep, m, 0, k);
    BehindToken(TokenStep, Clean, Blank, m, k);
    assert m[at..at + 1][0] == m[at];
  }

  lemma TokenBefore(m: string, ls: seq<Lexeme>)
    requires Clean(m) && Lex(m, 0) == ls && |ls| > 1 && POISON !in Texts(ls)
    ensures var at := ls[|ls| - 1].start;
            at <= |m| && LastSolid(m[..at]).Some? && EndsLike(LastSolid(m[..at]).value, Texts(ls)[|ls| - 2])
  {
    hide Scan;
    hide PassesBlanks;
    hide MaskComments;
    var k := |ls| - 2;
    assert Texts(ls)[k] == ls[k].text;
    CleanPasses();
    BehindToken(TokenStep, Clean, Blank, m, k);
    TokenLast(m, ls, k);
    var at, e := ls[k + 1].start, ls[k].End();
    assert m[..at][e - 1] == m[e - 1];
    LastSolidAt(m[..at], e);
  }

  lemma TokenLast(m: string, ls: seq<Lexeme>, k: nat)
    requires Lex(m, 0) == ls && k + 1 < |ls| && ls[k].text != POISON
    ensures 0 < ls[k].End() <= |m| && EndsLike(m[ls[k].End() - 1], ls[k].text)
  {
    hide Scan;
    TokenFollowed(TokenStep, m, ls, k);
    ScanTakes(TokenStep, m, 0, ls, k, ls[k].start);
    TakenEnds(m, ls[k].start, ls[k].text);
  }

  lemma TakenEnds(m: string, at: nat, text: string)
    requires at + |text| < |m| && TokenStep(m[at..]) == Take(|text|) && m[at..at + |text|] == text
    ensures text != "" && EndsLike(m[at + |text| - 1], text)
  {
    var s := m[at..];
    assert s[..|text|] == text && s[|text| - 1] == m[at + |text| - 1];
    TokenEnds(s);
  }

  // ---------------------------------------------------------------- the methods

  /** `bytes.LastIndexByte` */
  method LastIndexByte(s: string, b: char) returns (i: int)
    ensures -1 <= i < |s| && (i >= 0 ==> s[i] == b) && forall j | i < j < |s| :: s[j] != b
  {
    i := |s| - 1;
    while i >= 0 && s[i] != b
      invariant -1 <= i < |s| && forall j | i < j < |s| :: s[j] != b
    {
      i := i - 1;
    }
  }

  /** The last byte that `bytes.TrimSpace` keeps; readable settings have no other blanks there. */
  method LastByte(s: string) returns (b: Option<char>)
    ensures b == LastSolid(s)
  {
    var e := |s|;
    assert s[..e] == s;
    while e > 0 && Blank(s[e - 1])
      invariant 0 <= e <= |s| && LastSolid(s[..e]) == LastSolid(s)
    {
      assert s[..e][..e - 1] == s[..e - 1];
      e := e - 1;
    }
    return if e > 0 then Some(s[e - 1]) else None;
  }

  /** `replaceVSCodeInterpreter` */
  method ReplaceInterpreter(contents: string, masked: string, es: seq<Entry>, codec: Codec, interpreter: string)
      returns (updated: string, changed: bool)
    requires Reads(contents, es) && masked == MaskCommas(MaskComments(contents).value)
    requires Literal(codec.quote(interpreter))
    ensures InOrder(0, StaleSpans(contents, es, 0, codec, interpreter), |contents|)
    ensures updated == Splice(contents, 0, StaleSpans(contents, es, 0, codec, interpreter), codec.quote(interpreter))
    ensures changed <==> StaleSpans(contents, es, 0, codec, interpreter) != []
  {
    DecoderOffsets(contents);
    var tokens := Lex(masked, 0);
    var replacement := codec.quote(interpreter);
    var output: string, copied: nat := "", 0;
    ghost var all := StaleSpans(contents, es, 0, codec, interpreter);
    CopyNone(contents, es, codec, interpreter, replacement);
    for k := 0 to |es|
      invariant Copied(contents, all, StaleSpans(contents, es, k, codec, interpreter), replacement, output, copied)
    {
      StaleStep(contents, es, k, codec, interpreter);
      if !Names(codec, es[k]) || Decoded(codec, es[k].value) == Some(interpreter) {
        continue;
      }
      var end := tokens[ValueEnd(es, k)].End();
      var start := tokens[ValueAt(es, k)].start;
      CopyOne(contents, all, (start, end), StaleSpans(contents, es, k + 1, codec, interpreter), replacement, output,
          copied);
      output := output + contents[copied..start];
      output := output + replacement;
      copied := end;
    }
    CopyAll(contents, all, replacement, output, copied);
    if copied == 0 {
      return contents, false;
    }
    return output + contents[copied..], true;
  }

  lemma CopyNone(c: string, es: seq<Entry>, codec: Codec, interpreter: string, r: string)
    requires Reads(c, es)
    ensures var all := StaleSpans(c, es, 0, codec, interpreter); Copied(c, all, all, r, "", 0)
  {
    if es != [] {
      SpanInside(c, es, 0);
    }
    StaleInOrder(c, es, 0, codec, interpreter, 0);
    var all := StaleSpans(c, es, 0, codec, interpreter);
    assert "" + Splice(c, 0, all, r) == Splice(c, 0, all, r);
  }

  lemma CopyAll(c: string, all: seq<(nat, nat)>, r: string, output: string, copied: nat)
    requires Copied(c, all, [], r, output, copied)
    ensures copied <= |c| && Splice(c, 0, all, r) == if copied == 0 then c else output + c[copied..]
    ensures copied == 0 <==> all == []
  {
    assert c[0..] == c && "" + c == c;
  }

  /** The output so far and the rest of the ranges make up the whole result. */
  ghost predicate Copied(
      c: string, all: seq<(nat, nat)>, rest: seq<(nat, nat)>, r: string, output: string, copied: nat)
  {
    && InOrder(0, all, |c|) && InOrder(copied, rest, |c|)
    && output + Splice(c, copied, rest, r) == Splice(c, 0, all, r)
    && (copied == 0 <==> all == rest) && (copied == 0 ==> output == "") && |rest| <= |all|
  }

  lemma CopyOne(c: string, all: seq<(nat, nat)>, span: (nat, nat), rest: seq<(nat, nat)>, r: string, output: string,
        copied: nat)
    requires Copied(c, all, [span] + rest, r, output, copied)
    ensures copied <= span.0 <= |c| && Copied(c, all, rest, r, output + c[copied..span.0] + r, span.1)
  {
    assert ([span] + rest)[1..] == rest;
    InOrderEnds(copied, [span] + rest, |c|);
    Regroup(output, c[copied..span.0] + r, Splice(c, span.1, rest, r));
    Regroup(output, c[copied..span.0], r);
  }

  method KeyExists(codec: Codec, es: seq<Entry>) returns (known: bool)
    ensures known <==> Known(codec, es)
  {
    for i := 0 to |es|
      invariant forall j | 0 <= j < i :: !Names(codec, es[j])
    {
      if Names(codec, es[i]) {
        return true;
      }
    }
    return false;
  }

  /** `setVSCodeInterpreter` */
  method SetInterpreter(contents: string, codec: Codec, interpreter: string) returns (r: Option<(string, bool)>)
    requires Literal(codec.quote(interpreter))
    ensures r == Updated(contents, codec, interpreter)
    ensures r.Some? <==> ObjectText(contents)
  {
    SettingsIffObjectText(contents);
    var masked := MaskCommentsInPlace(contents);
    if masked.None? {
      return None;
    }
    DecoderOffsets(contents);
    var decoded := MaskCommasInPlace(masked.value);
    var settings := Entries(TokensOf(Texts(Lex(decoded, 0))));
    if settings.None? {
      return None;
    }
    var known := KeyExists(codec, settings.value);
    if known {
      var updated, changed := ReplaceInterpreter(contents, decoded, settings.value, codec, interpreter);
      return Some((updated, changed));
    }
    AroundClosing(contents, settings.value);
    var closing := LastIndexByte(masked.value, '}');
    assert closing == Closing(contents);
    var before := LastByte(masked.value[..closing]);
    var separator := if before == Some('{') || before == Some(',') then "" else ",";
    assert separator == Separator(contents);
    return Some((contents[..closing] + Addition(separator, codec.quote(interpreter)) + contents[closing..], true));
  }
}
