/** Adding the interpreter setting to a file that does not have it. */
module VsCodeInsert {
  import opened Basics
  import opened JsoncMask
  import opened JsoncLex
  import opened JsoncSplice
  import opened JsonGrammar
  import opened Scanner
  import opened VsCodeSettings
  import opened VsCodeRewrite

  /** All tokens of a file, trailing commas included. */
  function Raw(c: string): seq<string> { Texts(Lex(c, 0)) }

  // ---------------------------------------------------------------- tokens of added text

  lemma RawBlanks(b: string, t: string)
    requires forall c <- b :: c == ' ' || c == '\n'
    ensures Raw(b + t) == Raw(t)
  {
    LexBlanks(b, t, 0);
    TextsShift(TokenStep, t, 0 + |b|, 0);
  }

  lemma RawLiteral(r: string, t: string)
    requires Literal(r)
    ensures Raw(r + t) == [r] + Raw(t)
  {
    LexLiteral(r, t, 0);
    TextsShift(TokenStep, t, 0 + |r|, 0);
    Joined([Lexeme(0, r)], Lex(t, |r|));
    assert Texts([Lexeme(0, r)]) == [r];
  }

  lemma RawMark(c: char, t: string)
    requires Mark(c)
    ensures Raw([c] + t) == [[c]] + Raw(t)
  {
    assert ([c] + t)[0] == c;
    LexToken([c], t, 0);
    TextsShift(TokenStep, t, 1, 0);
    Joined([Lexeme(0, [c])], Lex(t, 1));
    assert Texts([Lexeme(0, [c])]) == [[c]];
  }

  function Addition(separator: string, r: string): string {
    separator + "\n  " + KEY_LITERAL + ": " + r + "\n"
  }

  function AddedTexts(separator: string, r: string): seq<string> {
    (if separator == "" then [] else [separator]) + [KEY_LITERAL, ":", r]
  }

  lemma KeyIsLiteral()
    ensures Literal(KEY_LITERAL)
  {
    forall c <- KEY ensures Plain(c) {
      KeyIsPlain(c);
    }
    QuotedPlain(KEY);
  }

  predicate Plain(c: char) { c >= ' ' && c != '"' && c != '\\' }

  lemma KeyIsPlain(c: char)
    requires c in KEY
    ensures Plain(c)
  {
  }

  lemma QuotedPlain(s: string)
    requires forall c <- s :: Plain(c)
    ensures Literal("\"" + s + "\"")
  {
    PlainBody(s);
    var t := "\"" + s + "\"";
    assert t[0] == '"' && t[1..] == s + "\"";
  }

  lemma {:induction false} PlainBody(s: string)
    requires forall c <- s :: Plain(c)
    ensures Body(s + "\"")
  {
    var t := s + "\"";
    if s != "" {
      assert t[0] == s[0] && s[0] in s && t[1..] == s[1..] + "\"";
      assert forall c <- s[1..] :: c in s;
      PlainBody(s[1..]);
    }
  }

  lemma RawSetting(k: string, r: string, rest: string)
    requires Literal(k) && Literal(r)
    ensures Raw("\n  " + (k + (":" + (" " + (r + ("\n" + rest)))))) == [k, ":", r] + Raw(rest)
  {
    var a := ":" + (" " + (r + ("\n" + rest)));
    RawValue(r, rest);
    RawLiteral(k, a);
    RawBlanks("\n  ", k + a);
    assert [k] + ([":", r] + Raw(rest)) == [k, ":", r] + Raw(rest);
  }

  lemma RawValue(r: string, rest: string)
    requires Literal(r)
    ensures Raw(":" + (" " + (r + ("\n" + rest)))) == [":", r] + Raw(rest)
  {
    var e := "\n" + rest;
    RawBlanks("\n", rest);
    RawLiteral(r, e);
    RawBlanks(" ", r + e);
    RawMark(':', " " + (r + e));
    assert [":"] + ([r] + Raw(rest)) == [":", r] + Raw(rest);
  }

  lemma AdditionShape(separator: string, r: string, rest: string)
    ensures Addition(separator, r) + rest ==
              separator + ("\n  " + (KEY_LITERAL + (":" + (" " + (r + ("\n" + rest))))))
  {
    var k, sp := KEY_LITERAL, separator + "\n  ";
    assert ": " == ":" + " ";
    Regroup(sp + k + ": " + r, "\n", rest);
    Regroup(sp + k + ": ", r, "\n" + rest);
    Regroup(sp + k, ": ", r + ("\n" + rest));
    Regroup(":", " ", r + ("\n" + rest));
    Regroup(sp, k, ":" + (" " + (r + ("\n" + rest))));
    Regroup(separator, "\n  ", k + (":" + (" " + (r + ("\n" + rest)))));
  }

  lemma RawAddition(separator: string, r: string, rest: string)
    requires Literal(r) && (separator == "" || separator == ",")
    ensures Raw(Addition(separator, r) + rest) == AddedTexts(separator, r) + Raw(rest)
    ensures Stop((Addition(separator, r) + rest)[0])
  {
    AdditionShape(separator, r, rest);
    KeyIsLiteral();
    RawSetting(KEY_LITERAL, r, rest);
    var tail := "\n  " + (KEY_LITERAL + (":" + (" " + (r + ("\n" + rest)))));
    if separator == "" {
      assert "" + tail == tail;
    } else {
      RawMark(',', tail);
      Regroup([","], [KEY_LITERAL, ":", r], Raw(rest));
    }
  }

  // ---------------------------------------------------------------- the place before the closing brace

  function Closing(c: string): nat
    requires Lex(c, 0) != []
  {
    Lex(c, 0)[|Lex(c, 0)| - 1].start
  }

  function Inserted(c: string, separator: string, r: string): string
    requires Lex(c, 0) != [] && Closing(c) <= |c|
  {
    c[..Closing(c)] + Addition(separator, r) + c[Closing(c)..]
  }

  lemma InsertedRaw(c: string, separator: string, r: string)
    requires Literal(r) && (separator == "" || separator == ",") && Lex(c, 0) != []
    ensures Closing(c) <= |c|
    ensures var n := |Raw(c)| - 1;
            Raw(Inserted(c, separator, r)) == Raw(c)[..n] + (AddedTexts(separator, r) + Raw(c)[n..])
  {
    var n := |Lex(c, 0)| - 1;
    ScanReaches(TokenStep, c, 0, n);
    var rest := c[Closing(c)..];
    RawAddition(separator, r, rest);
    TokensCutCleanly(Addition(separator, r) + rest);
    TextsInserted(TokenStep, c, n, Closing(c), Addition(separator, r) + rest);
    Regroup(c[..Closing(c)], Addition(separator, r), rest);
  }

  // ---------------------------------------------------------------- dropped commas, in two parts

  /** What is kept of the tokens in front of a token that closes a container, or of another. */
  function Kept(p: seq<string>, closes: bool): seq<string> {
    if p == [] then []
    else if (if |p| > 1 then Trails(p) else p[0] == "," && closes) then Kept(p[1..], closes)
    else [p[0]] + Kept(p[1..], closes)
  }

  lemma {:induction false} KeptSplit(p: seq<string>, w: seq<string>)
    requires w != []
    ensures DropTexts(p + w) == Kept(p, Closer(w[0])) + DropTexts(w)
  {
    var u := p + w;
    if p == [] {
      assert u == w;
    } else {
      KeptSplit(p[1..], w);
      assert u[1..] == p[1..] + w && u[0] == p[0];
      assert |p| > 1 ==> u[1] == p[1];
      assert |p| == 1 ==> u[1] == w[0];
      Regroup([p[0]], Kept(p[1..], Closer(w[0])), DropTexts(w));
    }
  }

  lemma {:induction false} KeptLast(p: seq<string>)
    requires p != []
    ensures p[|p| - 1] == "," ==> Kept(p, false) == Kept(p, true) + [","]
    ensures p[|p| - 1] != "," ==>
              Kept(p, false) == Kept(p, true) != [] && Kept(p, true)[|Kept(p, true)| - 1] == p[|p| - 1]
  {
    if |p| == 1 {
      assert Kept([], false) == [] && p == [p[0]];
    } else {
      KeptLast(p[1..]);
      Regroup([p[0]], Kept(p[1..], true), [","]);
    }
  }

  lemma {:induction false} KeptSome(p: seq<string>)
    requires p != []
    ensures Kept(p, false) != []
    ensures p[0] == "," && Kept(p, false)[0] != "," ==> Closer(Kept(p, false)[0])
    ensures p[0] != "," ==> Kept(p, false)[0] == p[0]
  {
    if |p| > 1 {
      KeptSome(p[1..]);
    }
  }

  /** Only the brace and one dropped comma leave a brace alone. */
  lemma OnlyBrace(p: seq<string>)
    requires p != [] && p[|p| - 1] == ","
    ensures Kept(p, true) == ["{"] <==> p == ["{", ","]
  {
    KeptLast(p);
    KeptSome(p);
    if Kept(p, true) == ["{"] {
      assert Kept(p, false) == ["{", ","];
      if |p| > 1 {
        assert Kept(p, false)[1..] == Kept(p[1..], false);
        RestIsComma(p[1..]);
        assert p == [p[0]] + p[1..];
      }
    }
    if p == ["{", ","] {
      assert p[1..] == [","] && Kept([","], true) == Kept([], true);
    }
  }

  lemma RestIsComma(q: seq<string>)
    requires q != [] && Kept(q, false) == [","]
    ensures q == [","]
  {
    KeptSome(q);
    if |q| > 1 {
      KeptSome(q[1..]);
    }
  }

  // ---------------------------------------------------------------- the members afterwards

  /** No comma after the opening brace or after a trailing comma. */
  function Separator(c: string): string {
    var n := |Raw(c)|;
    if n > 1 && (Raw(c)[n - 2] == "{" || Raw(c)[n - 2] == ",") then "" else ","
  }

  lemma TokensConcat(a: seq<string>, b: seq<string>)
    ensures TokensOf(a + b) == TokensOf(a) + TokensOf(b)
  {
  }

  lemma TokensAreDropped(c: string)
    ensures Tokens(c) == TokensOf(DropTexts(Raw(c)))
  {
    TextsOfDrop(Lex(c, 0));
  }

  lemma SameToken(text: string, c: char)
    requires TokenOf(text) == Punct(c)
    ensures text == [c]
  {
  }

  /** The last token of a readable file is its closing brace. */
  lemma RawShape(c: string, es: seq<Entry>)
    requires Reads(c, es)
    ensures var n := |Raw(c)|;
            && n >= 2 && Raw(c)[n - 1] == "}"
            && TokensOf(Kept(Raw(c)[..n - 1], true)) + [Punct('}')] == ObjectTokens(es)
  {
    ReadTokens(c, es);
    TokensAreDropped(c);
    ObjectEnds(es);
    var u := Raw(c);
    var n := |u|;
    assert u != [];
    assert u == u[..n - 1] + [u[n - 1]];
    KeptSplit(u[..n - 1], [u[n - 1]]);
    TokensConcat(Kept(u[..n - 1], Closer(u[n - 1])), [u[n - 1]]);
    SameToken(u[n - 1], '}');
  }

  lemma ObjectEnds(es: seq<Entry>)
    ensures |ObjectTokens(es)| >= 2 && ObjectTokens(es)[|ObjectTokens(es)| - 1] == Punct('}')
    ensures ObjectTokens(es)[0] == Punct('{')
  {
    if es != [] {
      ListEnds(es);
    }
  }

  lemma {:induction false} ListEnds(es: seq<Entry>)
    requires es != []
    ensures |ListTokens(es)| >= 1 && ListTokens(es)[|ListTokens(es)| - 1] == Punct('}')
  {
    if |es| > 1 {
      ListEnds(es[1..]);
    }
  }

  lemma {:induction false} ListGrows(es: seq<Entry>, e: Entry)
    requires es != []
    ensures |ListTokens(es)| > 0
    ensures ListTokens(es + [e]) ==
              ListTokens(es)[..|ListTokens(es)| - 1] + ([Punct(',')] + EntryTokens(e) + [Punct('}')])
  {
    var fs := es + [e];
    var add := [Punct(',')] + EntryTokens(e) + [Punct('}')];
    if |es| == 1 {
      assert fs[1..] == [e];
      assert ListTokens(es)[..|ListTokens(es)| - 1] == EntryTokens(es[0]);
      assert [Punct(',')] + (EntryTokens(e) + [Punct('}')]) == add;
    } else {
      ListGrows(es[1..], e);
      assert fs[1..] == es[1..] + [e];
      var tail := ListTokens(es[1..]);
      var front := EntryTokens(es[0]) + ([Punct(',')] + tail);
      assert front[..|front| - 1] == EntryTokens(es[0]) + ([Punct(',')] + tail[..|tail| - 1]);
      Regroup([Punct(',')], tail[..|tail| - 1], add);
      Regroup(EntryTokens(es[0]), [Punct(',')] + tail[..|tail| - 1], add);
    }
  }

  lemma ObjectGrows(es: seq<Entry>, e: Entry, z: seq<Token>)
    requires es != [] && ObjectTokens(es) == z + [Punct('}')]
    ensures ObjectTokens(es + [e]) == z + ([Punct(',')] + EntryTokens(e) + [Punct('}')])
  {
    ListGrows(es, e);
    var ls, add := ListTokens(es), [Punct(',')] + EntryTokens(e) + [Punct('}')];
    assert z == ObjectTokens(es)[..|ObjectTokens(es)| - 1] == [Punct('{')] + ls[..|ls| - 1];
    Regroup([Punct('{')], ls[..|ls| - 1], add);
  }

  function NewEntry(r: string): Entry { Entry(Quoted(KEY_LITERAL), [Quoted(r)]) }

  lemma TokensAdded(separator: string, r: string)
    requires Literal(r) && (separator == "" || separator == ",")
    ensures var w := AddedTexts(separator, r) + ["}"];
            && DropTexts(w) == w && !Closer(w[0])
            && TokensOf(w) == (if separator == "" then [] else [Punct(',')]) + EntryTokens(NewEntry(r)) + [Punct('}')]
  {
    KeyIsLiteral();
    var tail := [KEY_LITERAL, ":", r, "}"];
    assert tail[1..] == [":", r, "}"] && tail[1..][1..] == [r, "}"] && tail[1..][1..][1..] == ["}"];
    assert r[0] == '"' && KEY_LITERAL[0] == '"';
    assert DropTexts(["}"]) == ["}"];
    assert DropTexts([r, "}"]) == [r] + DropTexts(["}"]);
    assert DropTexts([":", r, "}"]) == [":"] + DropTexts([r, "}"]);
    assert DropTexts(tail) == tail;
    var w := AddedTexts(separator, r) + ["}"];
    if separator == "" {
      assert w == tail;
    } else {
      assert w == [","] + tail && w[1..] == tail;
    }
  }

  /** The tokens after the insertion, by what stood in front of the closing brace. */
  lemma InsertedTokens(c: string, es: seq<Entry>, r: string)
    requires Reads(c, es) && Literal(r)
    ensures Lex(c, 0) != [] && Closing(c) <= |c| && Raw(c) != [] && |Raw(c)| > 1
    ensures var o := Inserted(c, Separator(c), r);
            var p := Raw(c)[..|Raw(c)| - 1];
            && MaskComments(o).Some?
            && Tokens(o) == TokensOf(Kept(p, true)) + NewTail(EndsInBrace(p), r)
  {
    RawShape(c, es);
    ReadTokens(c, es);
    var sep, p := Separator(c), Raw(c)[..|Raw(c)| - 1];
    InsertedRaw(c, sep, r);
    var o := Inserted(c, sep, r);
    assert Raw(c)[|Raw(c)| - 1..] == ["}"];
    TokensAreDropped(o);
    TokensGlued(p, sep, r);
    NoPoisonAdded(Raw(c), p, sep, r);
    FinishedIff(o, 0);
  }

  predicate EndsInBrace(p: seq<string>) { p != [] && p[|p| - 1] == "{" }

  predicate BraceComma(p: seq<string>) { |p| == 2 && p[0] == "{" && p[1] == "," }

  /** The new member and the closing brace, behind a comma unless the object is empty. */
  function NewTail(braceBefore: bool, r: string): seq<Token> {
    (if braceBefore then [] else [Punct(',')]) + EntryTokens(NewEntry(r)) + [Punct('}')]
  }

  lemma TokensGlued(p: seq<string>, separator: string, r: string)
    requires Literal(r) && p != [] && separator == (if p[|p| - 1] == "{" || p[|p| - 1] == "," then "" else ",")
    ensures TokensOf(DropTexts(p + (AddedTexts(separator, r) + ["}"]))) ==
              TokensOf(Kept(p, true)) + NewTail(EndsInBrace(p), r)
  {
    var w := AddedTexts(separator, r) + ["}"];
    TokensAdded(separator, r);
    KeptSplit(p, w);
    TokensConcat(Kept(p, false), w);
    KeptTokens(p);
    var e := EntryTokens(NewEntry(r));
    if p[|p| - 1] == "," {
      assert [] + e == e;
      JoinComma(TokensOf(Kept(p, true)), e + [Punct('}')]);
      Regroup([Punct(',')], e, [Punct('}')]);
    }
  }

  /** A trailing comma is kept if something follows it. */
  lemma KeptTokens(p: seq<string>)
    requires p != []
    ensures p[|p| - 1] == "," ==> TokensOf(Kept(p, false)) == TokensOf(Kept(p, true)) + [Punct(',')]
    ensures p[|p| - 1] != "," ==> TokensOf(Kept(p, false)) == TokensOf(Kept(p, true))
  {
    KeptLast(p);
    CommaToken(Kept(p, true));
  }

  lemma CommaToken(a: seq<string>)
    ensures TokensOf(a + [","]) == TokensOf(a) + [Punct(',')]
  {
    TokensConcat(a, [","]);
    assert TokensOf([","]) == [Punct(',')];
  }

  lemma JoinComma(a: seq<Token>, b: seq<Token>)
    ensures (a + [Punct(',')]) + b == a + ([Punct(',')] + b)
  {
  }

  lemma NoPoisonAdded(u: seq<string>, p: seq<string>, separator: string, r: string)
    requires POISON !in u && p <= u && Literal(r) && (separator == "" || separator == ",")
    ensures POISON !in p + (AddedTexts(separator, r) + ["}"])
  {
    assert r[0] == '"' && KEY_LITERAL[0] == '"';
    assert forall x <- p :: x in u;
  }

  // ---------------------------------------------------------------- how a value ends

  lemma {:induction false} MembersEnd(ts: seq<Token>)
    requires Members(ts).Some?
    ensures ts[Members(ts).value - 1] == Punct('}')
    decreases |ts|
  {
    var m := Member(ts).value;
    if ts[m] == Punct(',') {
      MembersEnd(ts[1 + m..]);
    }
  }

  lemma {:induction false} ElementsEnd(ts: seq<Token>)
    requires Elements(ts).Some?
    ensures ts[Elements(ts).value - 1] == Punct(']')
    decreases |ts|
  {
    var v := Value(ts).value;
    if ts[v] == Punct(',') {
      ElementsEnd(ts[1 + v..]);
    }
  }

  lemma ValueEndsClosed(v: seq<Token>)
    requires WholeValue(v)
    ensures v[|v| - 1] != Punct('{')
  {
    if v[0] == Punct('{') {
      if Members(v[1..]).Some? {
        MembersEnd(v[1..]);
      }
    } else if v[0] == Punct('[') {
      if Elements(v[1..]).Some? {
        ElementsEnd(v[1..]);
      }
    } else {
      assert Atom(v[0]) && |v| == 1;
    }
  }

  lemma {:induction false} ListEndsClosed(es: seq<Entry>)
    requires es != [] && forall e <- es :: WellEntry(e)
    ensures |ListTokens(es)| > 2 && ListTokens(es)[|ListTokens(es)| - 2] != Punct('{')
  {
    assert es[0] in es;
    ValueEndsClosed(es[0].value);
    if |es| > 1 {
      ListEndsClosed(es[1..]);
    }
  }

  /** In front of the closing brace of an object with members there is no opening brace. */
  lemma LastIsNoBrace(es: seq<Entry>, p: seq<string>)
    requires es != [] && p != [] && forall e <- es :: WellEntry(e)
    requires TokensOf(Kept(p, true)) + [Punct('}')] == ObjectTokens(es)
    ensures !EndsInBrace(p)
  {
    ListEndsClosed(es);
    KeptLast(p);
    var ts, ls := ObjectTokens(es), ListTokens(es);
    assert ts[|ts| - 2] == ls[|ls| - 2];
    var kept := Kept(p, true);
    assert |kept| == |ts| - 1;
    assert (TokensOf(kept) + [Punct('}')])[|ts| - 2] == TokenOf(kept[|ts| - 2]);
    assert TokenOf("{") == Punct('{');
  }

  lemma BraceAlone(p: seq<string>)
    requires p != [] && TokensOf(Kept(p, true)) + [Punct('}')] == [Punct('{'), Punct('}')]
    ensures TokensOf(Kept(p, true)) == [Punct('{')] && (EndsInBrace(p) <==> !BraceComma(p))
  {
    var kept := Kept(p, true);
    assert |kept| == 1 && (TokensOf(kept) + [Punct('}')])[0] == TokenOf(kept[0]);
    SameToken(kept[0], '{');
    KeptLast(p);
    if p[|p| - 1] == "," {
      assert kept == ["{"];
      OnlyBrace(p);
    }
  }

  // ---------------------------------------------------------------- result

  /** The one readable shape that the insertion breaks. */
  predicate LoneComma(c: string) {
    |Raw(c)| == 3 && BraceComma(Raw(c)[..2]) && Raw(c)[2] == "}"
  }

  /** Inserting adds one member behind the others, and keeps the file readable exactly if
      the file is not a lone comma between braces. */
  lemma InsertionAddsMember(c: string, es: seq<Entry>, r: string)
    requires Reads(c, es) && Literal(r)
    ensures Lex(c, 0) != [] && Closing(c) <= |c|
    ensures !LoneComma(c) ==> Settings(Inserted(c, Separator(c), r)) == Some(es + [NewEntry(r)])
    ensures LoneComma(c) ==> Settings(Inserted(c, Separator(c), r)) == None
  {
    InsertedTokens(c, es, r);
    var p := Raw(c)[..|Raw(c)| - 1];
    InsertedReads(c, es, p, Inserted(c, Separator(c), r), r);
  }

  lemma InsertedReads(c: string, es: seq<Entry>, p: seq<string>, o: string, r: string)
    requires Reads(c, es) && Literal(r) && |Raw(c)| > 1 && p == Raw(c)[..|Raw(c)| - 1]
    requires MaskComments(o).Some? && Tokens(o) == TokensOf(Kept(p, true)) + NewTail(EndsInBrace(p), r)
    ensures Settings(o) == if LoneComma(c) then None else Some(es + [NewEntry(r)])
  {
    RawShape(c, es);
    ReadTokens(c, es);
    InsertionReads(es, p, Tokens(o), r);
  }

  lemma InsertionReads(es: seq<Entry>, p: seq<string>, ts: seq<Token>, r: string)
    requires p != [] && (forall e <- es :: WellEntry(e)) && Literal(r)
    requires TokensOf(Kept(p, true)) + [Punct('}')] == ObjectTokens(es)
    requires ts == TokensOf(Kept(p, true)) + NewTail(EndsInBrace(p), r)
    ensures Entries(ts) == if BraceComma(p) then None else Some(es + [NewEntry(r)])
  {
    KeyIsLiteral();
    if es != [] {
      LastIsNoBrace(es, p);
      LoneIsEmpty(p, es);
      MemberAdded(es, ts, TokensOf(Kept(p, true)), r);
    } else {
      BraceAlone(p);
      MemberAlone(ts, EndsInBrace(p), r);
      assert es + [NewEntry(r)] == [NewEntry(r)];
    }
  }

  lemma MemberAdded(es: seq<Entry>, ts: seq<Token>, a: seq<Token>, r: string)
    requires es != [] && (forall e <- es :: WellEntry(e)) && Literal(r) && Literal(KEY_LITERAL)
    requires a + [Punct('}')] == ObjectTokens(es) && ts == a + NewTail(false, r)
    ensures Entries(ts) == Some(es + [NewEntry(r)])
  {
    ObjectGrows(es, NewEntry(r), a);
    EntriesComplete(es + [NewEntry(r)]);
  }

  lemma LoneIsEmpty(p: seq<string>, es: seq<Entry>)
    requires TokensOf(Kept(p, true)) + [Punct('}')] == ObjectTokens(es)
    ensures BraceComma(p) ==> es == []
  {
    if BraceComma(p) {
      assert p == ["{", ","];
      OnlyBrace(p);
      assert |ObjectTokens(es)| == 2;
      if es != [] {
        NotEmpty(es);
      }
    }
  }

  lemma NotEmpty(es: seq<Entry>)
    requires es != []
    ensures |ObjectTokens(es)| > 2
  {
    ListSplits(es, 0);
  }

  lemma MemberAlone(ts: seq<Token>, brace: bool, r: string)
    requires Literal(r) && Literal(KEY_LITERAL) && ts == [Punct('{')] + NewTail(brace, r)
    ensures Entries(ts) == if brace then Some([NewEntry(r)]) else None
  {
    if brace {
      AloneReads(ts, NewEntry(r));
    } else {
      Regroup([Punct(',')], EntryTokens(NewEntry(r)), [Punct('}')]);
      CommaFails(ts, EntryTokens(NewEntry(r)) + [Punct('}')]);
    }
  }

  lemma AloneReads(ts: seq<Token>, e: Entry)
    requires WellEntry(e) && ts == [Punct('{')] + ([] + EntryTokens(e) + [Punct('}')])
    ensures Entries(ts) == Some([e])
  {
    assert [] + EntryTokens(e) == EntryTokens(e);
    assert ts == ObjectTokens([e]);
    EntriesComplete([e]);
  }

  lemma CommaFails(ts: seq<Token>, rest: seq<Token>)
    requires rest != [] && ts == [Punct('{')] + ([Punct(',')] + rest)
    ensures Entries(ts) == None
  {
    assert ts[0] == Punct('{') && ts[1..][0] == Punct(',') && |ts| > 2;
  }
}
