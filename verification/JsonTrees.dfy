/** JSON values as trees and how they are written, apart from how the reader recognises them:
    the reader accepts exactly what can be written. */
module JsonTrees {
  import opened Basics
  import opened JsonGrammar

  // ---------------------------------------------------------------- numbers

  datatype Scale = Scale(letter: char, sign: string, digits: string)

  datatype Numeral = Numeral(negative: bool, whole: string, fraction: Option<string>, exponent: Option<Scale>)
  {
    /** No superfluous zero in front, and digits wherever digits belong. */
    predicate Proper() {
      && Decimal(whole) && (whole[0] == '0' ==> |whole| == 1)
      && (fraction.Some? ==> Decimal(fraction.value))
      && (exponent.Some? ==> exponent.value.letter in "eE" && exponent.value.sign in ["", "+", "-"]
                             && Decimal(exponent.value.digits))
    }

    function ScaleText(): string {
      match exponent
      case None => ""
      case Some(e) => [e.letter] + e.sign + e.digits
    }

    function FractionText(): string {
      match fraction
      case None => ScaleText()
      case Some(digits) => "." + digits + ScaleText()
    }

    function Text(): string {
      (if negative then "-" else "") + (whole + FractionText())
    }
  }

  predicate Decimal(s: string) {
    |s| > 0 && forall i | 0 <= i < |s| :: s[i] in "0123456789"
  }

  // ---------------------------------------------------------------- strings

  datatype Piece = Verbatim(c: char) | Escape(c: char) | CodePoint(digits: string)
  {
    predicate Proper() {
      match this
      case Verbatim(c) => c as int >= 32 && c != '"' && c != '\\'
      case Escape(c) => c in ['"', '\\', '/', 'b', 'f', 'n', 'r', 't']
      case CodePoint(digits) => |digits| == 4 && forall i | 0 <= i < 4 :: digits[i] in "0123456789abcdefABCDEF"
    }

    function Text(): string {
      match this
      case Verbatim(c) => [c]
      case Escape(c) => ['\\', c]
      case CodePoint(digits) => ['\\', 'u'] + digits
    }
  }

  function PiecesText(pieces: seq<Piece>): string {
    if pieces == [] then "" else pieces[0].Text() + PiecesText(pieces[1..])
  }

  predicate ProperPieces(pieces: seq<Piece>) {
    forall i | 0 <= i < |pieces| :: pieces[i].Proper()
  }

  function QuotedText(pieces: seq<Piece>): string {
    "\"" + (PiecesText(pieces) + "\"")
  }

  // ---------------------------------------------------------------- trees

  datatype Json =
    | Null
    | Boolean(value: bool)
    | Number(numeral: Numeral)
    | Text(pieces: seq<Piece>)
    | Array(items: seq<Json>)
    | Object(members: seq<Named>)

  datatype Named = Named(key: seq<Piece>, value: Json)

  predicate Proper(j: Json) {
    match j
    case Number(numeral) => numeral.Proper()
    case Text(pieces) => ProperPieces(pieces)
    case Array(items) => forall i | 0 <= i < |items| :: Proper(items[i])
    case Object(members) => forall i | 0 <= i < |members| :: ProperMember(members[i])
    case _ => true
  }

  predicate ProperMember(m: Named) {
    ProperPieces(m.key) && Proper(m.value)
  }

  /** A tree as tokens: separators between the parts, and no trailing ones. */
  function Written(j: Json): (ts: seq<Token>)
    ensures ts != []
  {
    match j
    case Null => [Word("null")]
    case Boolean(value) => [Word(if value then "true" else "false")]
    case Number(numeral) => [Word(numeral.Text())]
    case Text(pieces) => [Quoted(QuotedText(pieces))]
    case Array(items) => [Punct('[')] + (WrittenItems(items) + [Punct(']')])
    case Object(members) => [Punct('{')] + (WrittenMembers(members) + [Punct('}')])
  }

  function WrittenItems(items: seq<Json>): seq<Token> {
    if items == [] then []
    else if |items| == 1 then Written(items[0])
    else Written(items[0]) + ([Punct(',')] + WrittenItems(items[1..]))
  }

  function WrittenMember(m: Named): seq<Token> {
    [Quoted(QuotedText(m.key)), Punct(':')] + Written(m.value)
  }

  function WrittenMembers(members: seq<Named>): seq<Token> {
    if members == [] then []
    else if |members| == 1 then WrittenMember(members[0])
    else WrittenMember(members[0]) + ([Punct(',')] + WrittenMembers(members[1..]))
  }

  // ---------------------------------------------------------------- numbers are recognised

  lemma DecimalDigits(s: string)
    ensures Decimal(s) <==> Digits(s)
  {
    if Digits(s) {
      forall i | 0 <= i < |s| ensures s[i] in "0123456789" {
        assert s[i] in s;
      }
    }
  }

  lemma {:induction false} RunStops(s: string, rest: string)
    requires forall i | 0 <= i < |s| :: s[i] in "0123456789"
    requires rest == "" || rest[0] !in "0123456789"
    ensures DigitRun(s + rest) == |s|
  {
    if s == "" {
      assert s + rest == rest;
    } else {
      assert (s + rest)[1..] == s[1..] + rest && (s + rest)[0] == s[0];
      RunStops(s[1..], rest);
    }
  }

  lemma {:induction false} RunDigits(s: string)
    ensures forall i | 0 <= i < DigitRun(s) :: s[i] in "0123456789"
    ensures DigitRun(s) < |s| ==> s[DigitRun(s)] !in "0123456789"
  {
    if DigitRun(s) > 0 {
      RunDigits(s[1..]);
      forall i | 0 <= i < DigitRun(s) ensures s[i] in "0123456789" {
        assert i > 0 ==> s[i] == s[1..][i - 1];
      }
    }
  }

  lemma ScaleWritten(n: Numeral)
    requires n.Proper()
    ensures Exponent(n.ScaleText())
    ensures n.ScaleText() == "" || n.ScaleText()[0] in "eE"
  {
    if n.exponent.Some? {
      var e := n.exponent.value;
      DecimalDigits(e.digits);
      var s := n.ScaleText();
      assert e.sign == "" ==> s[1..] == e.digits;
      assert e.sign != "" ==> s[2..] == e.digits && s[1] == e.sign[0];
    }
  }

  lemma FractionWritten(n: Numeral)
    requires n.Proper()
    ensures Fraction(n.FractionText())
    ensures n.FractionText() == "" || n.FractionText()[0] in ".eE"
  {
    ScaleWritten(n);
    if n.fraction.Some? {
      var s, digits := n.FractionText(), n.fraction.value;
      assert s[1..] == digits + n.ScaleText();
      RunStops(digits, n.ScaleText());
      assert s[1 + |digits|..] == n.ScaleText();
    }
  }

  lemma NumberWritten(n: Numeral)
    requires n.Proper()
    ensures Scalar(n.Text())
  {
    FractionWritten(n);
    var s, rest := n.whole + n.FractionText(), n.FractionText();
    assert s[0] == n.whole[0] && s[|n.whole|..] == rest;
    if n.whole[0] != '0' {
      RunStops(n.whole, rest);
    }
    assert Unsigned(s);
    assert n.negative ==> n.Text()[1..] == s;
    assert !n.negative ==> n.Text() == s;
  }

  /** The first digits of a text are a decimal number. */
  lemma RunIsDecimal(s: string)
    requires DigitRun(s) > 0
    ensures Decimal(s[..DigitRun(s)])
  {
    RunDigits(s);
  }

  lemma ScaleRead(s: string) returns (e: Option<Scale>)
    requires Exponent(s)
    ensures var n := Numeral(false, "0", None, e); n.Proper() && n.ScaleText() == s
  {
    if s == "" {
      e := None;
    } else if Digits(s[1..]) {
      DecimalDigits(s[1..]);
      e := Some(Scale(s[0], "", s[1..]));
      assert s == [s[0]] + "" + s[1..];
    } else {
      DecimalDigits(s[2..]);
      e := Some(Scale(s[0], [s[1]], s[2..]));
      assert s == [s[0]] + [s[1]] + s[2..];
    }
  }

  lemma FractionRead(s: string) returns (fraction: Option<string>, e: Option<Scale>)
    requires Fraction(s)
    ensures var n := Numeral(false, "0", fraction, e); n.Proper() && n.FractionText() == s
  {
    if s == "" || s[0] != '.' {
      fraction := None;
      e := ScaleRead(s);
    } else {
      var k := DigitRun(s[1..]);
      RunIsDecimal(s[1..]);
      fraction := Some(s[1..][..k]);
      e := ScaleRead(s[1 + k..]);
      assert s == "." + s[1..][..k] + s[1 + k..];
    }
  }

  lemma WholeRead(s: string) returns (k: nat)
    requires Unsigned(s)
    ensures k <= |s| && Decimal(s[..k]) && (s[0] == '0' ==> k == 1) && Fraction(s[k..])
  {
    hide Fraction;
    if s[0] == '0' {
      k := 1;
    } else {
      k := DigitRun(s);
      RunIsDecimal(s);
    }
  }

  lemma UnsignedRead(s: string) returns (n: Numeral)
    requires Unsigned(s)
    ensures n.Proper() && !n.negative && n.whole + n.FractionText() == s
  {
    hide Unsigned, Fraction;
    var k := WholeRead(s);
    var fraction, e := FractionRead(s[k..]);
    n := Numeral(false, s[..k], fraction, e);
    assert s == s[..k] + s[k..];
    assert n.FractionText() == Numeral(false, "0", fraction, e).FractionText();
  }

  lemma NumberRead(s: string) returns (n: Numeral)
    requires Scalar(s) && s != "true" && s != "false" && s != "null"
    ensures n.Proper() && n.Text() == s
  {
    if Unsigned(s) {
      n := UnsignedRead(s);
      assert "" + s == s;
    } else {
      var m := UnsignedRead(s[1..]);
      n := m.(negative := true);
      assert s == "-" + s[1..];
    }
  }

  // ---------------------------------------------------------------- strings are recognised

  lemma {:induction false} PiecesWritten(pieces: seq<Piece>)
    requires ProperPieces(pieces)
    ensures Body(PiecesText(pieces) + "\"")
  {
    var s := PiecesText(pieces) + "\"";
    if pieces == [] {
      assert s == "\"";
    } else {
      PiecesWritten(pieces[1..]);
      var rest := PiecesText(pieces[1..]) + "\"";
      Regroup(pieces[0].Text(), PiecesText(pieces[1..]), "\"");
      PieceWritten(pieces[0], rest);
    }
  }

  lemma VerbatimWritten(c: char, rest: string)
    requires Verbatim(c).Proper() && Body(rest)
    ensures Body([c] + rest)
  {
    assert ([c] + rest)[1..] == rest;
  }

  lemma EscapeWritten(c: char, rest: string)
    requires Escape(c).Proper() && Body(rest)
    ensures Body(['\\', c] + rest)
  {
    assert (['\\', c] + rest)[2..] == rest;
  }

  lemma CodePointWritten(digits: string, rest: string)
    requires CodePoint(digits).Proper() && Body(rest)
    ensures Body(['\\', 'u'] + digits + rest)
  {
    var s := ['\\', 'u'] + digits + rest;
    assert s[6..] == rest && s[0] == '\\' && s[1] == 'u';
    forall i | 0 <= i < 4
      ensures s[2 + i] == digits[i] && IsHex(digits[i])
    {
    }
    assert s[2] == digits[0] && s[3] == digits[1] && s[4] == digits[2] && s[5] == digits[3];
  }

  lemma PieceWritten(p: Piece, rest: string)
    requires p.Proper() && Body(rest)
    ensures Body(p.Text() + rest)
  {
    hide Body;
    match p
    case Verbatim(c) => VerbatimWritten(c, rest);
    case Escape(c) => EscapeWritten(c, rest);
    case CodePoint(digits) => CodePointWritten(digits, rest);
  }

  /** The first piece of a body that goes on. */
  lemma PieceRead(s: string) returns (p: Piece)
    requires Body(s) && s[0] != '"'
    ensures p.Proper() && 0 < |p.Text()| <= |s| && s == p.Text() + s[|p.Text()|..] && Body(s[|p.Text()|..])
  {
    p := if s[0] != '\\' then Verbatim(s[0]) else if s[1] == 'u' then CodePoint(s[2..6]) else Escape(s[1]);
  }

  lemma {:induction false} PiecesRead(s: string) returns (pieces: seq<Piece>)
    requires Body(s)
    ensures ProperPieces(pieces) && PiecesText(pieces) + "\"" == s
  {
    if s[0] == '"' {
      pieces := [];
      assert s == "" + "\"";
    } else {
      hide Body, Piece.Text, Piece.Proper;
      var p := PieceRead(s);
      var rest := PiecesRead(s[|p.Text()|..]);
      pieces := [p] + rest;
      assert pieces[1..] == rest;
      Regroup(p.Text(), PiecesText(rest), "\"");
    }
  }

  lemma LiteralWritten(pieces: seq<Piece>)
    requires ProperPieces(pieces)
    ensures Literal(QuotedText(pieces))
  {
    PiecesWritten(pieces);
    assert QuotedText(pieces)[1..] == PiecesText(pieces) + "\"";
  }

  lemma LiteralRead(s: string) returns (pieces: seq<Piece>)
    requires Literal(s)
    ensures ProperPieces(pieces) && QuotedText(pieces) == s
  {
    pieces := PiecesRead(s[1..]);
    assert s == "\"" + s[1..];
  }

  // ---------------------------------------------------------------- what is written is accepted

  lemma AtomWritten(j: Json)
    requires Proper(j) && !j.Array? && !j.Object?
    ensures |Written(j)| == 1 && Atom(Written(j)[0])
  {
    match j
    case Number(numeral) => NumberWritten(numeral);
    case Text(pieces) => LiteralWritten(pieces);
    case _ =>
  }

  lemma ArrayOpens(ts: seq<Token>, n: nat)
    requires |ts| > 1 && ts[0] == Punct('[')
    requires (ts[1] == Punct(']') && n == 2) || (n > 0 && Elements(ts[1..]) == Some(n - 1))
    ensures Value(ts) == Some(n)
  {
    hide Elements, Members;
    NoCloser(ts[1..]);
  }

  lemma ObjectOpens(ts: seq<Token>, n: nat)
    requires |ts| > 1 && ts[0] == Punct('{')
    requires (ts[1] == Punct('}') && n == 2) || (n > 0 && Members(ts[1..]) == Some(n - 1))
    ensures Value(ts) == Some(n)
  {
    hide Elements, Members;
    NoCloser(ts[1..]);
  }

  lemma ArrayWritten(inner: seq<Token>, tail: seq<Token>)
    requires inner == [] || Elements(inner + ([Punct(']')] + tail)) == Some(|inner| + 1)
    ensures Value([Punct('[')] + (inner + [Punct(']')]) + tail) == Some(|inner| + 2)
  {
    hide Elements, Value;
    Enclosed('[', inner, ']', tail);
    ArrayOpens([Punct('[')] + (inner + [Punct(']')]) + tail, |inner| + 2);
  }

  lemma ObjectWritten(inner: seq<Token>, tail: seq<Token>)
    requires inner == [] || Members(inner + ([Punct('}')] + tail)) == Some(|inner| + 1)
    ensures Value([Punct('{')] + (inner + [Punct('}')]) + tail) == Some(|inner| + 2)
  {
    hide Members, Value;
    Enclosed('{', inner, '}', tail);
    ObjectOpens([Punct('{')] + (inner + [Punct('}')]) + tail, |inner| + 2);
  }

  lemma Enclosed(open: char, inner: seq<Token>, close: char, tail: seq<Token>)
    ensures var ts := [Punct(open)] + (inner + [Punct(close)]) + tail;
            && ts[0] == Punct(open) && ts[1..] == inner + ([Punct(close)] + tail)
            && (inner == [] ==> ts[1] == Punct(close))
  {
  }

  /** What a value begins with, no list ends with. */
  lemma NoCloser(ts: seq<Token>)
    requires ts != []
    ensures ts[0] == Punct(']') || ts[0] == Punct('}') ==> Elements(ts).None? && Members(ts).None?
  {
  }

  lemma {:induction false} ValueWritten(j: Json, tail: seq<Token>)
    requires Proper(j)
    ensures Value(Written(j) + tail) == Some(|Written(j)|)
  {
    hide Elements, Members;
    match j {
      case Array(items) =>
        if items != [] {
          ItemsWritten(items, tail);
        }
        ArrayWritten(WrittenItems(items), tail);
      case Object(members) =>
        if members != [] {
          MembersWritten(members, tail);
        }
        ObjectWritten(WrittenMembers(members), tail);
      case _ =>
        AtomWritten(j);
        assert (Written(j) + tail)[0] == Written(j)[0];
    }
  }

  lemma {:induction false} ItemsWritten(items: seq<Json>, tail: seq<Token>)
    requires items != [] && forall i | 0 <= i < |items| :: Proper(items[i])
    ensures Elements(WrittenItems(items) + ([Punct(']')] + tail)) == Some(|WrittenItems(items)| + 1)
  {
    hide Elements, Value, Written;
    var first, end := Written(items[0]), [Punct(']')] + tail;
    var ts := WrittenItems(items) + end;
    if |items| == 1 {
      ValueWritten(items[0], end);
    } else {
      var rest := WrittenItems(items[1..]) + end;
      Regroup(first, [Punct(',')] + WrittenItems(items[1..]), end);
      Regroup([Punct(',')], WrittenItems(items[1..]), end);
      assert ts == first + ([Punct(',')] + rest);
      ValueWritten(items[0], [Punct(',')] + rest);
      ItemsWritten(items[1..], tail);
      assert ts[|first|] == Punct(',') && ts[1 + |first|..] == rest;
    }
    ElementsRead(ts, |first|);
  }

  lemma MemberJoins(key: Token, value: seq<Token>, tail: seq<Token>)
    requires Key(key) && Value(value + tail) == Some(|value|)
    ensures Member([key, Punct(':')] + value + tail) == Some(|value| + 2)
  {
    hide Value, Key;
    var ts := [key, Punct(':')] + value + tail;
    assert ts[2..] == value + tail && ts[0] == key && ts[1] == Punct(':');
    assert value != [];
  }

  lemma {:induction false} MemberWritten(m: Named, tail: seq<Token>)
    requires ProperMember(m)
    ensures Member(WrittenMember(m) + tail) == Some(|WrittenMember(m)|)
  {
    hide Value, Member, Literal, QuotedText, ProperPieces;
    LiteralWritten(m.key);
    ValueWritten(m.value, tail);
    MemberJoins(Quoted(QuotedText(m.key)), Written(m.value), tail);
  }

  lemma MembersStep(ts: seq<Token>, m: nat)
    requires Member(ts) == Some(m)
    ensures Members(ts) == if m >= |ts| then None
                           else if ts[m] == Punct('}') then Some(1 + m)
                           else if ts[m] != Punct(',') then None
                           else Beyond(m, Members(ts[1 + m..]))
  {
    hide Member;
  }

  lemma {:induction false} MembersWritten(members: seq<Named>, tail: seq<Token>)
    requires members != [] && forall i | 0 <= i < |members| :: ProperMember(members[i])
    ensures Members(WrittenMembers(members) + ([Punct('}')] + tail)) == Some(|WrittenMembers(members)| + 1)
  {
    hide Members, Member, WrittenMember;
    var first, end := WrittenMember(members[0]), [Punct('}')] + tail;
    var ts := WrittenMembers(members) + end;
    if |members| == 1 {
      MemberWritten(members[0], end);
    } else {
      var rest := WrittenMembers(members[1..]) + end;
      Regroup(first, [Punct(',')] + WrittenMembers(members[1..]), end);
      Regroup([Punct(',')], WrittenMembers(members[1..]), end);
      assert ts == first + ([Punct(',')] + rest);
      MemberWritten(members[0], [Punct(',')] + rest);
      MembersWritten(members[1..], tail);
      assert ts[|first|] == Punct(',') && ts[1 + |first|..] == rest;
    }
    MembersStep(ts, |first|);
  }

  // ---------------------------------------------------------------- what is accepted can be written

  lemma AtomRead(t: Token) returns (j: Json)
    requires Atom(t)
    ensures Proper(j) && Written(j) == [t]
  {
    if t.Quoted? {
      var pieces := LiteralRead(t.text);
      j := Text(pieces);
    } else if t.text == "null" {
      j := Null;
    } else if t.text == "true" || t.text == "false" {
      j := Boolean(t.text == "true");
    } else {
      var n := NumberRead(t.text);
      j := Number(n);
    }
  }

  lemma {:induction false} ValueRead(ts: seq<Token>) returns (j: Json)
    requires Value(ts).Some?
    ensures Proper(j) && Written(j) == ts[..Value(ts).value]
    decreases |ts|, 0
  {
    hide Members, Elements, Atom;
    var n := Value(ts).value;
    if ts[0] == Punct('{') {
      if ts[1] == Punct('}') {
        j := Object([]);
        assert ts[..2] == [Punct('{')] + ([] + [Punct('}')]);
      } else {
        var members := MembersRead(ts[1..]);
        j := Object(members);
        FirstOf(ts, n);
      }
    } else if ts[0] == Punct('[') {
      if ts[1] == Punct(']') {
        j := Array([]);
        assert ts[..2] == [Punct('[')] + ([] + [Punct(']')]);
      } else {
        var items := ItemsRead(ts[1..]);
        j := Array(items);
        FirstOf(ts, n);
      }
    } else {
      j := AtomRead(ts[0]);
      assert ts[..1] == [ts[0]];
    }
  }

  lemma FirstOf(ts: seq<Token>, n: nat)
    requires 0 < n <= |ts|
    ensures ts[..n] == [ts[0]] + ts[1..][..n - 1]
  {
  }

  lemma {:induction false} MemberRead(ts: seq<Token>) returns (m: Named)
    requires Member(ts).Some?
    ensures ProperMember(m) && WrittenMember(m) == ts[..Member(ts).value]
    decreases |ts|, 1
  {
    var key := LiteralRead(ts[0].text);
    var value := ValueRead(ts[2..]);
    m := Named(key, value);
    var n := Member(ts).value;
    assert ts[..n] == [ts[0], ts[1]] + ts[2..][..n - 2];
  }

  lemma {:induction false} MembersRead(ts: seq<Token>) returns (members: seq<Named>)
    requires Members(ts).Some?
    ensures members != [] && forall i | 0 <= i < |members| :: ProperMember(members[i])
    ensures WrittenMembers(members) + [Punct('}')] == ts[..Members(ts).value]
    decreases |ts|, 2
  {
    hide Member, ProperMember, WrittenMember;
    var n, m := Members(ts).value, Member(ts).value;
    var first := MemberRead(ts);
    if ts[m] == Punct('}') {
      members := [first];
      assert ts[..n] == ts[..m] + [ts[m]];
    } else {
      var rest := MembersRead(ts[1 + m..]);
      members := [first] + rest;
      MembersJoin(first, rest, ts, m, n);
    }
  }

  lemma MembersJoin(first: Named, rest: seq<Named>, ts: seq<Token>, m: nat, n: nat)
    requires m < n <= |ts| && rest != [] && ts[m] == Punct(',') && ts[..m] == WrittenMember(first)
    requires WrittenMembers(rest) + [Punct('}')] == ts[1 + m..][..n - 1 - m]
    ensures WrittenMembers([first] + rest) + [Punct('}')] == ts[..n]
  {
    hide WrittenMember;
    assert ([first] + rest)[1..] == rest;
    Regroup(WrittenMember(first), [Punct(',')] + WrittenMembers(rest), [Punct('}')]);
    Regroup([Punct(',')], WrittenMembers(rest), [Punct('}')]);
    assert ts[..n] == ts[..m] + ([ts[m]] + ts[1 + m..][..n - 1 - m]);
  }

  lemma {:induction false} ItemsRead(ts: seq<Token>) returns (items: seq<Json>)
    requires Elements(ts).Some?
    ensures items != [] && forall i | 0 <= i < |items| :: Proper(items[i])
    ensures WrittenItems(items) + [Punct(']')] == ts[..Elements(ts).value]
    decreases |ts|, 1
  {
    var n, v := Elements(ts).value, Value(ts).value;
    var first := ValueRead(ts);
    ElementsRead(ts, v);
    if ts[v] == Punct(']') {
      items := [first];
      assert ts[..n] == ts[..v] + [ts[v]];
    } else {
      var rest := ItemsRead(ts[1 + v..]);
      items := [first] + rest;
      ItemsJoin(first, rest, ts, v, n);
    }
  }

  lemma ItemsJoin(first: Json, rest: seq<Json>, ts: seq<Token>, v: nat, n: nat)
    requires v < n <= |ts| && rest != [] && ts[v] == Punct(',') && ts[..v] == Written(first)
    requires WrittenItems(rest) + [Punct(']')] == ts[1 + v..][..n - 1 - v]
    ensures WrittenItems([first] + rest) + [Punct(']')] == ts[..n]
  {
    hide Written;
    assert ([first] + rest)[1..] == rest;
    Regroup(Written(first), [Punct(',')] + WrittenItems(rest), [Punct(']')]);
    Regroup([Punct(',')], WrittenItems(rest), [Punct(']')]);
    assert ts[..n] == ts[..v] + ([ts[v]] + ts[1 + v..][..n - 1 - v]);
  }

  // ---------------------------------------------------------------- the reader and the writer agree

  ghost predicate Writes(ts: seq<Token>) {
    exists j :: Proper(j) && Written(j) == ts
  }

  ghost predicate WritesObject(ts: seq<Token>) {
    exists members :: Proper(Object(members)) && Written(Object(members)) == ts
  }

  /** The tokens recognised as one value are those of a tree. */
  lemma ValueIffWritten(ts: seq<Token>)
    ensures WholeValue(ts) <==> Writes(ts)
  {
    if WholeValue(ts) {
      var j := ValueRead(ts);
      assert ts[..|ts|] == ts;
    }
    if Writes(ts) {
      var j :| Proper(j) && Written(j) == ts;
      ValueWritten(j, []);
      assert ts + [] == ts;
    }
  }

  /** The member as the reader of the top level returns it. */
  function EntryOf(m: Named): Entry { Entry(Quoted(QuotedText(m.key)), Written(m.value)) }

  function EntriesOf(members: seq<Named>): seq<Entry> {
    seq(|members|, i requires 0 <= i < |members| => EntryOf(members[i]))
  }

  lemma {:induction false} MembersAreEntries(members: seq<Named>)
    requires members != []
    ensures WrittenMembers(members) + [Punct('}')] == ListTokens(EntriesOf(members))
  {
    var es := EntriesOf(members);
    assert es[0] == EntryOf(members[0]);
    if |members| > 1 {
      MembersAreEntries(members[1..]);
      assert es[1..] == EntriesOf(members[1..]);
      Regroup(WrittenMember(members[0]), [Punct(',')] + WrittenMembers(members[1..]), [Punct('}')]);
      Regroup([Punct(',')], WrittenMembers(members[1..]), [Punct('}')]);
    }
  }

  lemma ObjectsAreEntries(members: seq<Named>)
    ensures Written(Object(members)) == ObjectTokens(EntriesOf(members))
  {
    if members != [] {
      MembersAreEntries(members);
    } else {
      assert EntriesOf(members) == [];
      assert [] + [Punct('}')] == [Punct('}')];
    }
  }

  /** Reading back what was written returns its members. */
  lemma ObjectReadsBack(members: seq<Named>)
    requires Proper(Object(members))
    ensures Entries(Written(Object(members))) == Some(EntriesOf(members))
  {
    ObjectsAreEntries(members);
    forall e | e in EntriesOf(members)
      ensures WellEntry(e)
    {
      var i :| 0 <= i < |members| && e == EntryOf(members[i]);
      LiteralWritten(members[i].key);
      ValueWritten(members[i].value, []);
      assert Written(members[i].value) + [] == Written(members[i].value);
    }
    EntriesComplete(EntriesOf(members));
  }

  lemma EntryRead(e: Entry) returns (m: Named)
    requires WellEntry(e)
    ensures ProperMember(m) && EntryOf(m) == e
  {
    hide Value, Literal;
    var key := LiteralRead(e.key.text);
    var value := ValueRead(e.value);
    assert e.value[..|e.value|] == e.value;
    m := Named(key, value);
  }

  lemma {:induction false} EntriesRead(es: seq<Entry>) returns (members: seq<Named>)
    requires forall e <- es :: WellEntry(e)
    ensures Proper(Object(members)) && EntriesOf(members) == es
  {
    hide WellEntry, ProperMember, EntryOf;
    if es == [] {
      members := [];
    } else {
      assert es[0] in es && forall e <- es[1..] :: e in es;
      var rest := EntriesRead(es[1..]);
      var first := EntryRead(es[0]);
      members := [first] + rest;
      assert EntriesOf(members) == [EntryOf(first)] + EntriesOf(rest);
      assert es == [es[0]] + es[1..];
    }
  }

  /** The reader of the top level accepts exactly the objects that can be written. */
  lemma EntriesIffWritten(ts: seq<Token>)
    ensures Entries(ts).Some? <==> WritesObject(ts)
  {
    if Entries(ts).Some? {
      EntriesSound(ts);
      var members := EntriesRead(Entries(ts).value);
      ObjectsAreEntries(members);
    }
    if WritesObject(ts) {
      var members :| Proper(Object(members)) && Written(Object(members)) == ts;
      ObjectReadsBack(members);
    }
  }
}
