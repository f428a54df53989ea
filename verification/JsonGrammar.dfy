/** JSON over tokens, as far as a settings file needs it: whole values, and the
    members of the top-level object. */
module JsonGrammar {
  import opened Basics

  // ---------------------------------------------------------------- single tokens

  datatype Token = Punct(mark: char) | Quoted(text: string) | Word(text: string)

  function TokenOf(text: string): Token {
    if text != "" && text[0] == '"' then Quoted(text)
    else if |text| == 1 && text[0] in "{}[]:," then Punct(text[0])
    else Word(text)
  }

  /** What follows the opening quote of a valid string token. */
  predicate Body(s: string) {
    s != "" &&
    if s[0] == '"' then |s| == 1
    else if s[0] == '\\' then
      |s| > 1 && (if s[1] == 'u' then
                    |s| > 5 && IsHex(s[2]) && IsHex(s[3]) && IsHex(s[4]) && IsHex(s[5]) && Body(s[6..])
                  else s[1] in "\"\\/bfnrt" && Body(s[2..]))
    else s[0] >= ' ' && Body(s[1..])
  }

  predicate Literal(t: string) {
    |t| > 1 && t[0] == '"' && Body(t[1..])
  }

  predicate Digits(s: string) {
    s != "" && forall c <- s :: '0' <= c <= '9'
  }

  /** An optional exponent. */
  predicate Exponent(s: string) {
    s == "" || ((s[0] == 'e' || s[0] == 'E') &&
                (Digits(s[1..]) || (|s| > 1 && (s[1] == '+' || s[1] == '-') && Digits(s[2..]))))
  }

  function DigitRun(s: string): (n: nat)
    ensures n <= |s|
  {
    if s == "" || !('0' <= s[0] <= '9') then 0 else 1 + DigitRun(s[1..])
  }

  /** An optional fraction and an optional exponent. */
  predicate Fraction(s: string) {
    if s == "" || s[0] != '.' then Exponent(s)
    else DigitRun(s[1..]) > 0 && Exponent(s[1 + DigitRun(s[1..])..])
  }

  predicate Unsigned(s: string) {
    s != "" && (if s[0] == '0' then Fraction(s[1..]) else DigitRun(s) > 0 && Fraction(s[DigitRun(s)..]))
  }

  predicate Scalar(t: string) {
    t == "true" || t == "false" || t == "null" || Unsigned(t) || (t != "" && t[0] == '-' && Unsigned(t[1..]))
  }

  predicate Atom(t: Token) {
    (t.Quoted? && Literal(t.text)) || (t.Word? && Scalar(t.text))
  }

  predicate Key(t: Token) { t.Quoted? && Literal(t.text) }

  // ---------------------------------------------------------------- values

  /** How many tokens the value at the start takes. */
  function Value(ts: seq<Token>): (n: Option<nat>)
    ensures n.Some? ==> 0 < n.value <= |ts|
    decreases |ts|, 0
  {
    if ts == [] then None
    else if ts[0] == Punct('{') then
      if |ts| > 1 && ts[1] == Punct('}') then Some(2) else More(Members(ts[1..]))
    else if ts[0] == Punct('[') then
      if |ts| > 1 && ts[1] == Punct(']') then Some(2) else More(Elements(ts[1..]))
    else if Atom(ts[0]) then Some(1)
    else None
  }

  function More(n: Option<nat>): (r: Option<nat>)
    ensures r.Some? <==> n.Some?
    ensures n.Some? ==> r.value == n.value + 1
  {
    if n.None? then None else Some(n.value + 1)
  }

  /** One key, colon and value. */
  function Member(ts: seq<Token>): (n: Option<nat>)
    ensures n.Some? ==> 2 < n.value <= |ts|
    decreases |ts|, 1
  {
    if |ts| < 3 || !Key(ts[0]) || ts[1] != Punct(':') then None else More(More(Value(ts[2..])))
  }

  /** The members of an object, up to and with its end. */
  function Members(ts: seq<Token>): (n: Option<nat>)
    ensures n.Some? ==> 0 < n.value <= |ts|
    decreases |ts|, 2
  {
    var m := Member(ts);
    if m.None? || m.value >= |ts| then None
    else if ts[m.value] == Punct('}') then Some(1 + m.value)
    else if ts[m.value] != Punct(',') then None
    else
      var rest := Members(ts[1 + m.value..]);
      if rest.None? then None else Some(1 + m.value + rest.value)
  }

  function Elements(ts: seq<Token>): (n: Option<nat>)
    ensures n.Some? ==> 0 < n.value <= |ts|
    decreases |ts|, 1
  {
    if ts == [] then None
    else
      var v := Value(ts);
      if v.None? || v.value >= |ts| then None
      else if ts[v.value] == Punct(']') then Some(1 + v.value)
      else if ts[v.value] != Punct(',') then None
      else
        var rest := Elements(ts[1 + v.value..]);
        if rest.None? then None else Some(1 + v.value + rest.value)
  }

  /** Two token lists with a common beginning. */
  predicate Agree(ts: seq<Token>, us: seq<Token>, n: nat) {
    n <= |ts| && n <= |us| && ts[..n] == us[..n]
  }

  lemma AgreeFrom(ts: seq<Token>, us: seq<Token>, n: nat, k: nat)
    requires Agree(ts, us, n) && k <= n
    ensures Agree(ts[k..], us[k..], n - k) && forall i | 0 <= i < n :: ts[i] == us[i]
  {
    assert ts[k..][..n - k] == ts[..n][k..] && us[k..][..n - k] == us[..n][k..];
    forall i | 0 <= i < n ensures ts[i] == us[i] {
      assert ts[..n][i] == us[..n][i];
    }
  }

  lemma AgreeLess(ts: seq<Token>, us: seq<Token>, n: nat, k: nat)
    requires Agree(ts, us, n) && k <= n
    ensures Agree(ts, us, k)
  {
    assert ts[..k] == ts[..n][..k] && us[..k] == us[..n][..k];
  }

  /** A value is recognised by its own tokens alone. */
  lemma {:induction false} ValueLocal(ts: seq<Token>, us: seq<Token>)
    requires Value(ts).Some? && Agree(ts, us, Value(ts).value)
    ensures Value(us) == Value(ts)
    decreases |ts|, 0
  {
    var n := Value(ts).value;
    AgreeFrom(ts, us, n, 1);
    if ts[0] == Punct('{') && n > 2 {
      MembersLocal(ts[1..], us[1..]);
    } else if ts[0] == Punct('[') && n > 2 {
      ElementsLocal(ts[1..], us[1..]);
    }
  }

  lemma {:induction false} MemberLocal(ts: seq<Token>, us: seq<Token>)
    requires Member(ts).Some? && Agree(ts, us, Member(ts).value)
    ensures Member(us) == Member(ts)
    decreases |ts|, 1
  {
    AgreeFrom(ts, us, Member(ts).value, 2);
    ValueLocal(ts[2..], us[2..]);
  }

  lemma {:induction false} MembersLocal(ts: seq<Token>, us: seq<Token>)
    requires Members(ts).Some? && Agree(ts, us, Members(ts).value)
    ensures Members(us) == Members(ts)
    decreases |ts|, 2
  {
    var n := Members(ts).value;
    var m := Member(ts).value;
    AgreeFrom(ts, us, n, m);
    AgreeLess(ts, us, n, m);
    MemberLocal(ts, us);
    if ts[m] == Punct(',') {
      AgreeFrom(ts, us, n, 1 + m);
      MembersLocal(ts[1 + m..], us[1 + m..]);
    }
  }

  lemma {:induction false} ElementsLocal(ts: seq<Token>, us: seq<Token>)
    requires Elements(ts).Some? && Agree(ts, us, Elements(ts).value)
    ensures Elements(us) == Elements(ts)
    decreases |ts|, 1
  {
    var n := Elements(ts).value;
    var v := Value(ts).value;
    AgreeFrom(ts, us, n, v);
    AgreeLess(ts, us, n, v);
    ValueLocal(ts, us);
    if ts[v] == Punct(',') {
      AgreeFrom(ts, us, n, 1 + v);
      ElementsLocal(ts[1 + v..], us[1 + v..]);
    }
    ElementsRead(ts, v);
    ElementsRead(us, v);
  }

  lemma ElementsRead(ts: seq<Token>, v: nat)
    requires ts != [] && Value(ts) == Some(v)
    ensures Elements(ts) == if v >= |ts| then None
                            else if ts[v] == Punct(']') then Some(1 + v)
                            else if ts[v] != Punct(',') then None
                            else Beyond(v, Elements(ts[1 + v..]))
  {
  }

  function Beyond(v: nat, rest: Option<nat>): Option<nat> {
    if rest.None? then None else Some(1 + v + rest.value)
  }

  // ---------------------------------------------------------------- the top-level object

  datatype Entry = Entry(key: Token, value: seq<Token>)

  predicate WholeValue(v: seq<Token>) { Value(v) == Some(|v|) }

  predicate WellEntry(e: Entry) { Key(e.key) && WholeValue(e.value) }

  /** The members, if the tokens are one object and nothing else. */
  function Entries(ts: seq<Token>): Option<seq<Entry>> {
    if |ts| < 2 || ts[0] != Punct('{') then None
    else if ts == [Punct('{'), Punct('}')] then Some([])
    else EntryList(ts[1..])
  }

  function EntryList(ts: seq<Token>): Option<seq<Entry>>
    decreases |ts|
  {
    if |ts| < 3 || !Key(ts[0]) || ts[1] != Punct(':') then None
    else
      var v := Value(ts[2..]);
      if v.None? || 2 + v.value >= |ts| then None
      else
        var e := Entry(ts[0], ts[2..2 + v.value]);
        if ts[2 + v.value] == Punct('}') then (if |ts| == 3 + v.value then Some([e]) else None)
        else if ts[2 + v.value] != Punct(',') then None
        else
          var rest := EntryList(ts[3 + v.value..]);
          if rest.None? then None else Some([e] + rest.value)
  }

  function EntryTokens(e: Entry): seq<Token> { [e.key, Punct(':')] + e.value }

  function ListTokens(es: seq<Entry>): seq<Token>
    requires es != []
  {
    EntryTokens(es[0]) + (if |es| == 1 then [Punct('}')] else [Punct(',')] + ListTokens(es[1..]))
  }

  function ObjectTokens(es: seq<Entry>): seq<Token> {
    if es == [] then [Punct('{'), Punct('}')] else [Punct('{')] + ListTokens(es)
  }

  lemma {:induction false} ListSound(ts: seq<Token>)
    requires EntryList(ts).Some?
    ensures var es := EntryList(ts).value;
            es != [] && ts == ListTokens(es) && forall e <- es :: WellEntry(e)
    decreases |ts|
  {
    var v := Value(ts[2..]).value;
    FirstSound(ts, v);
    if ts[2 + v] == Punct(',') {
      ListSound(ts[3 + v..]);
      RestSound(ts, v);
    } else {
      LastSound(ts, v);
    }
  }

  lemma FirstSound(ts: seq<Token>, v: nat)
    requires |ts| > 2 + v && Key(ts[0]) && ts[1] == Punct(':') && Value(ts[2..]) == Some(v)
    ensures var e := Entry(ts[0], ts[2..2 + v]); WellEntry(e) && ts[..2 + v] == EntryTokens(e)
  {
    assert ts[2..][..v] == ts[2..2 + v];
    assert ts[2..2 + v][..v] == ts[2..2 + v];
    ValueLocal(ts[2..], ts[2..2 + v]);
  }

  lemma LastSound(ts: seq<Token>, v: nat)
    requires |ts| == 3 + v && ts[2 + v] == Punct('}') && ts[..2 + v] == EntryTokens(Entry(ts[0], ts[2..2 + v]))
    ensures ts == ListTokens([Entry(ts[0], ts[2..2 + v])])
  {
    assert ts == ts[..2 + v] + [Punct('}')];
  }

  lemma RestSound(ts: seq<Token>, v: nat)
    requires |ts| > 3 + v && ts[2 + v] == Punct(',') && ts[..2 + v] == EntryTokens(Entry(ts[0], ts[2..2 + v]))
    requires EntryList(ts[3 + v..]).Some? && EntryList(ts[3 + v..]).value != []
    requires ts[3 + v..] == ListTokens(EntryList(ts[3 + v..]).value)
    ensures ts == ListTokens([Entry(ts[0], ts[2..2 + v])] + EntryList(ts[3 + v..]).value)
  {
    var e, rest := Entry(ts[0], ts[2..2 + v]), EntryList(ts[3 + v..]).value;
    assert ts == ts[..2 + v] + ([Punct(',')] + ts[3 + v..]);
    assert ([e] + rest)[1..] == rest;
  }

  lemma {:induction false} ListComplete(es: seq<Entry>)
    requires es != [] && forall e <- es :: WellEntry(e)
    ensures EntryList(ListTokens(es)) == Some(es)
  {
    assert es[0] in es;
    FirstComplete(es);
    if |es| > 1 {
      ListComplete(es[1..]);
    }
    ListJoins(es, ListTokens(es), |es[0].value|);
  }

  lemma ListJoins(es: seq<Entry>, ts: seq<Token>, n: nat)
    requires es != [] && |ts| >= 3 + n && Key(ts[0]) && ts[1] == Punct(':') && Value(ts[2..]) == Some(n)
    requires Entry(ts[0], ts[2..2 + n]) == es[0]
    requires |es| == 1 ==> ts[2 + n] == Punct('}') && |ts| == 3 + n
    requires |es| > 1 ==> ts[2 + n] == Punct(',') && EntryList(ts[3 + n..]) == Some(es[1..])
    ensures EntryList(ts) == Some(es)
  {
    ListReads(ts, n);
    if |es| == 1 {
      assert es == [es[0]];
    } else {
      assert es == [es[0]] + es[1..];
    }
  }

  /** One turn of the reader. */
  lemma ListReads(ts: seq<Token>, v: nat)
    requires |ts| >= 3 + v && Key(ts[0]) && ts[1] == Punct(':') && Value(ts[2..]) == Some(v)
    ensures ts[2 + v] == Punct('}') && |ts| == 3 + v ==> EntryList(ts) == Some([Entry(ts[0], ts[2..2 + v])])
    ensures ts[2 + v] == Punct(',') && EntryList(ts[3 + v..]).Some? ==>
              EntryList(ts) == Some([Entry(ts[0], ts[2..2 + v])] + EntryList(ts[3 + v..]).value)
  {
  }

  lemma FirstComplete(es: seq<Entry>)
    requires es != [] && WellEntry(es[0])
    ensures var e, ts := es[0], ListTokens(es);
            var n := |e.value|;
            && |ts| >= 3 + n && ts[0] == e.key && ts[1] == Punct(':')
            && Value(ts[2..]) == Some(n) && ts[2..2 + n] == e.value
            && (if |es| == 1 then ts[2 + n] == Punct('}') && |ts| == 3 + n
                else ts[2 + n] == Punct(',') && ts[3 + n..] == ListTokens(es[1..]))
  {
    var e := es[0];
    var tail := if |es| == 1 then [Punct('}')] else [Punct(',')] + ListTokens(es[1..]);
    Parts(e.key, e.value, tail);
    ValuePrefix(e.value, tail);
  }

  lemma Parts(key: Token, v: seq<Token>, tail: seq<Token>)
    requires tail != []
    ensures var ts, n := [key, Punct(':')] + v + tail, |v|;
            && |ts| == 2 + n + |tail| && ts[0] == key && ts[1] == Punct(':') && ts[2..] == v + tail
            && ts[2..2 + n] == v && ts[2 + n] == tail[0] && ts[3 + n..] == tail[1..]
  {
  }

  lemma ValuePrefix(v: seq<Token>, tail: seq<Token>)
    requires WholeValue(v)
    ensures Value(v + tail) == Some(|v|)
  {
    assert (v + tail)[..|v|] == v && v[..|v|] == v;
    ValueLocal(v, v + tail);
  }

  /** Reading the members and writing them out are inverse. */
  lemma EntriesSound(ts: seq<Token>)
    requires Entries(ts).Some?
    ensures ts == ObjectTokens(Entries(ts).value) && forall e <- Entries(ts).value :: WellEntry(e)
  {
    if ts != [Punct('{'), Punct('}')] {
      ListSound(ts[1..]);
      assert ts == [Punct('{')] + ts[1..];
    }
  }

  lemma EntriesComplete(es: seq<Entry>)
    requires forall e <- es :: WellEntry(e)
    ensures Entries(ObjectTokens(es)) == Some(es)
  {
    if es != [] {
      ListComplete(es);
      var ts := ObjectTokens(es);
      assert ts[1..] == ListTokens(es) && ts[1] == es[0].key && es[0] in es;
    }
  }
}
