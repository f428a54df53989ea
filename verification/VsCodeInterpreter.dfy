/** `setVSCodeInterpreter`: what it computes, and what the settings say afterwards. */
module VsCodeInterpreter {
  import opened Basics
  import opened JsoncMask
  import opened JsoncLex
  import opened JsonGrammar
  import opened JsoncSplice
  import opened Scanner
  import opened VsCodeSettings
  import opened VsCodeRewrite
  import opened VsCodeInsert

  predicate Known(codec: Codec, es: seq<Entry>) {
    exists e <- es :: Names(codec, e)
  }

  /** The new text and whether it differs, or nothing if the file is not an object. */
  ghost function Updated(c: string, codec: Codec, interpreter: string): Option<(string, bool)>
    requires Literal(codec.quote(interpreter))
  {
    var r := codec.quote(interpreter);
    if Settings(c).None? then None
    else if Known(codec, Settings(c).value) then
      var spans := StaleSpans(c, Settings(c).value, 0, codec, interpreter);
      RewrittenFrom(c, Settings(c).value, 0, codec, interpreter, r);
      Some((Splice(c, 0, spans, r), spans != []))
    else
      InsertionAddsMember(c, Settings(c).value, r);
      Some((Inserted(c, Separator(c), r), true))
  }

  // ---------------------------------------------------------------- what the settings say afterwards

  ghost predicate Quotes(codec: Codec, interpreter: string) {
    Codes(codec, interpreter, codec.quote(interpreter)) && codec.unquote(KEY_LITERAL) == KEY
  }

  /** The value is the string; the empty one is also what `null` means. */
  predicate Holds(codec: Codec, value: seq<Token>, interpreter: string) {
    && |value| == 1
    && match value[0]
       case Quoted(text) => codec.unquote(text) == interpreter
       case Word(text) => text == "null" && interpreter == ""
       case Punct(_) => false
  }

  /** The key is the setting's, however it is written. */
  predicate IsSetting(codec: Codec, e: Entry) {
    e.key.Quoted? && codec.unquote(e.key.text) == "python.defaultInterpreterPath"
  }

  /** Every occurrence of the setting is the string. */
  predicate AllSet(codec: Codec, es: seq<Entry>, interpreter: string) {
    forall e <- es :: IsSetting(codec, e) ==> Holds(codec, e.value, interpreter)
  }

  lemma HoldsIff(codec: Codec, value: seq<Token>, interpreter: string)
    ensures Holds(codec, value, interpreter) <==> Decoded(codec, value) == Some(interpreter)
  {
    assert |value| == 1 ==> value == [value[0]];
  }

  lemma FixedIsSet(es: seq<Entry>, codec: Codec, interpreter: string)
    requires Quotes(codec, interpreter)
    ensures var fs := FixedFrom(es, 0, codec, interpreter, codec.quote(interpreter));
            AllSet(codec, fs, interpreter) && (Known(codec, fs) <==> Known(codec, es))
  {
    var r := codec.quote(interpreter);
    var fs := FixedFrom(es, 0, codec, interpreter, r);
    forall i | 0 <= i < |es| ensures Names(codec, fs[i]) <==> Names(codec, es[i]) {
    }
    if Known(codec, es) {
      var i :| 0 <= i < |es| && Names(codec, es[i]);
      assert fs[i] in fs && Names(codec, fs[i]);
    }
    forall e <- fs | Names(codec, e)
      ensures Holds(codec, e.value, interpreter)
    {
      HoldsIff(codec, e.value, interpreter);
      var i :| 0 <= i < |fs| && fs[i] == e;
      assert fs[i] == Fixed(es[i], codec, interpreter, r);
    }
  }

  lemma {:induction false} NothingStale(c: string, es: seq<Entry>, k: nat, codec: Codec, interpreter: string)
    requires Reads(c, es) && k <= |es|
    ensures StaleSpans(c, es, k, codec, interpreter) == [] <==>
            forall j | k <= j < |es| :: !Stale(codec, es[j], interpreter)
    decreases |es| - k
  {
    hide Reads, Stale, Span;
    if k < |es| {
      StaleStep(c, es, k, codec, interpreter);
      NothingStale(c, es, k + 1, codec, interpreter);
    }
  }

  /** A file is left alone exactly when the setting is there and right everywhere. */
  lemma SetIsStable(c: string, es: seq<Entry>, codec: Codec, interpreter: string)
    requires Quotes(codec, interpreter) && Reads(c, es)
    ensures Updated(c, codec, interpreter) == Some((c, false)) <==>
            (exists e <- es :: IsSetting(codec, e)) && AllSet(codec, es, interpreter)
  {
    forall e <- es ensures Stale(codec, e, interpreter) <==> Names(codec, e) && !Holds(codec, e.value, interpreter) {
      HoldsIff(codec, e.value, interpreter);
    }
    NothingStale(c, es, 0, codec, interpreter);
    assert c[0..] == c;
  }

  /** Replacing: the members stay the same ones in the same order, every occurrence of the
      setting has the new value, and a second call reports no change. */
  lemma ReplacingSets(c: string, es: seq<Entry>, codec: Codec, interpreter: string)
    requires Quotes(codec, interpreter) && Reads(c, es) && Known(codec, es)
    ensures var o := Updated(c, codec, interpreter).value.0;
            && Settings(o) == Some(FixedFrom(es, 0, codec, interpreter, codec.quote(interpreter)))
            && AllSet(codec, Settings(o).value, interpreter) && Known(codec, Settings(o).value)
            && Updated(o, codec, interpreter) == Some((o, false))
  {
    var r := codec.quote(interpreter);
    var o := Updated(c, codec, interpreter).value.0;
    RewrittenFrom(c, es, 0, codec, interpreter, r);
    ReplacedReads(c, es, o, codec, interpreter, r);
    FixedIsSet(es, codec, interpreter);
    SetIsStable(o, FixedFrom(es, 0, codec, interpreter, r), codec, interpreter);
  }

  lemma ReplacedReads(c: string, es: seq<Entry>, o: string, codec: Codec, interpreter: string, r: string)
    requires Reads(c, es) && Literal(r) && RewrittenTo(c, o, es, 0, FixedFrom(es, 0, codec, interpreter, r))
    ensures Reads(o, FixedFrom(es, 0, codec, interpreter, r))
  {
    ReadTokens(c, es);
    FinishedIff(o, 0);
    FixedEntries(es, codec, interpreter, r);
    EntriesComplete(FixedFrom(es, 0, codec, interpreter, r));
  }

  lemma FixedEntries(es: seq<Entry>, codec: Codec, interpreter: string, r: string)
    requires Literal(r) && forall e <- es :: WellEntry(e)
    ensures forall e <- FixedFrom(es, 0, codec, interpreter, r) :: WellEntry(e)
  {
    var fs := FixedFrom(es, 0, codec, interpreter, r);
    forall i | 0 <= i < |fs| ensures WellEntry(fs[i]) {
      assert es[i] in es && fs[i] == Fixed(es[i], codec, interpreter, r);
      StringIsValue(r);
    }
  }

  lemma StringIsValue(r: string)
    requires Literal(r)
    ensures WholeValue([Quoted(r)])
  {
  }

  /** Inserting: the setting is added behind the other members and a second call reports
      no change, unless the file is a lone comma between braces; that file becomes unreadable. */
  lemma InsertingSets(c: string, es: seq<Entry>, codec: Codec, interpreter: string)
    requires Quotes(codec, interpreter) && Reads(c, es) && !Known(codec, es)
    ensures var o := Updated(c, codec, interpreter).value.0;
            var again := Updated(o, codec, interpreter);
            if LoneComma(c) then Settings(o) == None && again == None
            else Settings(o) == Some(es + [NewEntry(codec.quote(interpreter))])
                 && AllSet(codec, Settings(o).value, interpreter) && again == Some((o, false))
  {
    var r := codec.quote(interpreter);
    InsertionAddsMember(c, es, r);
    if !LoneComma(c) {
      var fs := es + [NewEntry(r)];
      assert NewEntry(r) in fs && Names(codec, NewEntry(r));
      SetIsStable(Inserted(c, Separator(c), r), fs, codec, interpreter);
    }
  }

  // ---------------------------------------------------------------- which bytes change

  /** Kept stretches of a text with others between them. */
  function Interleaved(kept: seq<string>, between: seq<string>): string
    requires |kept| == |between| + 1
  {
    if between == [] then kept[0] else kept[0] + between[0] + Interleaved(kept[1..], between[1..])
  }

  function Stretches(c: string, copied: nat, spans: seq<(nat, nat)>): (kept: seq<string>)
    requires InOrder(copied, spans, |c|)
    ensures |kept| == |spans| + 1
    decreases |spans|
  {
    InOrderEnds(copied, spans, |c|);
    if spans == [] then [c[copied..]] else [c[copied..spans[0].0]] + Stretches(c, spans[0].1, spans[1..])
  }

  function Values(c: string, copied: nat, spans: seq<(nat, nat)>): (values: seq<string>)
    requires InOrder(copied, spans, |c|)
    ensures |values| == |spans|
    decreases |spans|
  {
    InOrderEnds(copied, spans, |c|);
    if spans == [] then [] else [c[spans[0].0..spans[0].1]] + Values(c, spans[0].1, spans[1..])
  }

  /** The old and the new text are the same stretches, with the old values or the new one
      in between: every byte outside the replaced values is preserved. */
  lemma {:induction false} OnlyValuesChange(c: string, copied: nat, spans: seq<(nat, nat)>, r: string)
    requires InOrder(copied, spans, |c|)
    ensures copied <= |c| && c[copied..] == Interleaved(Stretches(c, copied, spans), Values(c, copied, spans))
    ensures Splice(c, copied, spans, r) == Interleaved(Stretches(c, copied, spans), seq(|spans|, i => r))
    decreases |spans|
  {
    InOrderEnds(copied, spans, |c|);
    if spans != [] {
      var first, rest := spans[0], spans[1..];
      OnlyValuesChange(c, first.1, rest, r);
      var kept, values := Stretches(c, first.1, rest), Values(c, first.1, rest);
      OneMore(c[copied..first.0], kept, c[first.0..first.1], values);
      OneMore(c[copied..first.0], kept, r, seq(|rest|, i => r));
      assert [r] + seq(|rest|, i => r) == seq(|spans|, i => r);
      assert c[copied..] == c[copied..first.0] + c[first.0..first.1] + c[first.1..];
    }
  }

  lemma OneMore(k: string, kept: seq<string>, v: string, values: seq<string>)
    requires |kept| == |values| + 1
    ensures Interleaved([k] + kept, [v] + values) == k + v + Interleaved(kept, values)
  {
    assert ([k] + kept)[1..] == kept && ([v] + values)[1..] == values;
  }
}
