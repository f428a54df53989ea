/** The byte scanners that turn an editor's settings file (JSON with comments and trailing
    commas) into JSON of the same length. Texts are byte strings. */
module JsoncMask {
  import opened Basics

  predicate Blank(c: char) {
    c == ' ' || c == '\n' || c == '\r' || c == '\t'
  }

  // ---------------------------------------------------------------- pieces of a text

  /** The length of a string token after its opening quote, up to the end of the text if
      it is not closed. */
  function BodyEnd(s: string): (n: nat)
    ensures n <= |s|
  {
    if s == "" then 0
    else if s[0] == '\\' then (if |s| == 1 then 1 else 2 + BodyEnd(s[2..]))
    else if s[0] == '"' then 1
    else 1 + BodyEnd(s[1..])
  }

  predicate BodyCloses(s: string) {
    s != "" &&
    if s[0] == '\\' then |s| > 1 && BodyCloses(s[2..])
    else s[0] == '"' || BodyCloses(s[1..])
  }

  predicate Opener(s: string) {
    |s| > 1 && s[0] == '/' && (s[1] == '/' || s[1] == '*')
  }

  function FindClose(s: string): (n: Option<nat>)
    ensures n.Some? ==> 2 <= n.value <= |s|
  {
    if |s| < 2 then None
    else if s[0] == '*' && s[1] == '/' then Some(2)
    else
      var rest := FindClose(s[1..]);
      if rest.None? then None else Some(1 + rest.value)
  }

  /** The first token, comment or single byte; a block comment may lack its end. */
  function PieceLen(s: string): (n: Option<nat>)
    requires s != ""
    ensures n.Some? ==> 1 <= n.value <= |s|
  {
    if s[0] == '"' then Some(1 + BodyEnd(s[1..]))
    else if !Opener(s) then Some(1)
    else if s[1] == '/' then (LineNonempty(s); Some(LineEnd(s)))
    else
      var close := FindClose(s[2..]);
      if close.None? then None else Some(2 + close.value)
  }

  lemma LineNonempty(s: string)
    requires s != "" && s[0] != '\n'
    ensures LineEnd(s) >= 1
  {
  }

  /** The byte at an index belongs to a comment. */
  predicate InComment(s: string, i: int) {
    s != "" && i >= 0 && PieceLen(s).Some? &&
    var n := PieceLen(s).value;
    if i < n then Opener(s) else InComment(s[n..], i - n)
  }

  function Blanked(s: string): (r: string)
    ensures |r| == |s| && forall i | 0 <= i < |s| :: r[i] == if s[i] == '\n' then '\n' else ' '
  {
    seq(|s|, i requires 0 <= i < |s| => if s[i] == '\n' then '\n' else ' ')
  }

  /** What the comment scanner must compute; nothing if a comment is not finished. */
  function MaskComments(s: string): (m: Option<string>)
    ensures m.Some? ==> |m.value| == |s|
  {
    if s == "" then Some("")
    else
      var n := PieceLen(s);
      if n.None? then None
      else
        var rest := MaskComments(s[n.value..]);
        if rest.None? then None
        else Some((if Opener(s) then Blanked(s[..n.value]) else s[..n.value]) + rest.value)
  }

  // ---------------------------------------------------------------- the scanner

  /** `endVSCodeString` */
  method EndString(source: array<char>, start: nat) returns (end: nat)
    requires start < source.Length && source[start] == '"'
    ensures end == start + 1 + BodyEnd(source[start + 1..])
  {
    var index := start + 1;
    while index < source.Length
      invariant start + 1 <= index <= source.Length
      invariant start + 1 + BodyEnd(source[start + 1..]) == index + BodyEnd(source[index..])
    {
      ghost var s := source[index..];
      if source[index] == '\\' {
        if index + 1 == source.Length {
          assert BodyEnd(s) == 1;
          return source.Length;
        }
        assert s[2..] == source[index + 2..];
        index := index + 2;
        continue;
      }
      if source[index] == '"' {
        return index + 1;
      }
      assert s[1..] == source[index + 1..];
      index := index + 1;
    }
    return source.Length;
  }

  /** `maskVSCodeLineComment` */
  method MaskLineComment(source: array<char>, start: nat) returns (end: nat)
    requires start < source.Length && source[start] != '\n'
    modifies source
    ensures end == start + LineEnd(old(source[start..]))
    ensures source[..] == old(source[..start]) + Blanked(old(source[start..end])) + old(source[end..])
  {
    end := start;
    while end < source.Length && source[end] != '\n'
      invariant start <= end <= source.Length
      invariant end + LineEnd(old(source[end..])) == start + LineEnd(old(source[start..]))
      invariant forall i | 0 <= i < source.Length && (i < start || end <= i) :: source[i] == old(source[i])
      invariant forall i | start <= i < end :: source[i] == ' ' && old(source[i]) != '\n'
    {
      assert old(source[end..])[1..] == old(source[end + 1..]);
      source[end] := ' ';
      end := end + 1;
    }
    assert end < source.Length ==> old(source[end..])[0] == '\n';
  }

  lemma {:induction false} NoCloseBefore(s: string, k: nat)
    requires k <= |s| && forall i | 0 <= i < k :: !(i + 1 < |s| && s[i] == '*' && s[i + 1] == '/')
    ensures FindClose(s).None? <==> FindClose(s[k..]).None?
    ensures FindClose(s).Some? ==> FindClose(s).value == k + FindClose(s[k..]).value
  {
    if k == 0 {
      assert s[0..] == s;
    } else if |s| > 1 {
      forall i | 0 <= i < k - 1 ensures !(i + 1 < |s[1..]| && s[1..][i] == '*' && s[1..][i + 1] == '/') {
        assert !(i + 1 + 1 < |s| && s[i + 1] == '*' && s[i + 1 + 1] == '/');
      }
      NoCloseBefore(s[1..], k - 1);
      assert s[1..][k - 1..] == s[k..];
    }
  }

  /** `bytes.Index` for the end of a comment. */
  method IndexClose(source: array<char>, from: nat) returns (at: Option<nat>)
    requires from <= source.Length
    ensures at == FindClose(source[from..])
  {
    var i := from;
    while i + 1 < source.Length
      invariant from <= i <= source.Length
      invariant forall j | from <= j < i :: !(j + 1 < source.Length && source[j] == '*' && source[j + 1] == '/')
    {
      if source[i] == '*' && source[i + 1] == '/' {
        NoCloseBefore(source[from..], i - from);
        assert source[from..][i - from..] == source[i..];
        return Some(i + 2 - from);
      }
      i := i + 1;
    }
    NoCloseBefore(source[from..], i - from);
    return None;
  }

  /** `maskVSCodeBlockComment` */
  method MaskBlockComment(source: array<char>, start: nat) returns (end: Option<nat>)
    requires start + 2 <= source.Length
    modifies source
    ensures end.None? <==> FindClose(old(source[start + 2..])).None?
    ensures end.None? ==> source[..] == old(source[..])
    ensures end.Some? ==>
              && end.value == start + 2 + FindClose(old(source[start + 2..])).value
              && source[..] == old(source[..start]) + Blanked(old(source[start..end.value])) + old(source[end.value..])
  {
    var close := IndexClose(source, start + 2);
    if close.None? {
      return None;
    }
    var limit := start + 2 + close.value;
    var i := start;
    while i < limit
      invariant start <= i <= limit <= source.Length
      invariant forall k | 0 <= k < source.Length && (k < start || i <= k) :: source[k] == old(source[k])
      invariant forall k | start <= k < i :: source[k] == if old(source[k]) == '\n' then '\n' else ' '
    {
      if source[i] != '\n' {
        source[i] := ' ';
      }
      i := i + 1;
    }
    return Some(limit);
  }

  /** The first part of a text is masked, and the scanner stands before the rest. */
  ghost predicate CommentsTo(source: string, index: nat, done: string) {
    && index <= |source| && |done| == index
    && var rest := MaskComments(source[index..]);
       MaskComments(source) == if rest.None? then None else Some(done + rest.value)
  }

  function MaskedPiece(s: string): string
    requires s != "" && PieceLen(s).Some?
  {
    var n := PieceLen(s).value;
    if Opener(s) then Blanked(s[..n]) else s[..n]
  }

  lemma CommentsStart(source: string)
    ensures CommentsTo(source, 0, "")
  {
    assert source[0..] == source;
    assert MaskComments(source).Some? ==> "" + MaskComments(source).value == MaskComments(source).value;
  }

  lemma CommentsAdvance(source: string, index: nat, done: string)
    requires CommentsTo(source, index, done) && index < |source|
    ensures PieceLen(source[index..]).None? ==> MaskComments(source).None?
    ensures PieceLen(source[index..]).Some? ==>
              CommentsTo(source, index + PieceLen(source[index..]).value, done + MaskedPiece(source[index..]))
  {
    var s := source[index..];
    if PieceLen(s).Some? {
      var n := PieceLen(s).value;
      assert s[n..] == source[index + n..];
      if MaskComments(s[n..]).Some? {
        Regroup(done, MaskedPiece(s), MaskComments(s[n..]).value);
      }
    }
  }

  /** One turn of the comment scanner. */
  method MaskPiece(masked: array<char>, index: nat) returns (end: Option<nat>)
    requires index < masked.Length
    modifies masked
    ensures end.None? <==> PieceLen(old(masked[index..])).None?
    ensures end.Some? ==>
              && end.value == index + PieceLen(old(masked[index..])).value
              && masked[..end.value] == old(masked[..index]) + MaskedPiece(old(masked[index..]))
              && masked[end.value..] == old(masked[end.value..])
  {
    ghost var rest := masked[index..];
    assert index + 1 < masked.Length ==> masked[index + 1] == rest[1];
    if masked[index] == '"' {
      assert masked[index + 1..] == rest[1..];
      var next := EndString(masked, index);
      assert masked[..next] == old(masked[..index]) + rest[..next - index];
      return Some(next);
    } else if index + 1 < masked.Length && masked[index] == '/' && masked[index + 1] == '/' {
      var next := MaskLineComment(masked, index);
      assert old(masked[index..next]) == rest[..next - index];
      assert masked[..next] == old(masked[..index]) + Blanked(rest[..next - index]);
      return Some(next);
    } else if index + 1 < masked.Length && masked[index] == '/' && masked[index + 1] == '*' {
      assert masked[index + 2..] == rest[2..];
      end := MaskBlockComment(masked, index);
      if end.Some? {
        assert old(masked[index..end.value]) == rest[..end.value - index];
        assert masked[..end.value] == old(masked[..index]) + Blanked(rest[..end.value - index]);
      }
    } else {
      assert masked[..index + 1] == old(masked[..index]) + rest[..1];
      return Some(index + 1);
    }
  }

  /** `maskVSCodeComments` */
  method MaskCommentsInPlace(source: string) returns (r: Option<string>)
    ensures r == MaskComments(source)
  {
    var masked := new char[|source|](i requires 0 <= i < |source| => source[i]);
    var index := 0;
    CommentsStart(source);
    assert masked[..0] == "" && masked[0..] == source;
    while index < masked.Length
      invariant index <= masked.Length == |source| && masked[index..] == source[index..]
      invariant CommentsTo(source, index, masked[..index])
    {
      CommentsAdvance(source, index, masked[..index]);
      ghost var before := masked[..];
      var next := MaskPiece(masked, index);
      if next.None? {
        return None;
      }
      assert before[next.value..] == source[index..][next.value - index..] == source[next.value..];
      index := next.value;
    }
    assert masked[..index] + "" == masked[..];
    return Some(masked[..]);
  }

  // ---------------------------------------------------------------- trailing commas

  function NextByte(s: string): Option<char> {
    if s == "" then None else if Blank(s[0]) then NextByte(s[1..]) else Some(s[0])
  }

  predicate ClosesNext(s: string) {
    NextByte(s) == Some('}') || NextByte(s) == Some(']')
  }

  /** The byte at an index belongs to a string token. */
  predicate InString(s: string, i: int) {
    s != "" && i >= 0 &&
    if s[0] == '"' then
      var n := 1 + BodyEnd(s[1..]);
      i < n || InString(s[n..], i - n)
    else i > 0 && InString(s[1..], i - 1)
  }

  function MaskCommas(s: string): (m: string)
    ensures |m| == |s|
  {
    if s == "" then ""
    else if s[0] == '"' then
      var n := 1 + BodyEnd(s[1..]);
      s[..n] + MaskCommas(s[n..])
    else [if s[0] == ',' && ClosesNext(s[1..]) then ' ' else s[0]] + MaskCommas(s[1..])
  }

  /** `nextVSCodeToken` */
  method NextToken(source: array<char>, from: nat) returns (next: Option<char>)
    requires from <= source.Length
    ensures next == NextByte(source[from..])
  {
    var index := from;
    while index < source.Length
      invariant from <= index <= source.Length
      invariant NextByte(source[from..]) == NextByte(source[index..])
    {
      assert source[index..][1..] == source[index + 1..];
      if !Blank(source[index]) {
        return Some(source[index]);
      }
      index := index + 1;
    }
    return None;
  }

  ghost predicate CommasTo(source: string, index: nat, done: string) {
    && index <= |source| && |done| == index
    && MaskCommas(source) == done + MaskCommas(source[index..])
  }

  lemma CommasAdvance(source: string, index: nat, done: string)
    requires CommasTo(source, index, done) && index < |source|
    ensures var s := source[index..];
            if s[0] == '"' then CommasTo(source, index + 1 + BodyEnd(s[1..]), done + s[..1 + BodyEnd(s[1..])])
            else CommasTo(source, index + 1, done + [if s[0] == ',' && ClosesNext(s[1..]) then ' ' else s[0]])
  {
    var s := source[index..];
    var n := if s[0] == '"' then 1 + BodyEnd(s[1..]) else 1;
    assert s[n..] == source[index + n..];
    var first := MaskCommas(s)[..n];
    assert MaskCommas(s) == first + MaskCommas(s[n..]);
    Regroup(done, first, MaskCommas(s[n..]));
  }

  /** One turn of the comma scanner. */
  method MaskComma(masked: array<char>, index: nat) returns (end: nat)
    requires index < masked.Length
    modifies masked
    ensures var rest := old(masked[index..]);
            && end == index + (if rest[0] == '"' then 1 + BodyEnd(rest[1..]) else 1)
            && masked[..end] == old(masked[..index]) + (if rest[0] == '"' then rest[..end - index]
                 else [if rest[0] == ',' && ClosesNext(rest[1..]) then ' ' else rest[0]])
            && masked[end..] == old(masked[end..])
  {
    ghost var rest := masked[index..];
    assert masked[index + 1..] == rest[1..];
    if masked[index] == '"' {
      end := EndString(masked, index);
      assert masked[..end] == old(masked[..index]) + rest[..end - index];
      return;
    }
    if masked[index] == ',' {
      var next := NextToken(masked, index + 1);
      if next == Some('}') || next == Some(']') {
        masked[index] := ' ';
      }
    }
    end := index + 1;
    assert masked[..end] == old(masked[..index]) + [masked[index]];
  }

  /** `maskVSCodeTrailingCommas` */
  method MaskCommasInPlace(source: string) returns (r: string)
    ensures r == MaskCommas(source)
  {
    var masked := new char[|source|](i requires 0 <= i < |source| => source[i]);
    var index := 0;
    assert source[0..] == source && "" + MaskCommas(source) == MaskCommas(source) && masked[..0] == "";
    assert masked[0..] == source;
    while index < masked.Length
      invariant index <= masked.Length == |source| && masked[index..] == source[index..]
      invariant CommasTo(source, index, masked[..index])
    {
      CommasAdvance(source, index, masked[..index]);
      ghost var before := masked[..];
      var next := MaskComma(masked, index);
      assert before[next..] == source[index..][next - index..] == source[next..];
      index := next;
    }
    assert masked[..index] + "" == masked[..];
    return masked[..];
  }

  /** Only commas outside strings whose next non-blank byte closes a container change, and
      they become spaces. */
  lemma {:induction false} CommasExactly(s: string, i: nat)
    requires i < |s|
    ensures MaskCommas(s)[i] == if s[i] == ',' && !InString(s, i) && ClosesNext(s[i + 1..]) then ' ' else s[i]
  {
    if s[0] == '"' {
      var n := 1 + BodyEnd(s[1..]);
      if i >= n {
        CommasExactly(s[n..], i - n);
        assert s[n..][i - n + 1..] == s[i + 1..];
      }
    } else if i > 0 {
      CommasExactly(s[1..], i - 1);
      assert s[1..][i - 1 + 1..] == s[i + 1..];
    }
  }

  // ---------------------------------------------------------------- what comment masking keeps

  /** Every byte outside comments is kept, and every byte inside them becomes a space,
      except line breaks. */
  lemma {:induction false} CommentsExactly(s: string, i: nat)
    requires i < |s| && MaskComments(s).Some?
    ensures MaskComments(s).value[i] == if InComment(s, i) && s[i] != '\n' then ' ' else s[i]
  {
    var n := PieceLen(s).value;
    if i >= n {
      CommentsExactly(s[n..], i - n);
      assert s[n..][i - n] == s[i];
    }
  }

  /** Masking fails exactly when a block comment outside strings is not finished. */
  predicate Unfinished(s: string) {
    s != "" && (PieceLen(s).None? || Unfinished(s[PieceLen(s).value..]))
  }

  lemma {:induction false} FailsIffUnfinished(s: string)
    ensures MaskComments(s).None? <==> Unfinished(s)
  {
    if s != "" && PieceLen(s).Some? {
      FailsIffUnfinished(s[PieceLen(s).value..]);
    }
  }

  /** A closed string token ends in the same place whatever follows it. */
  lemma {:induction false} BodyStable(s: string, t: string)
    requires BodyCloses(s) || t == ""
    ensures BodyEnd(s[..BodyEnd(s)] + t) == BodyEnd(s)
    ensures BodyCloses(s) ==> BodyCloses(s[..BodyEnd(s)] + t)
  {
    var u := s[..BodyEnd(s)] + t;
    if s == "" {
    } else if s[0] == '\\' {
      if |s| > 1 {
        BodyStable(s[2..], t);
        assert u[2..] == s[2..][..BodyEnd(s[2..])] + t && u[0] == s[0];
      }
    } else if s[0] != '"' {
      BodyStable(s[1..], t);
      assert u[1..] == s[1..][..BodyEnd(s[1..])] + t && u[0] == s[0];
    }
  }

  lemma {:induction false} OpenBodyIsRest(s: string)
    requires !BodyCloses(s)
    ensures BodyEnd(s) == |s|
  {
    if s != "" {
      if s[0] == '\\' {
        if |s| > 1 {
          OpenBodyIsRest(s[2..]);
        }
      } else {
        OpenBodyIsRest(s[1..]);
      }
    }
  }

  ghost predicate Clean(m: string) {
    MaskComments(m) == Some(m) && forall i: int :: !InComment(m, i)
  }

  /** Blanks in front do not disturb the scan. */
  lemma {:induction false} BlanksClean(b: string, m: string)
    requires Clean(m) && forall c <- b :: c == ' ' || c == '\n'
    ensures Clean(b + m)
  {
    var s := b + m;
    if b == "" {
      assert s == m;
    } else {
      assert s[0] == b[0] && b[0] in b && s[1..] == b[1..] + m;
      assert forall c <- b[1..] :: c in b;
      BlanksClean(b[1..], m);
      OneClean(s);
    }
  }

  lemma OneClean(s: string)
    requires s != "" && s[0] != '"' && !Opener(s) && Clean(s[1..])
    ensures Clean(s)
  {
    assert s[..1] + s[1..] == s;
    forall i: int ensures !InComment(s, i) {
      assert !InComment(s[1..], i - 1);
    }
  }

  lemma StringClean(s: string, m: string)
    requires s != "" && s[0] == '"' && Clean(m) && |m| == |s| - 1 - BodyEnd(s[1..])
    ensures Clean(s[..1 + BodyEnd(s[1..])] + m)
  {
    var n := 1 + BodyEnd(s[1..]);
    var t := s[..n] + m;
    if !BodyCloses(s[1..]) {
      OpenBodyIsRest(s[1..]);
    }
    BodyStable(s[1..], m);
    assert t[1..] == s[1..][..BodyEnd(s[1..])] + m && t[..n] == s[..n] && t[n..] == m;
    assert PieceLen(t) == Some(n) && !Opener(t);
    forall i: int ensures !InComment(t, i) {
      assert !InComment(m, i - n);
    }
  }

  /** No comment opener is left outside strings, so masking again changes nothing. */
  lemma {:induction false} MaskIsClean(s: string)
    requires MaskComments(s).Some?
    ensures Clean(MaskComments(s).value)
  {
    if s != "" {
      var n := PieceLen(s).value;
      var m, rest := MaskComments(s).value, MaskComments(s[n..]).value;
      MaskIsClean(s[n..]);
      if s[0] == '"' {
        StringClean(s, rest);
      } else if Opener(s) {
        BlanksClean(Blanked(s[..n]), rest);
      } else {
        assert n == 1 && m[1..] == rest && m[0] == s[0];
        if rest != "" {
          CommentsExactly(s[1..], 0);
        }
        OneClean(m);
      }
    }
  }
}
