/** Cutting a settings file in front of a token, and the commas the decoder does not see. */
module JsoncSplice {
  import opened Basics
  import opened JsoncMask
  import opened JsoncLex
  import opened Scanner

  // ---------------------------------------------------------------- what follows does not matter

  lemma {:induction false} CloseStable(s: string, t: string)
    requires FindClose(s).Some?
    ensures FindClose(s[..FindClose(s).value] + t) == FindClose(s)
  {
    var n := FindClose(s).value;
    var u := s[..n] + t;
    assert u[0] == s[0] && u[1] == s[1];
    if !(s[0] == '*' && s[1] == '/') {
      CloseStable(s[1..], t);
      assert u[1..] == s[1..][..n - 1] + t;
    }
  }

  /** A finished blank or comment, with its line break if it needs one. */
  lemma GapStable(s: string, p: nat, d: string)
    requires s != "" && (Blank(s[0]) || Opener(s)) && PieceLen(s).Some?
    requires PieceLen(s).value <= p <= |s| && (Opener(s) && s[1] == '/' ==> PieceLen(s).value < p)
    ensures var u := s[..p] + d; Blank(u[0]) == Blank(s[0]) && Opener(u) == Opener(s) && PieceLen(u) == PieceLen(s)
  {
    var n := PieceLen(s).value;
    var u := s[..p] + d;
    assert u[0] == s[0];
    if Opener(s) {
      if s[1] == '/' {
        LineNonempty(s);
        assert u[1] == s[1] && s[n] == '\n';
        assert u == s[..n] + "\n" + (s[n + 1..p] + d);
        LineEndAt(s[..n], s[n + 1..p] + d);
      } else {
        CloseStable(s[2..], s[n..p] + d);
        assert u[2..] == s[2..][..n - 2] + (s[n..p] + d);
      }
    }
  }

  lemma {:induction false} WordContinues(s: string, t: string)
    requires t != "" && (Stop(t[0]) || (Opener(t) && WordLen(s) < |s| && t[0] == s[WordLen(s)]))
    ensures WordLen(s[..WordLen(s)] + t) == WordLen(s)
    ensures s != "" && !Stop(s[0]) && !Opener(s) ==> !Opener(s[..WordLen(s)] + t)
  {
    var n := WordLen(s);
    var u := s[..n] + t;
    if n > 0 {
      WordContinues(s[1..], t);
      assert u[1..] == s[1..][..n - 1] + t && u[0] == s[0];
      assert |s| > 1 ==> u[1] == s[1] || n == 1;
    }
  }

  /** A token that another one follows, or a byte that stops words. */
  lemma TokenStable(s: string, p: nat, d: string)
    requires StartsToken(s) && TokenLen(s) <= p <= |s| && d != "" && Stop(d[0])
    requires s[0] == '"' ==> BodyCloses(s[1..])
    requires Opener(s[TokenLen(s)..]) ==> p == TokenLen(s) || p >= TokenLen(s) + 2
    ensures StartsToken(s[..p] + d) && TokenLen(s[..p] + d) == TokenLen(s)
  {
    var n := TokenLen(s);
    var u, t := s[..p] + d, s[n..p] + d;
    assert u == s[..n] + t && u[0] == s[0];
    if s[0] == '"' {
      BodyStable(s[1..], t);
      assert u[1..] == s[1..][..n - 1] + t;
    } else if !Mark(s[0]) {
      if p > n {
        assert t[0] == s[n] && (p > n + 1 ==> t[1] == s[n + 1]);
      }
      WordContinues(s, t);
    }
  }

  /** No first step depends on what comes after a token that the scan reaches. */
  lemma StepStable(s: string, p: nat, d: string)
    requires d != "" && Stop(d[0])
    ensures Stable(TokenStep, s, p, d)
  {
    if 0 < p <= |s| && Reaches(TokenStep, s, p) {
      if StartsToken(s) {
        TakeStable(s, p, d);
      } else {
        SkipStable(s, p, d);
      }
    }
  }

  lemma LineSkips(s: string)
    requires LineEnd(s) < |s|
    ensures TokenStep(s[LineEnd(s)..]) == Skip(1)
  {
    assert s[LineEnd(s)..][0] == '\n';
  }

  lemma SkipStable(s: string, p: nat, d: string)
    requires d != "" && Stop(d[0]) && 0 < p <= |s| && Reaches(TokenStep, s, p) && s != "" && !StartsToken(s)
    ensures TokenStep(s[..p] + d) == TokenStep(s) && TokenStep(s).Skip?
  {
    var n := TokenStep(s).n;
    if Opener(s) && s[1] == '/' {
      LineSkips(s);
    }
    GapStable(s, p, d);
  }

  lemma TakeStable(s: string, p: nat, d: string)
    requires d != "" && Stop(d[0]) && 0 < p <= |s| && Reaches(TokenStep, s, p) && StartsToken(s)
    ensures TokenStep(s[..p] + d) == TokenStep(s)
  {
    var n := TokenLen(s);
    assert Reaches(TokenStep, s[n..], p - n);
    if s[0] == '"' && !BodyCloses(s[1..]) {
      OpenBodyIsRest(s[1..]);
    }
    if Opener(s[n..]) && p != n {
      CommentIsLong(s[n..]);
    }
    TokenStable(s, p, d);
  }

  lemma CommentIsLong(s: string)
    requires Opener(s) && PieceLen(s).Some?
    ensures PieceLen(s).value >= 2
  {
    if s[1] == '/' {
      assert LineEnd(s) == 1 + LineEnd(s[1..]);
    }
  }

  lemma TokensCutCleanly(d: string)
    requires d != "" && Stop(d[0])
    ensures CutsCleanly(TokenStep, d)
  {
    forall s: string, p: nat ensures Stable(TokenStep, s, p, d) {
      StepStable(s, p, d);
    }
  }

  // ---------------------------------------------------------------- dropped commas

  function DropTexts(ts: seq<string>): seq<string> {
    if ts == [] then [] else if Trails(ts) then DropTexts(ts[1..]) else [ts[0]] + DropTexts(ts[1..])
  }

  lemma {:induction false} TextsOfDrop(ls: seq<Lexeme>)
    ensures Texts(Drop(ls)) == DropTexts(Texts(ls))
  {
    if ls != [] {
      TextsOfDrop(ls[1..]);
      assert Texts(ls)[1..] == Texts(ls[1..]);
      assert Texts([ls[0]] + Drop(ls[1..])) == [ls[0].text] + Texts(Drop(ls[1..]));
    }
  }

  /** The place of a kept token among all tokens. */
  function Place(ls: seq<Lexeme>, i: nat): (q: nat)
    requires i < |Drop(ls)|
    ensures q < |ls| && ls[q] == Drop(ls)[i]
  {
    if Trails(Texts(ls)) then 1 + Place(ls[1..], i) else if i == 0 then 0 else 1 + Place(ls[1..], i - 1)
  }

  lemma {:induction false} AfterPlace(ls: seq<Lexeme>, i: nat)
    requires i < |Drop(ls)|
    ensures Drop(ls[Place(ls, i) + 1..]) == Drop(ls)[i + 1..]
  {
    if Trails(Texts(ls)) {
      AfterPlace(ls[1..], i);
      assert ls[1..][Place(ls[1..], i) + 1..] == ls[Place(ls, i) + 1..];
    } else if i > 0 {
      AfterPlace(ls[1..], i - 1);
      assert ls[1..][Place(ls[1..], i - 1) + 1..] == ls[Place(ls, i) + 1..];
    }
  }

  /** In front of a token that closes nothing, the same commas are dropped whatever follows,
      as long as that closes nothing either. */
  lemma {:induction false} BeforePlace(ls: seq<Lexeme>, i: nat, w: seq<Lexeme>)
    requires i < |Drop(ls)| && !Closer(Drop(ls)[i].text) && w != [] && !Closer(w[0].text)
    ensures Drop(ls[..Place(ls, i)] + w) == Drop(ls)[..i] + Drop(w)
  {
    if Trails(Texts(ls)) {
      BeforePlace(ls[1..], i, w);
      BeforeDropped(ls, i, w);
    } else if i == 0 {
      assert ls[..0] + w == w && Drop(ls)[..0] + Drop(w) == Drop(w);
    } else {
      BeforePlace(ls[1..], i - 1, w);
      BeforeKept(ls, i, w);
    }
  }

  lemma BeforeDropped(ls: seq<Lexeme>, i: nat, w: seq<Lexeme>)
    requires ls != [] && Trails(Texts(ls)) && i < |Drop(ls)| && !Closer(Drop(ls)[i].text) && w != []
    requires !Closer(w[0].text)
    requires Drop(ls[1..][..Place(ls[1..], i)] + w) == Drop(ls[1..])[..i] + Drop(w)
    ensures Drop(ls[..Place(ls, i)] + w) == Drop(ls)[..i] + Drop(w)
  {
    var q := Place(ls, i);
    TakeFirst(ls, q, w);
    TrailsAgain(ls, q, w);
    DropDropped(ls);
    DropDropped(ls[..q] + w);
  }

  lemma DropDropped(ls: seq<Lexeme>)
    requires ls != [] && Trails(Texts(ls))
    ensures Drop(ls) == Drop(ls[1..])
  {
  }

  lemma BeforeKept(ls: seq<Lexeme>, i: nat, w: seq<Lexeme>)
    requires ls != [] && !Trails(Texts(ls)) && 0 < i < |Drop(ls)| && !Closer(Drop(ls)[i].text)
    requires w != [] && !Closer(w[0].text)
    requires Drop(ls[1..][..Place(ls[1..], i - 1)] + w) == Drop(ls[1..])[..i - 1] + Drop(w)
    ensures Drop(ls[..Place(ls, i)] + w) == Drop(ls)[..i] + Drop(w)
  {
    var q := Place(ls, i);
    TakeFirst(ls, q, w);
    TrailsAgain(ls, q, w);
    KeptJoined(ls, ls[..q] + w, i, Drop(w));
  }

  lemma TakeFirst<T>(ls: seq<T>, q: nat, w: seq<T>)
    requires 0 < q <= |ls|
    ensures (ls[..q] + w)[1..] == ls[1..][..q - 1] + w && (ls[..q] + w)[0] == ls[0]
  {
  }

  lemma KeptJoined(ls: seq<Lexeme>, us: seq<Lexeme>, i: nat, rest: seq<Lexeme>)
    requires ls != [] && us != [] && us[0] == ls[0] && !Trails(Texts(ls)) && !Trails(Texts(us)) && 0 < i <= |Drop(ls)|
    requires Drop(us[1..]) == Drop(ls[1..])[..i - 1] + rest
    ensures Drop(us) == Drop(ls)[..i] + rest
  {
    DropKept(us);
    DropKept(ls);
    FirstOf(ls[0], Drop(ls[1..]), i, rest);
  }

  lemma DropKept(ls: seq<Lexeme>)
    requires ls != [] && !Trails(Texts(ls))
    ensures Drop(ls) == [ls[0]] + Drop(ls[1..])
  {
  }

  lemma FirstOf<T>(x: T, kept: seq<T>, i: nat, rest: seq<T>)
    requires 0 < i <= |kept| + 1
    ensures [x] + (kept[..i - 1] + rest) == ([x] + kept)[..i] + rest
  {
    assert ([x] + kept)[..i] == [x] + kept[..i - 1];
    Regroup([x], kept[..i - 1], rest);
  }

  lemma TrailsAgain(ls: seq<Lexeme>, q: nat, w: seq<Lexeme>)
    requires 0 < q < |ls| && !Closer(ls[q].text) && w != [] && !Closer(w[0].text)
    ensures Trails(Texts(ls[..q] + w)) <==> Trails(Texts(ls))
  {
    var us := ls[..q] + w;
    assert us[0] == ls[0] && us[1] == if q == 1 then w[0] else ls[1];
    assert Texts(us)[0] == us[0].text && Texts(us)[1] == us[1].text;
    assert Texts(ls)[0] == ls[0].text && Texts(ls)[1] == ls[1].text;
  }
}
