/** Slash-separated paths as Go's `path` package treats them. A `char` stands for one
    byte of the Go string. */
module PackPaths {

  // ---------------------------------------------------------------- components

  /** The pieces between slashes; there is always at least one. */
  function Split(s: string): (parts: seq<string>)
    ensures |parts| > 0
    ensures forall part <- parts :: '/' !in part
  {
    if s == "" then [""]
    else
      var rest := Split(s[1..]);
      if s[0] == '/' then [""] + rest else [[s[0]] + rest[0]] + rest[1..]
  }

  function Join(parts: seq<string>): string {
    if parts == [] then ""
    else if |parts| == 1 then parts[0]
    else parts[0] + "/" + Join(parts[1..])
  }

  lemma {:induction false} JoinSplit(s: string)
    ensures Join(Split(s)) == s
  {
    if s != "" {
      JoinSplit(s[1..]);
      var rest := Split(s[1..]);
      if s[0] == '/' {
        assert ([""] + rest)[1..] == rest;
      } else {
        assert ([[s[0]] + rest[0]] + rest[1..])[1..] == rest[1..];
      }
    }
  }

  lemma {:induction false} SplitPlain(s: string)
    requires '/' !in s
    ensures Split(s) == [s]
  {
    if s != "" {
      assert forall c <- s[1..] :: c in s;
      SplitPlain(s[1..]);
      assert [s[0]] + s[1..] == s;
    }
  }

  lemma {:induction false} SplitSlash(a: string, b: string)
    ensures Split(a + "/" + b) == Split(a) + Split(b)
  {
    var s := a + "/" + b;
    if a == "" {
      assert s[1..] == b;
    } else {
      SplitSlash(a[1..], b);
      assert s[0] == a[0] && s[1..] == a[1..] + "/" + b;
      SplitHead(s, a, Split(b));
    }
  }

  /** How the first byte joins the split of the rest. */
  lemma SplitHead(s: string, a: string, tail: seq<string>)
    requires s != "" && a != "" && s[0] == a[0] && Split(s[1..]) == Split(a[1..]) + tail
    ensures Split(s) == Split(a) + tail
  {
    var front := Split(a[1..]);
    if a[0] == '/' {
      HeadAndTail("", front, tail);
    } else {
      assert (front + tail)[0] == front[0] && (front + tail)[1..] == front[1..] + tail;
      HeadAndTail([a[0]] + front[0], front[1..], tail);
    }
  }

  lemma HeadAndTail(head: string, front: seq<string>, tail: seq<string>)
    ensures [head] + (front + tail) == ([head] + front) + tail
  {
  }

  lemma {:induction false} SplitJoin(parts: seq<string>)
    requires parts != [] && forall part <- parts :: '/' !in part
    ensures Split(Join(parts)) == parts
  {
    SplitPlain(parts[0]);
    if |parts| > 1 {
      SplitJoin(parts[1..]);
      SplitSlash(parts[0], Join(parts[1..]));
    }
  }

  lemma {:induction false} JoinConcat(a: seq<string>, b: seq<string>)
    requires a != [] && b != []
    ensures Join(a + b) == Join(a) + "/" + Join(b)
  {
    if |a| == 1 {
      assert (a + b)[1..] == b;
    } else {
      JoinConcat(a[1..], b);
      assert (a + b)[1..] == a[1..] + b;
    }
  }

  // ---------------------------------------------------------------- cleaning

  predicate Ordinary(part: string) {
    part != "" && part != "." && part != ".." && '/' !in part
  }

  predicate AllOrdinary(parts: seq<string>) {
    forall part <- parts :: Ordinary(part)
  }

  /** One component applied to the components kept so far. */
  function Push(rooted: bool, kept: seq<string>, part: string): seq<string> {
    if part == "" || part == "." then kept
    else if part != ".." then kept + [part]
    else if kept != [] && kept[|kept| - 1] != ".." then kept[..|kept| - 1]
    else if rooted then kept
    else kept + [".."]
  }

  function Resolve(rooted: bool, kept: seq<string>, parts: seq<string>): seq<string>
    decreases parts
  {
    if parts == [] then kept else Resolve(rooted, Push(rooted, kept, parts[0]), parts[1..])
  }

  predicate IsAbs(s: string) {
    s != "" && s[0] == '/'
  }

  function Clean(s: string): string {
    var kept := Resolve(IsAbs(s), [], Split(s));
    if IsAbs(s) then "/" + Join(kept) else if kept == [] then "." else Join(kept)
  }

  /** Characters `SafePath` and `validateLink` refuse. */
  predicate NoForbidden(s: string) {
    forall c <- s :: c != '\\' && c != ':' && c != '\0'
  }

  predicate HasPrefix(s: string, prefix: string) {
    |prefix| <= |s| && s[..|prefix|] == prefix
  }

  /** The check on a host other than Windows. */
  predicate SafePath(s: string) {
    && s != "." && s != "" && !IsAbs(s) && Clean(s) == s
    && s != ".." && !HasPrefix(s, "../") && NoForbidden(s)
  }

  /** Kept components of a relative path: some leading `..`, then ordinary ones. */
  predicate Tidy(kept: seq<string>) {
    forall i | 0 <= i < |kept| ::
      (kept[i] == ".." && forall j | 0 <= j < i :: kept[j] == "..") || Ordinary(kept[i])
  }

  lemma {:induction false} ResolveTidy(kept: seq<string>, parts: seq<string>)
    requires Tidy(kept) && forall part <- parts :: '/' !in part
    ensures Tidy(Resolve(false, kept, parts))
    decreases parts
  {
    if parts != [] {
      ResolveTidy(Push(false, kept, parts[0]), parts[1..]);
    }
  }

  lemma {:induction false} ResolveOrdinary(kept: seq<string>, parts: seq<string>)
    requires AllOrdinary(parts)
    ensures Resolve(false, kept, parts) == kept + parts
    decreases parts
  {
    if parts == [] {
      assert kept + parts == kept;
    } else {
      assert Ordinary(parts[0]);
      ResolveOrdinary(kept + [parts[0]], parts[1..]);
      assert kept + [parts[0]] + parts[1..] == kept + parts;
    }
  }

  lemma FirstPart(parts: seq<string>)
    requires parts != []
    ensures parts[0] == ".." ==> Join(parts) == ".." || HasPrefix(Join(parts), "../")
  {
    if |parts| > 1 {
      assert (".." + "/" + Join(parts[1..]))[..3] == "../";
    }
  }

  /** `SafePath` accepts exactly the non-empty sequences of ordinary components. */
  lemma SafePathIff(s: string)
    ensures SafePath(s) <==> AllOrdinary(Split(s)) && NoForbidden(s)
    ensures NoForbidden(s) <==> '\\' !in s && ':' !in s && '\0' !in s
  {
    JoinSplit(s);
    var parts := Split(s);
    if AllOrdinary(parts) {
      ResolveOrdinary([], parts);
      assert [] + parts == parts;
      OrdinaryShape(s);
    }
    if SafePath(s) {
      SafeIsOrdinary(s);
    }
  }

  lemma SafeIsOrdinary(s: string)
    requires SafePath(s)
    ensures AllOrdinary(Split(s))
  {
    var kept := Resolve(false, [], Split(s));
    ResolveTidy([], Split(s));
    JoinSplit(s);
    assert kept != [];
    SplitJoin(kept);
    FirstPart(kept);
  }

  lemma RootedSplit(s: string)
    ensures IsAbs(s) ==> Split(s)[0] == ""
  {
  }

  lemma OrdinaryShape(s: string)
    requires AllOrdinary(Split(s))
    ensures s != "" && s != "." && s != ".." && !IsAbs(s) && !HasPrefix(s, "../")
  {
    JoinSplit(s);
    var parts := Split(s);
    assert Ordinary(parts[0]);
    RootedSplit(s);
    if s == "." || s == ".." { SplitPlain(s); }
    if HasPrefix(s, "../") {
      assert s == ".." + "/" + s[3..];
      SplitSlash("..", s[3..]);
      SplitPlain("..");
    }
  }

  // ---------------------------------------------------------------- parents

  /** Everything up to the last slash, cleaned. */
  function Dir(s: string): string {
    Clean(Join(Split(s)[..|Split(s)| - 1] + [""]))
  }

  lemma ResolveEmpty(kept: seq<string>)
    ensures Resolve(false, kept, [""]) == kept
  {
    assert Resolve(false, kept, [""]) == Resolve(false, Push(false, kept, ""), [""][1..]);
  }

  /** Cleaning a safe directory with its trailing slash gives the directory. */
  lemma CleanDirectory(directory: string)
    requires SafePath(directory)
    ensures Clean(directory + "/") == directory
  {
    SafePathIff(directory);
    var front := Split(directory);
    JoinSplit(directory);
    assert directory + "/" + "" == directory + "/";
    SplitSlash(directory, "");
    ResolveThen([], front, [""]);
    ResolveOrdinary([], front);
    assert [] + front == front;
    ResolveEmpty(front);
    assert (directory + "/")[0] == directory[0];
  }

  lemma FrontIsSafe(s: string)
    requires SafePath(s) && |Split(s)| > 1
    ensures var front := Split(s)[..|Split(s)| - 1];
            Split(Join(front)) == front && SafePath(Join(front)) && |Join(front)| < |s|
  {
    var front := Split(s)[..|Split(s)| - 1];
    SplitJoin(front);
    assert Ancestor(Join(front), s);
    AncestorIsPrefix(Join(front), s);
    AncestorOfSafe(Join(front), s);
  }

  lemma DirOfTop(s: string)
    requires |Split(s)| == 1
    ensures Dir(s) == "."
  {
    assert Split(s)[..0] + [""] == [""];
    SplitPlain("");
    ResolveEmpty([]);
  }

  /** The parent of a safe path drops its last component. */
  lemma DirOfSafe(s: string)
    requires SafePath(s)
    ensures |Split(s)| == 1 ==> Dir(s) == "."
    ensures |Split(s)| > 1 ==> SafePath(Dir(s)) && Split(Dir(s)) == Split(s)[..|Split(s)| - 1] && |Dir(s)| < |s|
  {
    if |Split(s)| == 1 {
      DirOfTop(s);
    } else {
      FrontIsSafe(s);
      DirOfDeep(s, Split(s)[..|Split(s)| - 1]);
    }
  }

  lemma DirOfDeep(s: string, front: seq<string>)
    requires |Split(s)| > 1 && front == Split(s)[..|Split(s)| - 1] && SafePath(Join(front))
    ensures Dir(s) == Join(front)
  {
    JoinConcat(front, [""]);
    assert Join(front) + "/" + "" == Join(front) + "/";
    CleanDirectory(Join(front));
  }

  lemma {:induction false} ResolveThen(kept: seq<string>, a: seq<string>, b: seq<string>)
    ensures Resolve(false, kept, a + b) == Resolve(false, Resolve(false, kept, a), b)
    decreases a
  {
    if a == [] {
      assert a + b == b;
    } else {
      ResolveThen(Push(false, kept, a[0]), a[1..], b);
      assert (a + b)[1..] == a[1..] + b;
    }
  }

  /** A proper ancestor directory of a path. */
  predicate Ancestor(a: string, s: string) {
    |Split(a)| < |Split(s)| && Split(s)[..|Split(a)|] == Split(a)
  }

  lemma AncestorIsPrefix(a: string, s: string)
    requires Ancestor(a, s)
    ensures |a| < |s| && s[..|a|] == a
  {
    JoinSplit(a);
    JoinSplit(s);
    var n := |Split(a)|;
    JoinConcat(Split(s)[..n], Split(s)[n..]);
    assert Split(s)[..n] + Split(s)[n..] == Split(s);
  }

  lemma AncestorOfSafe(a: string, s: string)
    requires SafePath(s) && Ancestor(a, s)
    ensures SafePath(a)
  {
    AncestorIsPrefix(a, s);
    SafePathIff(s);
    SafePathIff(a);
    forall part <- Split(a) ensures Ordinary(part) {
      assert part in Split(s)[..|Split(a)|];
    }
    forall c <- a ensures c in s {
      assert c in s[..|a|];
    }
  }

  /** Splitting is injective. */
  lemma SplitInjective(a: string, b: string)
    requires Split(a) == Split(b)
    ensures a == b
  {
    JoinSplit(a);
    JoinSplit(b);
  }

  // ---------------------------------------------------------------- byte order

  /** The order of Go strings. */
  predicate Less(a: string, b: string) {
    b != "" && (a == "" || a[0] < b[0] || (a[0] == b[0] && Less(a[1..], b[1..])))
  }

  lemma {:induction false} LessTotal(a: string, b: string)
    ensures Less(a, b) || Less(b, a) || a == b
    ensures !(Less(a, b) && Less(b, a))
    ensures !Less(a, a)
  {
    if a != "" && b != "" {
      LessTotal(a[1..], b[1..]);
      assert a == [a[0]] + a[1..] && b == [b[0]] + b[1..];
    }
    if a != "" { LessTotal'(a); }
  }

  lemma {:induction false} LessTotal'(a: string)
    ensures !Less(a, a)
  {
    if a != "" { LessTotal'(a[1..]); }
  }

  lemma {:induction false} LessTransitive(a: string, b: string, c: string)
    requires Less(a, b) && Less(b, c)
    ensures Less(a, c)
  {
    if a != "" && a[0] == b[0] == c[0] {
      LessTransitive(a[1..], b[1..], c[1..]);
    }
  }

  lemma {:induction false} PrefixLess(a: string, b: string)
    requires |a| < |b| && b[..|a|] == a
    ensures Less(a, b)
  {
    if a != "" {
      assert a[0] == b[..|a|][0] == b[0];
      assert b[1..][..|a| - 1] == b[..|a|][1..] == a[1..];
      PrefixLess(a[1..], b[1..]);
    }
  }

  // ---------------------------------------------------------------- symbolic links

  /** Follows components from a directory inside the tree; leaving the tree, even in
      passing, yields nothing. */
  function Walk(at: seq<string>, parts: seq<string>): (place: seq<seq<string>>)
    ensures |place| <= 1
    decreases parts
  {
    if parts == [] then [at]
    else if parts[0] == "" || parts[0] == "." then Walk(at, parts[1..])
    else if parts[0] != ".." then Walk(at + [parts[0]], parts[1..])
    else if at == [] then []
    else Walk(at[..|at| - 1], parts[1..])
  }

  lemma {:induction false} EscapeStays(kept: seq<string>, parts: seq<string>)
    requires kept != [] && kept[0] == ".."
    ensures Resolve(false, kept, parts) != [] && Resolve(false, kept, parts)[0] == ".."
    decreases parts
  {
    if parts != [] {
      EscapeStays(Push(false, kept, parts[0]), parts[1..]);
    }
  }

  /** Cleaning keeps a leading `..` exactly when the walk leaves the tree at some point. */
  lemma {:induction false} WalkResolve(at: seq<string>, parts: seq<string>)
    requires AllOrdinary(at) && forall part <- parts :: '/' !in part
    ensures Walk(at, parts) == [] <==>
              Resolve(false, at, parts) != [] && Resolve(false, at, parts)[0] == ".."
    ensures Walk(at, parts) != [] ==>
              Walk(at, parts) == [Resolve(false, at, parts)] && AllOrdinary(Resolve(false, at, parts))
    decreases parts
  {
    if parts == [] {
      assert at != [] ==> Ordinary(at[0]);
    } else if parts[0] == "" || parts[0] == "." {
      WalkResolve(at, parts[1..]);
    } else if parts[0] != ".." {
      WalkResolve(at + [parts[0]], parts[1..]);
    } else if at == [] {
      assert at + [".."] == [".."];
      EscapeStays([".."], parts[1..]);
    } else {
      assert Ordinary(at[|at| - 1]);
      WalkResolve(at[..|at| - 1], parts[1..]);
    }
  }

  // The path from one directory to a place in the same tree.

  function Common(a: seq<string>, b: seq<string>): nat {
    if a == [] || b == [] || a[0] != b[0] then 0 else 1 + Common(a[1..], b[1..])
  }

  function Ups(n: nat): (parts: seq<string>)
    ensures |parts| == n && forall part <- parts :: part == ".."
  {
    if n == 0 then [] else [".."] + Ups(n - 1)
  }

  /** `filepath.Rel` on two places of one tree. */
  function Rel(from: seq<string>, to: seq<string>): seq<string> {
    var n := Common(from, to);
    if n <= |from| && n <= |to| then Ups(|from| - n) + to[n..] else []
  }

  lemma {:induction false} CommonPrefix(a: seq<string>, b: seq<string>)
    ensures Common(a, b) <= |a| && Common(a, b) <= |b|
    ensures a[..Common(a, b)] == b[..Common(a, b)]
  {
    if a != [] && b != [] && a[0] == b[0] {
      CommonPrefix(a[1..], b[1..]);
      var n := Common(a[1..], b[1..]);
      assert a[..n + 1] == [a[0]] + a[1..][..n] && b[..n + 1] == [b[0]] + b[1..][..n];
    }
  }

  lemma {:induction false} WalkUps(at: seq<string>, n: nat, rest: seq<string>)
    requires n <= |at|
    ensures Walk(at, Ups(n) + rest) == Walk(at[..|at| - n], rest)
    decreases n
  {
    if n == 0 {
      assert Ups(0) + rest == rest && at[..|at|] == at;
    } else {
      var parts := Ups(n) + rest;
      assert parts[0] == ".." && parts[1..] == Ups(n - 1) + rest;
      assert at[..|at| - 1][..|at| - 1 - (n - 1)] == at[..|at| - n];
      WalkUps(at[..|at| - 1], n - 1, rest);
    }
  }

  lemma {:induction false} WalkDown(at: seq<string>, parts: seq<string>)
    requires AllOrdinary(parts)
    ensures Walk(at, parts) == [at + parts]
    decreases parts
  {
    if parts == [] {
      assert at + parts == at;
    } else {
      assert Ordinary(parts[0]);
      WalkDown(at + [parts[0]], parts[1..]);
      assert at + [parts[0]] + parts[1..] == at + parts;
    }
  }

  /** Walking the relative path arrives, and never leaves the tree on the way. */
  lemma RelArrives(from: seq<string>, to: seq<string>)
    requires AllOrdinary(from) && AllOrdinary(to)
    ensures Walk(from, Rel(from, to)) == [to]
  {
    CommonPrefix(from, to);
    var n := Common(from, to);
    WalkUps(from, |from| - n, to[n..]);
    WalkDown(from[..n], to[n..]);
    assert to[..n] + to[n..] == to;
  }
}
