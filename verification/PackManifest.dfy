/** Sealed manifests of runtime packs: which inventories are accepted, and what
    acceptance guarantees about the tree that will be built from them. */
module PackManifest {
  import opened PackPaths

  /** A parsed object name. SHA-256 is idealised as injective, so an object's hash is
      written as the bytes it was computed from; the suffix is `-555` or `-444`. A name can be
      well formed and still be the hash of nothing, for one because its digits are upper-case. */
  datatype ObjectRef =
    | NoObject
    | BadObject(text: string)
    | Unmatched(text: string, executable: bool)
    | Object(bytes: string, executable: bool)

  datatype File = File(path: string, stored: ObjectRef, link: string, size: int)

  /** Everything the digest binds. */
  datatype Core = Core(
    format: string, os: string, arch: string, python: string, version: string, harnest: string,
    inputs: seq<string>, files: seq<File>)

  /** The digest of a core stands for the core, again by injectivity. */
  datatype Digest = NoDigest | DigestOf(core: Core)

  datatype Manifest = Manifest(core: Core, digest: Digest)

  const FORMAT := "harnest.runtime/v1"

  // ---------------------------------------------------------------- links

  /** Where a link points, as `path.Clean(path.Join(path.Dir(p), link))`. */
  function Target(f: File): string {
    Clean(Clean(Dir(f.path) + "/" + f.link))
  }

  predicate LinkFits(f: File) {
    f.stored == NoObject && !IsAbs(f.link) && NoForbidden(f.link) && SafePath(Target(f))
  }

  /** The directory that holds a file. */
  function Home(path: string): seq<string> {
    Split(path)[..|Split(path)| - 1]
  }

  lemma {:induction false} ResolveKeepsParts(kept: seq<string>, parts: seq<string>, good: string -> bool)
    requires (forall part <- kept :: good(part)) && (forall part <- parts :: good(part)) && good("..")
    ensures forall part <- Resolve(false, kept, parts) :: good(part)
    decreases parts
  {
    if parts != [] {
      assert good(parts[0]);
      ResolveKeepsParts(Push(false, kept, parts[0]), parts[1..], good);
    }
  }

  lemma {:induction false} JoinForbids(parts: seq<string>)
    ensures NoForbidden(Join(parts)) <==> forall part <- parts :: NoForbidden(part)
  {
    if |parts| > 1 {
      var rest := Join(parts[1..]);
      JoinForbids(parts[1..]);
      assert parts == [parts[0]] + parts[1..];
      assert forall c :: c in Join(parts) <==> c in parts[0] || c == '/' || c in rest;
      assert (forall part <- parts :: NoForbidden(part)) <==>
             NoForbidden(parts[0]) && forall part <- parts[1..] :: NoForbidden(part);
    }
  }

  lemma SplitForbids(s: string)
    ensures NoForbidden(s) <==> forall part <- Split(s) :: NoForbidden(part)
  {
    JoinSplit(s);
    JoinForbids(Split(s));
  }

  /** The components of a link resolved from the file's directory. */
  function Resolved(f: File): seq<string> {
    Resolve(false, Home(f.path), Split(f.link))
  }

  lemma HomeIsOrdinary(f: File)
    requires SafePath(f.path)
    ensures AllOrdinary(Home(f.path)) && forall part <- Home(f.path) :: NoForbidden(part)
  {
    SafePathIff(f.path);
    SplitForbids(f.path);
    forall part <- Home(f.path) ensures part in Split(f.path) {
    }
  }

  lemma FirstCleaning(f: File)
    requires SafePath(f.path)
    ensures Clean(Dir(f.path) + "/" + f.link) == if Resolved(f) == [] then "." else Join(Resolved(f))
  {
    var dir := Dir(f.path);
    DirOfSafe(f.path);
    SplitSlash(dir, f.link);
    ResolveThen([], Split(dir), Split(f.link));
    HomeIsOrdinary(f);
    if |Split(f.path)| == 1 {
      SplitPlain(".");
      assert Resolve(false, [], ["."]) == Resolve(false, Push(false, [], "."), ["."][1..]) == [];
      assert Home(f.path) == [];
    } else {
      ResolveOrdinary([], Home(f.path));
      assert [] + Home(f.path) == Home(f.path);
      OrdinaryShape(dir);
    }
  }

  lemma CleanTidy(kept: seq<string>)
    requires kept != [] && Tidy(kept)
    ensures kept[0] == ".." ==> !SafePath(Clean(Join(kept)))
    ensures kept[0] != ".." ==> AllOrdinary(kept) && Split(Join(kept)) == kept && Clean(Join(kept)) == Join(kept)
  {
    SplitJoin(kept);
    if kept[0] == ".." {
      var again := Resolve(false, [], kept);
      assert Push(false, [], "..") == [".."];
      EscapeStays([".."], kept[1..]);
      FirstPart(kept);
      FirstPart(again);
    } else {
      ResolveOrdinary([], kept);
      assert [] + kept == kept;
      OrdinaryShape(Join(kept));
    }
  }

  lemma ResolvedIsTidy(f: File)
    requires SafePath(f.path)
    ensures Tidy(Resolved(f))
  {
    HomeIsOrdinary(f);
    ResolveTidy(Home(f.path), Split(f.link));
  }

  /** The checked link target: the text test accepts exactly the links whose walk, one
      component at a time from the file's own directory, never leaves the tree, not even
      in passing, and ends below its root. */
  lemma LinkFitsIff(f: File)
    requires SafePath(f.path)
    ensures LinkFits(f) <==>
              && f.stored == NoObject && !IsAbs(f.link) && NoForbidden(f.link)
              && Walk(Home(f.path), Split(f.link)) != [] && Walk(Home(f.path), Split(f.link)) != [[]]
    ensures LinkFits(f) ==> Walk(Home(f.path), Split(f.link)) == [Split(Target(f))]
  {
    var kept := Resolved(f);
    HomeIsOrdinary(f);
    WalkResolve(Home(f.path), Split(f.link));
    FirstCleaning(f);
    if kept == [] {
      TargetOfNothing(f);
    } else {
      ResolvedIsTidy(f);
      CleanTidy(kept);
      if kept[0] != ".." && NoForbidden(f.link) {
        SplitForbids(f.link);
        ResolveKeepsParts(Home(f.path), Split(f.link), NoForbidden);
        JoinForbids(kept);
        SafePathIff(Join(kept));
      }
    }
  }

  lemma TargetOfNothing(f: File)
    requires Clean(Dir(f.path) + "/" + f.link) == "."
    ensures Target(f) == "."
  {
    SplitPlain(".");
    assert Resolve(false, [], ["."]) == Resolve(false, Push(false, [], "."), ["."][1..]) == [];
  }

  // ---------------------------------------------------------------- one file after the earlier ones

  /** `objectMode` accepts the name. */
  predicate Parses(stored: ObjectRef) {
    stored.Object? || stored.Unmatched?
  }

  predicate BodyFits(f: File) {
    if f.link != "" then LinkFits(f) else Parses(f.stored)
  }

  ghost predicate FileFits(f: File, previous: string, earlier: set<string>) {
    && SafePath(f.path) && Less(previous, f.path) && f.size >= 0
    && (forall a <- earlier :: !Ancestor(a, f.path))
    && BodyFits(f)
  }

  method ValidateFile(f: File, previous: string, paths: map<string, File>) returns (ok: bool)
    ensures ok <==> FileFits(f, previous, paths.Keys)
  {
    if !SafePath(f.path) || !Less(previous, f.path) || f.size < 0 {
      return false;
    }
    ghost var parts := Split(f.path);
    ghost var depth := |parts| - 1;
    DirOfSafe(f.path);
    var parent := Dir(f.path);
    while parent != "."
      invariant 0 <= depth < |parts|
      invariant parent == "." <==> depth == 0
      invariant depth > 0 ==> SafePath(parent) && Split(parent) == parts[..depth]
      invariant forall a <- paths :: Ancestor(a, f.path) ==> |Split(a)| <= depth
      decreases depth
    {
      if parent in paths {
        return false;
      }
      forall a | a in paths && Ancestor(a, f.path) && |Split(a)| == depth ensures a == parent {
        SplitInjective(a, parent);
      }
      DirOfSafe(parent);
      parent := Dir(parent);
      depth := depth - 1;
      DotIsUnsafe(parent);
    }
    if f.link != "" {
      return LinkFits(f);
    }
    return Parses(f.stored);
  }

  lemma DotIsUnsafe(s: string)
    ensures SafePath(s) ==> s != "."
  {
  }

  // ---------------------------------------------------------------- whole manifests

  function Previous(files: seq<File>, i: nat): string
    requires i <= |files|
  {
    if i == 0 then "" else files[i - 1].path
  }

  ghost predicate FitsAt(files: seq<File>, i: nat)
    requires i < |files|
  {
    FileFits(files[i], Previous(files, i), PathSet(files[..i]))
  }

  ghost predicate FilesFit(files: seq<File>) {
    forall i: nat | i < |files| :: FitsAt(files, i)
  }

  function PathSet(files: seq<File>): set<string> {
    set f | f in files :: f.path
  }

  predicate PythonFits(python: string, files: seq<File>) {
    SafePath(python) && exists f <- files :: f.path == python && Parses(f.stored) && f.stored.executable
  }

  predicate SealedRight(m: Manifest) {
    m.core.format == FORMAT && m.digest == DigestOf(m.core) && m.core.files != []
  }

  /** What `Validate` demands of a manifest for any platform; for Windows it demands more. */
  ghost predicate Accepted(m: Manifest) {
    SealedRight(m) && FilesFit(m.core.files) && PythonFits(m.core.python, m.core.files)
  }

  method Validate(m: Manifest) returns (ok: bool)
    ensures ok <==> Accepted(m)
  {
    if !SealedRight(m) {
      return false;
    }
    var files := m.core.files;
    var paths: map<string, File> := map[];
    var previous := "";
    for i := 0 to |files|
      invariant previous == Previous(files, i)
      invariant Indexed(files[..i], paths)
      invariant forall k: nat | k < i :: FitsAt(files, k)
    {
      var fits := ValidateFile(files[i], previous, paths);
      assert fits <==> FitsAt(files, i);
      if !fits {
        return false;
      }
      AddIndexed(files, i, paths);
      paths := paths[files[i].path := files[i]];
      previous := files[i].path;
    }
    assert files[..|files|] == files;
    return SafePath(m.core.python) && m.core.python in paths
      && Parses(paths[m.core.python].stored) && paths[m.core.python].stored.executable;
  }

  /** The `paths` map holds exactly the files seen so far. */
  ghost predicate Indexed(files: seq<File>, paths: map<string, File>) {
    && paths.Keys == PathSet(files)
    && (forall f <- files :: paths[f.path] == f)
    && (forall path <- paths :: paths[path] in files && paths[path].path == path)
  }

  lemma AddIndexed(files: seq<File>, i: nat, paths: map<string, File>)
    requires i < |files| && Indexed(files[..i], paths)
    requires forall k: nat | k <= i :: FitsAt(files, k)
    ensures Indexed(files[..i + 1], paths[files[i].path := files[i]])
  {
    EarlierIsSmaller(files, i);
    assert files[..i + 1] == files[..i] + [files[i]];
    forall f <- files[..i] ensures f.path != files[i].path {
    }
  }

  /** Adjacent order gives order against every earlier path. */
  lemma {:induction false} EarlierIsSmaller(files: seq<File>, i: nat)
    requires i < |files|
    requires forall k: nat | k <= i :: FitsAt(files, k)
    ensures forall k | 0 <= k < i :: Less(files[k].path, files[i].path) && files[k].path != files[i].path
  {
    if i > 0 {
      EarlierIsSmaller(files, i - 1);
      assert FitsAt(files, i);
      forall k | 0 <= k < i ensures Less(files[k].path, files[i].path) && files[k].path != files[i].path {
        if k < i - 1 {
          LessTransitive(files[k].path, files[i - 1].path, files[i].path);
        }
        LessTotal(files[k].path, files[i].path);
      }
    }
  }

  /** An accepted manifest is strictly sorted, and no path is an ancestor of another,
      although the check compares each path with the earlier ones only: an ancestor is
      a proper prefix, so it always comes earlier. */
  lemma AcceptedIsUnambiguous(m: Manifest, i: nat, j: nat)
    requires Accepted(m) && i < j < |m.core.files|
    ensures Less(m.core.files[i].path, m.core.files[j].path)
    ensures !Ancestor(m.core.files[i].path, m.core.files[j].path)
    ensures !Ancestor(m.core.files[j].path, m.core.files[i].path)
  {
    var files := m.core.files;
    EarlierIsSmaller(files, j);
    assert FitsAt(files, j);
    assert files[..j][i] == files[i];
    if Ancestor(files[j].path, files[i].path) {
      AncestorIsPrefix(files[j].path, files[i].path);
      PrefixLess(files[j].path, files[i].path);
      LessTotal(files[i].path, files[j].path);
    }
  }

  /** Every accepted link stays inside the tree at every component it passes. */
  lemma AcceptedLinksStayInside(m: Manifest, f: File)
    requires Accepted(m) && f in m.core.files && f.link != ""
    ensures Walk(Home(f.path), Split(f.link)) == [Split(Target(f))] && SafePath(Target(f))
  {
    var i: nat :| i < |m.core.files| && m.core.files[i] == f;
    assert FitsAt(m.core.files, i);
    LinkFitsIff(f);
  }

  // ---------------------------------------------------------------- acceptance in other words

  /** One entry by itself: ordinary components, a size, and either a stored object or a link
      that stays inside the tree. */
  predicate EntryRight(f: File) {
    && AllOrdinary(Split(f.path)) && PlainText(f.path) && f.size >= 0
    && if f.link == "" then f.stored.Object? || f.stored.Unmatched?
       else f.stored.NoObject? && f.link[0] != '/' && PlainText(f.link)
            && Walk(Home(f.path), Split(f.link)) !in [[], [[]]]
  }

  predicate PlainText(s: string) {
    forall c <- s :: c !in "\\:\0"
  }

  predicate Apart(a: File, b: File) {
    Less(a.path, b.path) && !Ancestor(a.path, b.path) && !Ancestor(b.path, a.path)
  }

  lemma EntryRightIff(f: File)
    ensures EntryRight(f) <==> SafePath(f.path) && f.size >= 0 && BodyFits(f)
  {
    SafePathIff(f.path);
    SplitPlainText(f.path);
    SplitPlainText(f.link);
    if SafePath(f.path) {
      LinkFitsIff(f);
    }
  }

  lemma SplitPlainText(s: string)
    ensures PlainText(s) <==> NoForbidden(s)
  {
  }

  lemma FitsAtIff(files: seq<File>, i: nat)
    requires i < |files| && forall j, k | 0 <= j < k < |files| :: Apart(files[j], files[k])
    ensures FitsAt(files, i) <==> EntryRight(files[i])
  {
    var f := files[i];
    EntryRightIff(f);
    if EntryRight(f) {
      assert i > 0 ==> Apart(files[i - 1], f);
      assert f.path != "" by {
        SafePathIff(f.path);
      }
      forall a <- PathSet(files[..i]) ensures !Ancestor(a, f.path) {
        var k: nat :| k < i && files[k].path == a;
        assert Apart(files[k], f);
      }
    }
  }

  /** Which manifests are accepted: those of the format that carry their own digest and at least
      one file, with entries that are right by themselves, strictly ordered and none below
      another, and with the interpreter as an executable object among them. */
  lemma AcceptedIff(m: Manifest)
    ensures var files := m.core.files;
            Accepted(m) <==>
              && m.core.format == "harnest.runtime/v1" && m.digest == DigestOf(m.core) && files != []
              && (forall f <- files :: EntryRight(f))
              && (forall i, j | 0 <= i < j < |files| :: Apart(files[i], files[j]))
              && exists f <- files ::
                   f.path == m.core.python && (f.stored.Object? || f.stored.Unmatched?) && f.stored.executable
  {
    var files := m.core.files;
    if Accepted(m) {
      forall i, j | 0 <= i < j < |files| ensures Apart(files[i], files[j]) {
        AcceptedIsUnambiguous(m, i, j);
      }
    }
    if forall i, j | 0 <= i < j < |files| :: Apart(files[i], files[j]) {
      AcceptedApart(m);
    }
  }

  lemma AcceptedApart(m: Manifest)
    requires forall i, j | 0 <= i < j < |m.core.files| :: Apart(m.core.files[i], m.core.files[j])
    ensures FilesFit(m.core.files) <==> forall f <- m.core.files :: EntryRight(f)
    ensures (forall f <- m.core.files :: EntryRight(f)) && m.core.python in PathSet(m.core.files) ==>
              SafePath(m.core.python)
  {
    hide FitsAt, EntryRight, Apart;
    var files := m.core.files;
    forall i: nat | i < |files| ensures FitsAt(files, i) <==> EntryRight(files[i]) {
      FitsAtIff(files, i);
    }
    forall f <- files | EntryRight(f) ensures SafePath(f.path) {
      EntryRightIff(f);
    }
  }

  // ---------------------------------------------------------------- sealing

  function Insert<T>(key: T -> string, x: T, sorted: seq<T>): seq<T> {
    if sorted == [] || !Less(key(sorted[0]), key(x)) then [x] + sorted
    else [sorted[0]] + Insert(key, x, sorted[1..])
  }

  /** The result of the library sort. */
  function Sorted<T>(key: T -> string, xs: seq<T>): seq<T> {
    if xs == [] then [] else Insert(key, xs[0], Sorted(key, xs[1..]))
  }

  predicate Ordered<T>(key: T -> string, xs: seq<T>) {
    forall i, j | 0 <= i < j < |xs| :: !Less(key(xs[j]), key(xs[i]))
  }

  lemma {:induction false} InsertOrders<T>(key: T -> string, x: T, sorted: seq<T>)
    requires Ordered(key, sorted)
    ensures Ordered(key, Insert(key, x, sorted))
    ensures multiset(Insert(key, x, sorted)) == multiset(sorted) + multiset{x}
  {
    if sorted == [] {
    } else if !Less(key(sorted[0]), key(x)) {
      forall j | 0 <= j < |sorted| ensures !Less(key(sorted[j]), key(x)) {
        if Less(key(sorted[j]), key(x)) {
          LessTotal(key(sorted[0]), key(x));
          LessTotal(key(sorted[j]), key(sorted[0]));
          if key(sorted[0]) != key(x) && key(sorted[j]) != key(sorted[0]) {
            LessTransitive(key(x), key(sorted[0]), key(sorted[j]));
            LessTotal(key(x), key(sorted[j]));
          }
        }
      }
    } else {
      InsertOrders(key, x, sorted[1..]);
      assert sorted == [sorted[0]] + sorted[1..];
      var rest := Insert(key, x, sorted[1..]);
      forall j | 0 <= j < |rest| ensures !Less(key(rest[j]), key(sorted[0])) {
        assert rest[j] in multiset(rest);
        LessTotal(key(sorted[0]), key(x));
        if rest[j] != x {
          assert rest[j] in sorted[1..];
        }
      }
    }
  }

  lemma {:induction false} SortedOrders<T>(key: T -> string, xs: seq<T>)
    ensures Ordered(key, Sorted(key, xs)) && multiset(Sorted(key, xs)) == multiset(xs)
  {
    if xs != [] {
      SortedOrders(key, xs[1..]);
      InsertOrders(key, xs[0], Sorted(key, xs[1..]));
      assert xs == [xs[0]] + xs[1..];
    }
  }

  /** Equal keys belong to equal elements. */
  ghost predicate KeyedApart<T(!new)>(key: T -> string, xs: seq<T>) {
    forall x, y | x in xs && y in xs && key(x) == key(y) :: x == y
  }

  lemma {:induction false} OrderedIsUnique<T(!new)>(key: T -> string, xs: seq<T>, ys: seq<T>)
    requires Ordered(key, xs) && Ordered(key, ys) && multiset(xs) == multiset(ys) && KeyedApart(key, xs)
    ensures xs == ys
  {
    if xs == [] {
      assert |ys| == |multiset(ys)| == 0;
    } else {
      assert ys[0] in multiset(xs) && xs[0] in multiset(ys) by {
        assert |multiset(ys)| == |multiset(xs)| == |xs|;
        assert ys[0] in multiset(ys) && xs[0] in multiset(xs);
      }
      assert ys[0] in xs && xs[0] in ys;
      LessTotal(key(xs[0]), key(ys[0]));
      assert xs[0] == ys[0];
      assert xs == [xs[0]] + xs[1..] && ys == [ys[0]] + ys[1..];
      assert multiset(xs[1..]) == multiset(xs) - multiset{xs[0]};
      assert multiset(ys[1..]) == multiset(ys) - multiset{ys[0]};
      forall x | x in xs[1..] ensures x in xs {
      }
      OrderedIsUnique(key, xs[1..], ys[1..]);
    }
  }

  function PathOf(f: File): string { f.path }

  function Itself(s: string): string { s }

  function SealedCore(core: Core): Core {
    core.(inputs := Sorted(Itself, core.inputs), files := Sorted(PathOf, core.files))
  }

  class ManifestBuilder {
    var core: Core
    var digest: Digest

    constructor (core: Core)
      ensures this.core == core && digest == NoDigest
    {
      this.core := core;
      digest := NoDigest;
    }

    method Seal()
      modifies this
      ensures core == SealedCore(old(core)) && digest == DigestOf(core)
      ensures Ordered(PathOf, core.files) && multiset(core.files) == multiset(old(core.files))
    {
      SortedOrders(PathOf, core.files);
      core := core.(inputs := Sorted(Itself, core.inputs));
      core := core.(files := Sorted(PathOf, core.files));
      digest := DigestOf(core);
    }
  }

  /** Discovery order cannot change the digest: any ordering of the same inputs and of
      the same distinct-path files seals to the same identity. */
  lemma SealIgnoresOrder(a: Core, b: Core)
    requires a == b.(inputs := a.inputs, files := a.files)
    requires multiset(a.inputs) == multiset(b.inputs) && multiset(a.files) == multiset(b.files)
    requires KeyedApart(PathOf, a.files)
    ensures SealedCore(a) == SealedCore(b)
  {
    SortedOrders(Itself, a.inputs);
    SortedOrders(Itself, b.inputs);
    OrderedIsUnique(Itself, Sorted(Itself, a.inputs), Sorted(Itself, b.inputs));
    SortedOrders(PathOf, a.files);
    SortedOrders(PathOf, b.files);
    forall x | x in Sorted(PathOf, a.files) ensures x in a.files {
      assert x in multiset(Sorted(PathOf, a.files));
    }
    OrderedIsUnique(PathOf, Sorted(PathOf, a.files), Sorted(PathOf, b.files));
  }
}
