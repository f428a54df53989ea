/** Scanning a directory tree into manifest entries, and the round trip from a tree
    through a sealed manifest back to a tree. Hosts other than Windows. */
module PackScan {
  import opened Basics
  import opened PackPaths
  import opened PackManifest
  import opened PackTree

  function Name(path: string): string {
    Split(path)[|Split(path)| - 1]
  }

  predicate HasSuffix(s: string, suffix: string) {
    |suffix| <= |s| && s[|s| - |suffix|..] == suffix
  }

  /** Caches of one machine and, below the interpreter, installer-owned packages. */
  predicate SkipsFolder(prefix: string, path: string) {
    Name(path) == "__pycache__" || (prefix == "python" && Name(path) == "site-packages")
  }

  predicate SkipsFile(path: string) {
    HasSuffix(Name(path), ".pyc") || HasSuffix(Name(path), ".pyo")
  }

  /** No directory on the way was skipped. */
  ghost predicate Reached(tree: Tree, prefix: string, path: string) {
    forall a | a in tree && tree[a].Folder? && (Ancestor(a, path) || a == path) :: !SkipsFolder(prefix, a)
  }

  ghost predicate Kept(tree: Tree, prefix: string, path: string) {
    path in tree && !tree[path].Folder? && Reached(tree, prefix, path) && !SkipsFile(path)
  }

  /** Resolving a link with the file system: a place inside the scanned root, if any. */
  type Resolver = string -> Option<string>

  predicate Scannable(tree: Tree, resolve: Resolver, path: string)
    requires path in tree
  {
    match tree[path]
    case Regular(_, _) => true
    case Symlink(_) => resolve(path).Some? && SafePath(resolve(path).value)
    case _ => false
  }

  function LinkText(path: string, target: string): string {
    var parts := Rel(Home(path), Split(target));
    if parts == [] then "." else Join(parts)
  }

  /** The manifest entry of one kept file. */
  function Scanned(tree: Tree, resolve: Resolver, prefix: string, path: string): File
    requires path in tree
  {
    var full := prefix + "/" + path;
    match tree[path]
    case Regular(bytes, mode) => File(full, Object(bytes, HasExecuteBit(mode)), "", |bytes|)
    case Symlink(_) => File(full, NoObject, if resolve(path).Some? then LinkText(path, resolve(path).value) else "", 0)
    case _ => File(full, NoObject, "", 0)
  }

  /** A walk lists every entry once, directories before what is below them. */
  ghost predicate WalkOrder(tree: Tree, walk: seq<string>) {
    && (forall path :: path in walk <==> path in tree)
    && (forall i, j | 0 <= i < j < |walk| :: walk[i] != walk[j])
    && (forall i, j | 0 <= i < |walk| && 0 <= j < |walk| && Ancestor(walk[i], walk[j]) :: i < j)
  }

  /** The files collected after visiting a part of the walk. */
  ghost predicate Collected(
      files: seq<File>, seen: set<string>, tree: Tree, resolve: Resolver, prefix: string)
  {
    && (forall path | path in seen && Kept(tree, prefix, path) ::
          Scannable(tree, resolve, path) && Scanned(tree, resolve, prefix, path) in files)
    && (forall f <- files ::
          exists path :: path in seen && Kept(tree, prefix, path) && f == Scanned(tree, resolve, prefix, path))
  }

  predicate DistinctPaths(files: seq<File>) {
    forall i, j | 0 <= i < j < |files| :: files[i].path != files[j].path
  }

  function Skipped(tree: Tree, prefix: string, seen: set<string>): set<string> {
    set a | a in seen && a in tree && tree[a].Folder? && SkipsFolder(prefix, a)
  }

  function Seen(walk: seq<string>, i: nat): set<string>
    requires i <= |walk|
  {
    set path | path in walk[..i]
  }

  lemma SeenOneMore(walk: seq<string>, i: nat)
    requires i < |walk|
    ensures Seen(walk, i + 1) == Seen(walk, i) + {walk[i]}
  {
    assert walk[..i + 1] == walk[..i] + [walk[i]];
  }

  lemma CollectOne(
      files: seq<File>, seen: set<string>, tree: Tree, resolve: Resolver, prefix: string, path: string)
    requires Collected(files, seen, tree, resolve, prefix) && DistinctPaths(files) && path in tree && path !in seen
    ensures !Kept(tree, prefix, path) ==> Collected(files, seen + {path}, tree, resolve, prefix)
    ensures Kept(tree, prefix, path) && Scannable(tree, resolve, path) ==>
              var more := files + [Scanned(tree, resolve, prefix, path)];
              Collected(more, seen + {path}, tree, resolve, prefix) && DistinctPaths(more)
  {
    NewPath(files, seen, tree, resolve, prefix, path);
  }

  lemma NothingRepeats()
    ensures DistinctPaths([])
  {
  }

  lemma CollectNone(tree: Tree, resolve: Resolver, prefix: string)
    ensures Collected([], {}, tree, resolve, prefix)
  {
  }

  lemma CollectAll(files: seq<File>, tree: Tree, walk: seq<string>, resolve: Resolver, prefix: string)
    requires WalkOrder(tree, walk) && Collected(files, Seen(walk, |walk|), tree, resolve, prefix)
    ensures ScannedFrom(files, tree, resolve, prefix)
  {
    AllSeen(tree, walk, prefix);
  }

  /** The walk callback. `skipped` are the directories it told the walk to skip; what
      lies below one is passed over. */
  method ScanTree(tree: Tree, walk: seq<string>, resolve: Resolver, prefix: string)
      returns (ok: bool, files: seq<File>)
    requires WalkOrder(tree, walk)
    ensures ok <==> forall path | Kept(tree, prefix, path) :: Scannable(tree, resolve, path)
    ensures ok ==> ScannedFrom(files, tree, resolve, prefix) && DistinctPaths(files)
  {
    hide Collected;
    hide ScannedFrom;
    hide DistinctPaths;
    files := [];
    var skipped: set<string> := {};
    CollectNone(tree, resolve, prefix);
    NothingRepeats();
    assert Seen(walk, 0) == {};
    for i := 0 to |walk|
      invariant skipped == Skipped(tree, prefix, Seen(walk, i))
      invariant Collected(files, Seen(walk, i), tree, resolve, prefix) && DistinctPaths(files)
    {
      var path := walk[i];
      SeenOneMore(walk, i);
      ReachedIff(tree, walk, prefix, i, skipped);
      CollectOne(files, Seen(walk, i), tree, resolve, prefix, path);
      if tree[path].Folder? {
        if SkipsFolder(prefix, path) {
          skipped := skipped + {path};
        }
      } else if (forall a | a in skipped :: !Ancestor(a, path)) && !SkipsFile(path) {
        if !Scannable(tree, resolve, path) {
          return false, [];
        }
        files := files + [Scanned(tree, resolve, prefix, path)];
      }
    }
    CollectAll(files, tree, walk, resolve, prefix);
    return true, files;
  }

  lemma NewPath(files: seq<File>, seen: set<string>, tree: Tree, resolve: Resolver, prefix: string, path: string)
    requires Collected(files, seen, tree, resolve, prefix) && path !in seen && path in tree
    ensures forall f <- files :: f.path != Scanned(tree, resolve, prefix, path).path
  {
    forall f <- files ensures f.path != prefix + "/" + path {
      var other :| other in seen && Kept(tree, prefix, other) && f == Scanned(tree, resolve, prefix, other);
      if prefix + "/" + other == prefix + "/" + path { PrefixedApart(prefix, other, path); }
    }
  }

  lemma AllSeen(tree: Tree, walk: seq<string>, prefix: string)
    requires WalkOrder(tree, walk)
    ensures forall path | Kept(tree, prefix, path) :: path in Seen(walk, |walk|)
  {
    assert walk[..|walk|] == walk;
  }

  /** The files came from scanning this tree under this prefix. */
  ghost predicate ScannedFrom(files: seq<File>, tree: Tree, resolve: Resolver, prefix: string) {
    && (forall path | Kept(tree, prefix, path) :: Scannable(tree, resolve, path))
    && forall f :: f in files <==> exists path :: Kept(tree, prefix, path) && f == Scanned(tree, resolve, prefix, path)
  }

  /** Below no skipped directory met so far means below no skipped directory at all. */
  lemma ReachedIff(tree: Tree, walk: seq<string>, prefix: string, i: nat, skipped: set<string>)
    requires WalkOrder(tree, walk) && i < |walk|
    requires skipped == Skipped(tree, prefix, Seen(walk, i))
    ensures walk[i] in tree && walk[i] !in Seen(walk, i)
    ensures !tree[walk[i]].Folder? ==>
              (Reached(tree, prefix, walk[i]) <==> forall a | a in skipped :: !Ancestor(a, walk[i]))
  {
    forall a | a in tree && Ancestor(a, walk[i]) ensures a in walk[..i] {
      var k :| 0 <= k < |walk| && walk[k] == a;
      assert walk[..i][k] == a;
    }
  }

  // ---------------------------------------------------------------- what is kept

  /** Source files and everything else but byte code and what installers own. */
  predicate Portable(prefix: string, parts: seq<string>)
    requires parts != []
  {
    && (forall k | 0 <= k < |parts| - 1 ::
          parts[k] != "__pycache__" && (parts[k] == "site-packages" ==> prefix != "python"))
    && var name := parts[|parts| - 1];
       |name| >= 4 ==> name[|name| - 4..] !in [".pyc", ".pyo"]
  }

  lemma PortableReached(tree: Tree, prefix: string, path: string)
    requires WellFormed(tree) && path in tree && !tree[path].Folder? && Portable(prefix, Split(path))
    ensures Reached(tree, prefix, path)
  {
    hide WellFormed;
    var parts := Split(path);
    forall a | a in tree && tree[a].Folder? && (Ancestor(a, path) || a == path)
      ensures !SkipsFolder(prefix, a)
    {
      var k := |Split(a)| - 1;
      assert Split(a) == parts[..k + 1];
      assert Name(a) == parts[k];
    }
  }

  lemma ReachedPortable(tree: Tree, prefix: string, path: string)
    requires WellFormed(tree) && path in tree && !tree[path].Folder? && Reached(tree, prefix, path)
    ensures forall k | 0 <= k < |Split(path)| - 1 ::
              Split(path)[k] != "__pycache__" && (Split(path)[k] == "site-packages" ==> prefix != "python")
  {
    var parts := Split(path);
    assert Grounded(tree, path);
    forall k | 0 <= k < |parts| - 1
      ensures parts[k] != "__pycache__" && (parts[k] == "site-packages" ==> prefix != "python")
    {
      var a := Join(parts[..k + 1]);
      SplitJoin(parts[..k + 1]);
      assert Ancestor(a, path) && Name(a) == parts[k];
    }
  }

  /** In terms of the path alone: the scan keeps a file exactly when it is no byte code and no
      directory above it is a cache or, below the interpreter, the installer's. */
  lemma KeptIff(tree: Tree, prefix: string, path: string)
    requires WellFormed(tree) && path in tree && !tree[path].Folder?
    ensures Kept(tree, prefix, path) <==> Portable(prefix, Split(path))
  {
    hide WellFormed, Reached;
    SuffixIff(Name(path));
    if Portable(prefix, Split(path)) {
      PortableReached(tree, prefix, path);
    }
    if Reached(tree, prefix, path) {
      ReachedPortable(tree, prefix, path);
    }
  }

  lemma SuffixIff(name: string)
    ensures HasSuffix(name, ".pyc") || HasSuffix(name, ".pyo") <==>
            |name| >= 4 && name[|name| - 4..] in [".pyc", ".pyo"]
  {
  }

  // ---------------------------------------------------------------- round trip

  lemma PrefixedPath(prefix: string, path: string)
    requires SafePath(prefix) && SafePath(path)
    ensures SafePath(prefix + "/" + path)
    ensures Split(prefix + "/" + path) == Split(prefix) + Split(path)
    ensures Home(prefix + "/" + path) == Split(prefix) + Home(path)
  {
    SplitSlash(prefix, path);
    SafePathIff(prefix);
    SafePathIff(path);
    SafePathIff(prefix + "/" + path);
    var whole := Split(prefix) + Split(path);
    assert whole[..|whole| - 1] == Split(prefix) + Home(path);
  }

  /** A path that is accepted below a prefix is safe by itself. */
  lemma UnprefixedPath(prefix: string, path: string)
    requires SafePath(prefix + "/" + path)
    ensures SafePath(path)
  {
    var full := prefix + "/" + path;
    SplitSlash(prefix, path);
    SafePathIff(full);
    SafePathIff(path);
    forall part <- Split(path) ensures Ordinary(part) {
      assert part in Split(full);
    }
    forall c <- path ensures c in full {
      assert full[|prefix| + 1..] == path;
    }
  }

  lemma PrefixedApart(prefix: string, a: string, b: string)
    requires prefix + "/" + a == prefix + "/" + b
    ensures a == b
  {
    var n := |prefix| + 1;
    assert (prefix + "/" + a)[n..] == a && (prefix + "/" + b)[n..] == b;
  }

  lemma {:induction false} WalkBelow(base: seq<string>, at: seq<string>, parts: seq<string>)
    requires Walk(at, parts) != []
    ensures Walk(base + at, parts) == [base + Walk(at, parts)[0]]
    decreases parts
  {
    if parts == [] {
    } else if parts[0] == "" || parts[0] == "." {
      WalkBelow(base, at, parts[1..]);
    } else if parts[0] != ".." {
      WalkBelow(base, at + [parts[0]], parts[1..]);
      assert base + (at + [parts[0]]) == (base + at) + [parts[0]];
    } else {
      WalkBelow(base, at[..|at| - 1], parts[1..]);
      assert (base + at)[..|base + at| - 1] == base + at[..|at| - 1];
    }
  }

  lemma LinkParts(path: string, target: string)
    requires SafePath(path) && SafePath(target)
    ensures Walk(Home(path), Split(LinkText(path, target))) == [Split(target)]
    ensures NoForbidden(LinkText(path, target)) && !IsAbs(LinkText(path, target)) && LinkText(path, target) != ""
  {
    var parts := Rel(Home(path), Split(target));
    SafePathIff(path);
    SafePathIff(target);
    forall part <- Home(path) ensures Ordinary(part) {
      assert part in Split(path);
    }
    RelArrives(Home(path), Split(target));
    if parts == [] {
      SplitPlain(".");
      assert Walk(Home(path), ["."]) == Walk(Home(path), ["."][1..]) == [Home(path)];
    } else {
      RelPartsGood(Home(path), Split(target));
      SplitForbids(target);
      SplitJoin(parts);
      JoinForbids(parts);
      JoinRelative(parts);
    }
  }

  lemma RelPartsGood(from: seq<string>, to: seq<string>)
    requires AllOrdinary(to)
    ensures forall part <- Rel(from, to) :: part == ".." || part in to
    ensures forall part <- Rel(from, to) :: part != "" && '/' !in part
  {
  }

  lemma JoinRelative(parts: seq<string>)
    requires parts != [] && parts[0] != "" && '/' !in parts[0]
    ensures !IsAbs(Join(parts)) && Join(parts) != ""
  {
    assert Join(parts)[0] == parts[0][0];
  }

  /** A scanned link always passes `validateLink`: the relative text leads from the
      link's directory to the resolved place without leaving the tree. */
  lemma ScannedLinkFits(tree: Tree, resolve: Resolver, prefix: string, path: string)
    requires SafePath(prefix) && SafePath(path) && path in tree && tree[path].Symlink?
    requires Scannable(tree, resolve, path)
    ensures LinkFits(Scanned(tree, resolve, prefix, path))
    ensures Split(Target(Scanned(tree, resolve, prefix, path))) == Split(prefix) + Split(resolve(path).value)
  {
    var f := Scanned(tree, resolve, prefix, path);
    var target := resolve(path).value;
    LinkParts(path, target);
    PrefixedPath(prefix, path);
    WalkBelow(Split(prefix), Home(path), Split(f.link));
    LinkFitsIff(f);
  }

  lemma ScannedFits(tree: Tree, resolve: Resolver, prefix: string, path: string)
    requires SafePath(prefix) && SafePath(path) && path in tree && !tree[path].Folder?
    requires Scannable(tree, resolve, path)
    ensures var f := Scanned(tree, resolve, prefix, path);
            SafePath(f.path) && f.size >= 0 && BodyFits(f)
    ensures SizeRight(Scanned(tree, resolve, prefix, path))
  {
    var f := Scanned(tree, resolve, prefix, path);
    PrefixedPath(prefix, path);
    if tree[path].Symlink? {
      ScannedLinkFits(tree, resolve, prefix, path);
      LinkParts(path, resolve(path).value);
    } else {
      assert f.link == "" && f.stored.Object? && f.size == |f.stored.bytes|;
    }
  }

  lemma ExecutableBitKept(mode: nat)
    ensures HasExecuteBit(ModeOf(HasExecuteBit(mode))) == HasExecuteBit(mode)
  {
  }

  /** Whoever may execute a file is one of its owner, its group and the others. */
  lemma ExecutableIff(owner: nat, group: nat, others: nat)
    requires owner < 8 && group < 8 && others < 8
    ensures HasExecuteBit(64 * owner + 8 * group + others) <==>
              owner in {1, 3, 5, 7} || group in {1, 3, 5, 7} || others in {1, 3, 5, 7}
  {
    var mode := 64 * owner + 8 * group + others;
    assert mode / 8 == 8 * owner + group && mode / 64 == owner;
  }

  /** Scanning, sealing and building reproduces every kept regular file's bytes and
      executable bit, at its path below the prefix. */
  lemma RoundTripKeepsFile(
      tree: Tree, resolve: Resolver, prefix: string, core: Core, built: Tree, codec: Codec, path: string)
    requires Accepted(Sealed(core)) && Built(built, codec, Sealed(core))
    requires Kept(tree, prefix, path) && tree[path].Regular? && Scanned(tree, resolve, prefix, path) in core.files
    ensures prefix + "/" + path in built && built[prefix + "/" + path].Regular?
    ensures built[prefix + "/" + path].bytes == tree[path].bytes
    ensures HasExecuteBit(built[prefix + "/" + path].mode) == HasExecuteBit(tree[path].mode)
  {
    var f := Scanned(tree, resolve, prefix, path);
    SortedOrders(PathOf, core.files);
    assert f in multiset(SealedCore(core).files);
    ExecutableBitKept(tree[path].mode);
  }

  function Sealed(core: Core): Manifest {
    Manifest(SealedCore(core), DigestOf(SealedCore(core)))
  }

  /** And what is built passes the check of every later launcher. */
  lemma RoundTripVerifies(
      tree: Tree, resolve: Resolver, prefix: string, files: seq<File>, core: Core, built: Tree, codec: Codec)
    requires SafePath(prefix) && WellFormed(tree) && ScannedFrom(files, tree, resolve, prefix)
    requires core.files == files && Accepted(Sealed(core)) && Built(built, codec, Sealed(core))
    requires CodecFits(codec, Sealed(core)) && |codec.encode(Sealed(core))| <= MANIFEST_LIMIT
    ensures TreeMatches(built, codec, Sealed(core))
  {
    SortedOrders(PathOf, files);
    forall f <- SealedCore(core).files ensures SizeRight(f) {
      assert f in multiset(SealedCore(core).files);
      assert f in files;
      var path :| Kept(tree, prefix, path) && f == Scanned(tree, resolve, prefix, path);
      AcceptedBody(Sealed(core), f);
      UnprefixedPath(prefix, path);
      ScannedFits(tree, resolve, prefix, path);
    }
    BuiltVerifiesIff(built, codec, Sealed(core));
  }

  /** A scan never puts one entry below another and never names a path twice. */
  lemma ScanHasNoAncestors(tree: Tree, resolve: Resolver, prefix: string, a: string, b: string)
    requires WellFormed(tree) && Kept(tree, prefix, a) && Kept(tree, prefix, b)
    ensures !Ancestor(Scanned(tree, resolve, prefix, a).path, Scanned(tree, resolve, prefix, b).path)
    ensures Scanned(tree, resolve, prefix, a).path == Scanned(tree, resolve, prefix, b).path ==> a == b
  {
    hide Reached, SkipsFile, LinkText, Scannable;
    SplitSlash(prefix, a);
    SplitSlash(prefix, b);
    AncestorBelowPrefix(Split(prefix), Split(a), Split(b));
    assert Grounded(tree, b);
    if prefix + "/" + a == prefix + "/" + b { PrefixedApart(prefix, a, b); }
  }

  lemma AncestorBelowPrefix(base: seq<string>, a: seq<string>, b: seq<string>)
    ensures |a| < |b| && (base + b)[..|base + a|] == base + a ==> b[..|a|] == a
  {
    if |a| < |b| {
      var n := |base|;
      assert (base + a)[n..] == a;
      assert (base + b)[..|base + a|][n..] == b[..|a|];
    }
  }
}
