/** The digest of an agent bundle: which files count, the framed stream that is hashed,
    and why equal digests mean equal files. */
module BundleDigest {
  import opened Basics
  import opened PackPaths
  import opened PackManifest
  import opened PackTree
  import opened PackScan
  import CompiledDigest

  type Digest = CompiledDigest.Digest

  // ---------------------------------------------------------------- which files count

  const IGNORED_DIRECTORIES := {".adk", ".git", ".harnest", ".mypy_cache", ".pytest_cache",
                                ".ruff_cache", ".venv", "__pycache__", "venv"}
  const IGNORED_NAMES := {".env", "harnest-development.lock", "harnest-eval.lock", "harnest-compile.lock"}

  predicate IgnoredFile(name: string) {
    name in IGNORED_NAMES || HasPrefix(name, ".env.") || HasSuffix(name, ".pyc") || HasSuffix(name, ".pyo")
  }

  predicate IgnoredFolder(tree: Tree, path: string) {
    path in tree && tree[path].Folder? && Name(path) in IGNORED_DIRECTORIES
  }

  ghost predicate Counts(tree: Tree, path: string) {
    && path in tree && tree[path].Regular? && !IgnoredFile(Name(path))
    && forall a | Ancestor(a, path) :: !IgnoredFolder(tree, a)
  }

  /** A source file by its path alone. */
  predicate Authored(parts: seq<string>)
    requires parts != []
  {
    && (forall k | 0 <= k < |parts| - 1 ::
          parts[k] !in [".adk", ".git", ".harnest", ".mypy_cache", ".pytest_cache", ".ruff_cache", ".venv",
                        "__pycache__", "venv"])
    && var name := parts[|parts| - 1];
       && name !in [".env", "harnest-development.lock", "harnest-eval.lock", "harnest-compile.lock"]
       && (|name| >= 5 ==> name[..5] != ".env.")
       && (|name| >= 4 ==> name[|name| - 4..] !in [".pyc", ".pyo"])
  }

  predicate AuthoredFolders(parts: seq<string>) {
    forall k | 0 <= k < |parts| - 1 :: parts[k] !in IGNORED_DIRECTORIES
  }

  lemma AuthoredIff(parts: seq<string>)
    requires parts != []
    ensures Authored(parts) <==> AuthoredFolders(parts) && !IgnoredFile(parts[|parts| - 1])
  {
    SuffixIff(parts[|parts| - 1]);
  }

  lemma FoldersIff(tree: Tree, path: string)
    requires WellFormed(tree) && path in tree
    ensures AuthoredFolders(Split(path)) <==> forall a | Ancestor(a, path) :: !IgnoredFolder(tree, a)
  {
    var parts := Split(path);
    assert Grounded(tree, path);
    if AuthoredFolders(parts) {
      forall a | Ancestor(a, path) ensures !IgnoredFolder(tree, a) {
        assert Name(a) == parts[|Split(a)| - 1];
      }
    }
    if forall a | Ancestor(a, path) :: !IgnoredFolder(tree, a) {
      forall k | 0 <= k < |parts| - 1 ensures parts[k] !in IGNORED_DIRECTORIES {
        var a := Join(parts[..k + 1]);
        SplitJoin(parts[..k + 1]);
        assert Ancestor(a, path) && Name(a) == parts[k];
      }
    }
  }

  /** In terms of the path alone: the digest covers a regular file exactly when neither its name
      nor that of a directory above it is one of those that belong to tools, secrets or locks. */
  lemma CountsIff(tree: Tree, path: string)
    requires WellFormed(tree) && path in tree
    ensures Counts(tree, path) <==> tree[path].Regular? && Authored(Split(path))
  {
    hide WellFormed, Authored, AuthoredFolders, IgnoredFile, IgnoredFolder;
    AuthoredIff(Split(path));
    FoldersIff(tree, path);
  }

  /** The files the digest covers, by relative path. */
  ghost function Source(tree: Tree): map<string, string> {
    map path | path in tree && Counts(tree, path) :: tree[path].bytes
  }

  ghost predicate CollectedFiles(tree: Tree, files: seq<string>, seen: set<string>) {
    && (forall path :: path in files <==> path in seen && Counts(tree, path))
    && (forall i, j | 0 <= i < j < |files| :: files[i] != files[j])
  }

  lemma NoneCollected(tree: Tree)
    ensures CollectedFiles(tree, [], {})
  {
  }

  lemma CollectNext(tree: Tree, walk: seq<string>, files: seq<string>, i: nat)
    requires WalkOrder(tree, walk) && i < |walk| && CollectedFiles(tree, files, Seen(walk, i))
    ensures Counts(tree, walk[i]) ==> CollectedFiles(tree, files + [walk[i]], Seen(walk, i + 1))
    ensures !Counts(tree, walk[i]) ==> CollectedFiles(tree, files, Seen(walk, i + 1))
  {
    hide Counts;
    SeenOneMore(walk, i);
    assert walk[i] !in Seen(walk, i);
  }

  /** The walk: ignored directories are not entered. */
  method CollectDigestFiles(tree: Tree, walk: seq<string>) returns (files: seq<string>)
    requires WalkOrder(tree, walk)
    ensures CollectedFiles(tree, files, tree.Keys)
  {
    hide IgnoredFile, CollectedFiles;
    NoneCollected(tree);
    files := [];
    assert Seen(walk, 0) == {};
    var skipped: set<string> := {};
    for i := 0 to |walk|
      invariant forall a :: a in skipped <==> a in Seen(walk, i) && IgnoredFolder(tree, a)
      invariant CollectedFiles(tree, files, Seen(walk, i))
    {
      var path := walk[i];
      SeenOneMore(walk, i);
      EnteredIff(tree, walk, i, skipped);
      CollectNext(tree, walk, files, i);
      if tree[path].Folder? {
        if Name(path) in IGNORED_DIRECTORIES {
          skipped := skipped + {path};
        }
      } else if (forall a | a in skipped :: !Ancestor(a, path)) && tree[path].Regular? && !IgnoredFile(Name(path)) {
        files := files + [path];
      }
    }
    assert Seen(walk, |walk|) == tree.Keys by {
      assert walk[..|walk|] == walk;
    }
  }

  lemma EnteredIff(tree: Tree, walk: seq<string>, i: nat, skipped: set<string>)
    requires WalkOrder(tree, walk) && i < |walk|
    requires forall a :: a in skipped <==> a in Seen(walk, i) && IgnoredFolder(tree, a)
    ensures (forall a | a in skipped :: !Ancestor(a, walk[i])) <==>
              (forall a | Ancestor(a, walk[i]) :: !IgnoredFolder(tree, a))
    ensures walk[i] !in Seen(walk, i)
  {
    forall a | Ancestor(a, walk[i]) && IgnoredFolder(tree, a) ensures a in skipped {
      var k :| 0 <= k < |walk| && walk[k] == a;
      assert walk[..i][k] == a;
    }
  }

  // ---------------------------------------------------------------- the stream

  const WIDTH := 0x1_0000_0000_0000_0000

  function BigEndian(n: nat, bytes: nat): string {
    if bytes == 0 then "" else BigEndian(n / 256, bytes - 1) + [(n % 256) as char]
  }

  /** One file: its path's length, its path, its size and its bytes. */
  function Frame(path: string, bytes: string): string {
    BigEndian(|path|, 8) + path + (BigEndian(|bytes|, 8) + bytes)
  }

  function Frames(files: seq<(string, string)>): string {
    if files == [] then "" else Frame(files[0].0, files[0].1) + Frames(files[1..])
  }

  ghost predicate AllCount(tree: Tree, order: seq<string>) {
    forall path <- order :: Counts(tree, path)
  }

  ghost function Listed(tree: Tree, order: seq<string>): seq<(string, string)>
    requires AllCount(tree, order)
  {
    seq(|order|, i requires 0 <= i < |order| => assert order[i] in order; (order[i], tree[order[i]].bytes))
  }

  /** Exactly the files that count, strictly sorted by path. */
  ghost predicate SourceOrder(tree: Tree, order: seq<string>) {
    && (forall path :: path in order <==> Counts(tree, path))
    && StrictlySorted(order)
  }

  predicate StrictlySorted(order: seq<string>) {
    forall i, j | 0 <= i < j < |order| :: Less(order[i], order[j]) && order[i] != order[j]
  }

  /** `hashBundleFile` and `writeDigestHeader` */
  method HashBundleFile(hash: CompiledDigest.Aggregate, path: string, bytes: string)
    modifies hash`stream
    ensures hash.stream == old(hash.stream) + Frame(path, bytes)
  {
    hash.WriteString(BigEndian(|path|, 8));
    hash.WriteString(path);
    hash.WriteString(BigEndian(|bytes|, 8));
    hash.WriteString(bytes);
    FivePieces(old(hash.stream), BigEndian(|path|, 8), path, BigEndian(|bytes|, 8), bytes);
    Regroup(BigEndian(|path|, 8), path, BigEndian(|bytes|, 8) + bytes);
  }

  /** Files are sorted by their full names below the root. */
  function FullName(root: string): string -> string { path => root + "/" + path }

  method DigestDirectory(tree: Tree, walk: seq<string>, root: string) returns (digest: Digest)
    requires WalkOrder(tree, walk)
    ensures exists order :: SourceOrder(tree, order) && digest == CompiledDigest.Digest(Frames(Listed(tree, order)))
  {
    var files := CollectDigestFiles(tree, walk);
    SortedSource(tree, files, root);
    files := Sorted(FullName(root), files);
    assert AllCount(tree, files);
    var hash := new CompiledDigest.Aggregate();
    for i := 0 to |files|
      invariant AllCount(tree, files[..i]) && hash.stream == Frames(Listed(tree, files[..i]))
    {
      FramesOneMore(tree, files, i);
      HashBundleFile(hash, files[i], tree[files[i]].bytes);
    }
    assert files[..|files|] == files;
    digest := CompiledDigest.Digest(hash.stream);
  }

  lemma FramesOneMore(tree: Tree, files: seq<string>, i: nat)
    requires AllCount(tree, files) && i < |files|
    ensures files[i] in tree && tree[files[i]].Regular? && AllCount(tree, files[..i]) && AllCount(tree, files[..i + 1])
    ensures Frames(Listed(tree, files[..i + 1])) ==
              Frames(Listed(tree, files[..i])) + Frame(files[i], tree[files[i]].bytes)
  {
    assert Counts(tree, files[i]);
    FramesAppend(Listed(tree, files[..i]), files[i], tree[files[i]].bytes);
    assert Listed(tree, files[..i + 1]) == Listed(tree, files[..i]) + [(files[i], tree[files[i]].bytes)];
  }

  lemma {:induction false} FramesAppend(files: seq<(string, string)>, path: string, bytes: string)
    ensures Frames(files + [(path, bytes)]) == Frames(files) + Frame(path, bytes)
  {
    if files == [] {
      assert Frame(path, bytes) + Frames([]) == Frame(path, bytes);
    } else {
      FramesAppend(files[1..], path, bytes);
      assert (files + [(path, bytes)])[1..] == files[1..] + [(path, bytes)];
      Regroup(Frame(files[0].0, files[0].1), Frames(files[1..]), Frame(path, bytes));
    }
  }

  lemma {:induction false} SamePrefixLess(root: string, a: string, b: string)
    ensures Less(root + a, root + b) <==> Less(a, b)
  {
    if root == "" {
      assert root + a == a && root + b == b;
    } else {
      SamePrefixLess(root[1..], a, b);
      assert (root + a)[1..] == root[1..] + a && (root + b)[1..] == root[1..] + b;
    }
  }

  lemma SortedSource(tree: Tree, files: seq<string>, root: string)
    requires CollectedFiles(tree, files, tree.Keys)
    ensures SourceOrder(tree, Sorted(FullName(root), files))
  {
    var order := Sorted(FullName(root), files);
    SortedOrders(FullName(root), files);
    forall path ensures path in order <==> Counts(tree, path) {
      assert path in order <==> path in multiset(order);
      assert path in files <==> path in multiset(files);
    }
    forall i, j | 0 <= i < j < |order| ensures Less(order[i], order[j]) && order[i] != order[j] {
      Multiplicity(files, order, i, j);
      SamePrefixLess(root + "/", order[j], order[i]);
      LessTotal(order[i], order[j]);
    }
  }

  lemma Twice(ys: seq<string>, i: nat, j: nat)
    requires i < j < |ys|
    ensures ys[i] == ys[j] ==> multiset(ys)[ys[i]] >= 2
  {
    assert ys == ys[..j] + ys[j..];
    assert ys[..j][i] == ys[i] && ys[j..][0] == ys[j];
    assert multiset(ys) == multiset(ys[..j]) + multiset(ys[j..]);
  }

  /** A rearrangement of distinct elements is distinct. */
  lemma Multiplicity(xs: seq<string>, ys: seq<string>, i: nat, j: nat)
    requires multiset(xs) == multiset(ys) && i < j < |ys|
    requires forall k, l | 0 <= k < l < |xs| :: xs[k] != xs[l]
    ensures ys[i] != ys[j]
  {
    Twice(ys, i, j);
    Distinct(xs, ys[i]);
  }

  lemma {:induction false} Distinct(xs: seq<string>, x: string)
    requires forall k, l | 0 <= k < l < |xs| :: xs[k] != xs[l]
    ensures multiset(xs)[x] <= 1
  {
    if xs != [] {
      Distinct(xs[1..], x);
      assert xs == [xs[0]] + xs[1..];
      if xs[0] == x {
        assert x !in xs[1..];
      }
    }
  }

  // ---------------------------------------------------------------- equal streams, equal files

  function Pow256(k: nat): nat { if k == 0 then 1 else 256 * Pow256(k - 1) }

  lemma {:induction false} BigEndianLength(n: nat, k: nat)
    ensures |BigEndian(n, k)| == k
  {
    if k > 0 {
      BigEndianLength(n / 256, k - 1);
    }
  }

  lemma {:induction false} BigEndianInjective(m: nat, n: nat, k: nat)
    requires m < Pow256(k) && n < Pow256(k) && BigEndian(m, k) == BigEndian(n, k)
    ensures m == n
  {
    if k > 0 {
      BigEndianLength(m / 256, k - 1);
      BigEndianLength(n / 256, k - 1);
      Regroup(BigEndian(m / 256, k - 1), [(m % 256) as char], []);
      SameLength(BigEndian(m / 256, k - 1), [(m % 256) as char], BigEndian(n / 256, k - 1), [(n % 256) as char]);
      assert [(m % 256) as char][0] == [(n % 256) as char][0];
      BigEndianInjective(m / 256, n / 256, k - 1);
    }
  }

  lemma Width()
    ensures Pow256(8) == WIDTH
  {
    assert Pow256(4) == 0x1_0000_0000;
  }

  /** A counted string can be told from what follows it. */
  lemma CountedCancels(a: string, x: string, b: string, y: string)
    requires |a| < WIDTH && |b| < WIDTH
    requires BigEndian(|a|, 8) + a + x == BigEndian(|b|, 8) + b + y
    ensures a == b && x == y
  {
    Width();
    BigEndianLength(|a|, 8);
    BigEndianLength(|b|, 8);
    Regroup(BigEndian(|a|, 8), a, x);
    Regroup(BigEndian(|b|, 8), b, y);
    SameLength(BigEndian(|a|, 8), a + x, BigEndian(|b|, 8), b + y);
    BigEndianInjective(|a|, |b|, 8);
    SameLength(a, x, b, y);
  }

  predicate Countable(file: (string, string)) {
    |file.0| < WIDTH && |file.1| < WIDTH
  }

  lemma FrameCancels(f: (string, string), x: string, g: (string, string), y: string)
    requires Countable(f) && Countable(g) && Frame(f.0, f.1) + x == Frame(g.0, g.1) + y
    ensures f == g && x == y
  {
    Regroup(BigEndian(|f.0|, 8) + f.0, BigEndian(|f.1|, 8) + f.1, x);
    Regroup(BigEndian(|g.0|, 8) + g.0, BigEndian(|g.1|, 8) + g.1, y);
    CountedCancels(f.0, BigEndian(|f.1|, 8) + f.1 + x, g.0, BigEndian(|g.1|, 8) + g.1 + y);
    CountedCancels(f.1, x, g.1, y);
  }

  lemma FramesNonempty(files: seq<(string, string)>)
    ensures files != [] ==> Frames(files) != ""
  {
    if files != [] {
      BigEndianLength(|files[0].0|, 8);
    }
  }

  /** The framed stream determines the list of paths and contents. */
  lemma {:induction false} FramesInjective(a: seq<(string, string)>, b: seq<(string, string)>)
    requires Frames(a) == Frames(b)
    requires (forall f <- a :: Countable(f)) && (forall f <- b :: Countable(f))
    ensures a == b
  {
    FramesNonempty(a);
    FramesNonempty(b);
    if a != [] && b != [] {
      FrameCancels(a[0], Frames(a[1..]), b[0], Frames(b[1..]));
      FramesInjective(a[1..], b[1..]);
      assert a == [a[0]] + a[1..] && b == [b[0]] + b[1..];
    }
  }

  lemma {:induction false} StrictOrderUnique(a: seq<string>, b: seq<string>)
    requires StrictlySorted(a) && StrictlySorted(b) && forall x :: x in a <==> x in b
    ensures a == b
  {
    if a != [] {
      assert a[0] in b;
    }
    if b != [] {
      assert b[0] in a;
    }
    if a != [] && b != [] {
      LessTotal(a[0], b[0]);
      assert a[0] == b[0];
      forall x ensures x in a[1..] <==> x in b[1..] {
        assert x in a <==> x == a[0] || x in a[1..];
        assert x in b <==> x == b[0] || x in b[1..];
      }
      StrictOrderUnique(a[1..], b[1..]);
      assert a == [a[0]] + a[1..] && b == [b[0]] + b[1..];
    }
  }

  ghost predicate AllCountable(tree: Tree) {
    forall path | Counts(tree, path) :: Countable((path, tree[path].bytes))
  }

  lemma SameListing(a: Tree, orderA: seq<string>, b: Tree, orderB: seq<string>)
    requires SourceOrder(a, orderA) && SourceOrder(b, orderB) && Listed(a, orderA) == Listed(b, orderB)
    ensures Source(a) == Source(b)
  {
    forall i | 0 <= i < |orderA| ensures orderA[i] == orderB[i] {
      assert Listed(a, orderA)[i] == Listed(b, orderB)[i];
    }
    assert |orderA| == |Listed(a, orderA)| == |Listed(b, orderB)| == |orderB|;
    assert orderA == orderB;
    forall path ensures Counts(a, path) <==> Counts(b, path) {
      assert path in orderA <==> path in orderB;
    }
    forall path | Counts(a, path) ensures a[path].bytes == b[path].bytes {
      assert path in orderA;
      var i :| 0 <= i < |orderA| && orderA[i] == path;
      assert Listed(a, orderA)[i] == Listed(b, orderB)[i];
    }
  }

  /** Two bundles have the same digest exactly when the same files count and hold the same
      bytes, whatever the ignored parts hold and wherever the bundles are. */
  lemma SameDigestIff(a: Tree, orderA: seq<string>, b: Tree, orderB: seq<string>)
    requires SourceOrder(a, orderA) && SourceOrder(b, orderB) && AllCountable(a) && AllCountable(b)
    ensures Frames(Listed(a, orderA)) == Frames(Listed(b, orderB)) <==> Source(a) == Source(b)
  {
    if Frames(Listed(a, orderA)) == Frames(Listed(b, orderB)) {
      FramesInjective(Listed(a, orderA), Listed(b, orderB));
      SameListing(a, orderA, b, orderB);
    }
    if Source(a) == Source(b) {
      forall x ensures x in orderA <==> x in orderB {
        assert x in Source(a) <==> Counts(a, x);
        assert x in Source(b) <==> Counts(b, x);
      }
      StrictOrderUnique(orderA, orderB);
      forall i | 0 <= i < |orderA| ensures Listed(a, orderA)[i] == Listed(b, orderB)[i] {
        assert orderA[i] in orderA;
        assert Source(a)[orderA[i]] == Source(b)[orderA[i]];
      }
      assert Listed(a, orderA) == Listed(b, orderB);
    }
  }
}
