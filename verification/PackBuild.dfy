/** The pack that the builder seals: scanned trees and single files, when it is accepted, and
    what launchers make of it. */
module PackBuild {
  import opened Basics
  import opened PackPaths
  import opened PackManifest
  import opened PackTree
  import opened PackScan
  import opened PackStaging
  import opened PackStore
  import opened PackLaunch
  import opened PackStoreTheorems

  // ---------------------------------------------------------------- sorting the files

  lemma SortedFile(files: seq<File>, f: File)
    ensures f in Sorted(PathOf, files) <==> f in files
  {
    SortedOrders(PathOf, files);
    assert f in Sorted(PathOf, files) <==> f in multiset(Sorted(PathOf, files));
    assert f in files <==> f in multiset(files);
  }

  /** Distinct paths in order are strictly ascending. */
  lemma SortedStrictly(files: seq<File>, i: nat, j: nat)
    requires DistinctPaths(files) && i < j < |Sorted(PathOf, files)|
    ensures Less(Sorted(PathOf, files)[i].path, Sorted(PathOf, files)[j].path)
  {
    var order := Sorted(PathOf, files);
    SortedOrders(PathOf, files);
    LessTotal(order[i].path, order[j].path);
    if order[i].path == order[j].path {
      SamePathTwice(files, order, i, j);
    }
  }

  lemma SamePathTwice(files: seq<File>, order: seq<File>, i: nat, j: nat)
    requires DistinctPaths(files) && multiset(order) == multiset(files) && i < j < |order|
    ensures order[i].path != order[j].path
  {
    if order[i].path == order[j].path {
      assert order[i] in multiset(order) && order[j] in multiset(order);
      assert order[i] in files && order[j] in files;
      var k, l :| 0 <= k < |files| && 0 <= l < |files| && files[k] == order[i] && files[l] == order[j];
      assert k == l;
      TwoOccur(order, i, j);
      OneOccurs(files, order[i]);
    }
  }

  lemma TwoOccur(order: seq<File>, i: nat, j: nat)
    requires i < j < |order| && order[i] == order[j]
    ensures multiset(order)[order[i]] >= 2
  {
    assert order == order[..j] + order[j..];
    assert order[..j][i] == order[i] && order[j..][0] == order[j];
    assert multiset(order) == multiset(order[..j]) + multiset(order[j..]);
  }

  lemma {:induction false} OneOccurs(files: seq<File>, f: File)
    requires DistinctPaths(files)
    ensures multiset(files)[f] <= 1
  {
    if files != [] {
      OneOccurs(files[1..], f);
      assert files == [files[0]] + files[1..];
      if files[0] == f {
        assert f !in files[1..];
      }
    }
  }

  // ---------------------------------------------------------------- gathering the files

  /** What a pack is made of: a scanned tree below a prefix, or one stored file. */
  datatype Source = Walked(tree: Tree, resolve: Resolver, prefix: string) | Alone(file: File) {

    /** The first component of every path it yields. */
    function Root(): string {
      Split(if Walked? then prefix else file.path)[0]
    }
  }

  ghost predicate Yields(source: Source, f: File) {
    match source
    case Walked(tree, resolve, prefix) =>
      exists path :: Kept(tree, prefix, path) && f == Scanned(tree, resolve, prefix, path)
    case Alone(file) => f == file
  }

  lemma Origin(source: Source, f: File) returns (path: string)
    requires source.Walked? && Yields(source, f)
    ensures Kept(source.tree, source.prefix, path)
    ensures f == Scanned(source.tree, source.resolve, source.prefix, path)
  {
    path :| Kept(source.tree, source.prefix, path) && f == Scanned(source.tree, source.resolve, source.prefix, path);
  }

  /** `StoreFile` returns the object and the size of what it stored. */
  ghost predicate GoodSource(source: Source) {
    match source
    case Walked(tree, _, prefix) => WellFormed(tree) && SafePath(prefix)
    case Alone(file) => SafePath(file.path) && file.link == "" && SizeRight(file)
  }

  ghost predicate Separate(sources: seq<Source>) {
    && (forall source <- sources :: GoodSource(source))
    && forall i, j | 0 <= i < j < |sources| :: sources[i].Root() != sources[j].Root()
  }

  ghost predicate Packable(source: Source) {
    source.Walked? ==>
      forall path | Kept(source.tree, source.prefix, path) :: Scannable(source.tree, source.resolve, path)
  }

  /** The files are exactly those of the sources, each once. */
  ghost predicate Gathered(files: seq<File>, sources: seq<Source>) {
    && DistinctPaths(files) && (forall source <- sources :: Packable(source))
    && forall f :: f in files <==> exists source <- sources :: Yields(source, f)
  }

  lemma YieldsBelow(source: Source, f: File)
    requires Yields(source, f)
    ensures Split(f.path)[0] == source.Root()
  {
    if source.Walked? {
      var path := Origin(source, f);
      SplitSlash(source.prefix, path);
    }
  }

  lemma GatherOne(files: seq<File>, more: seq<File>, sources: seq<Source>, i: nat)
    requires i < |sources| && Separate(sources) && Gathered(files, sources[..i])
    requires Packable(sources[i]) && DistinctPaths(more) && forall f :: f in more <==> Yields(sources[i], f)
    ensures Gathered(files + more, sources[..i + 1])
  {
    assert sources[..i + 1] == sources[..i] + [sources[i]];
    forall f, g | f in files && g in more ensures f.path != g.path {
      var k :| 0 <= k < i && Yields(sources[..i][k], f);
      YieldsBelow(sources[k], f);
      YieldsBelow(sources[i], g);
    }
  }

  /** Scans the trees in turn and adds the single files. */
  method GatherFiles(sources: seq<Source>, walks: seq<seq<string>>) returns (ok: bool, files: seq<File>)
    requires |walks| == |sources| && Separate(sources)
    requires forall k | 0 <= k < |sources| && sources[k].Walked? :: WalkOrder(sources[k].tree, walks[k])
    ensures ok <==> forall source <- sources :: Packable(source)
    ensures ok ==> Gathered(files, sources)
  {
    files := [];
    for i := 0 to |sources|
      invariant Gathered(files, sources[..i])
    {
      var more;
      match sources[i] {
        case Walked(tree, resolve, prefix) =>
          var packable;
          packable, more := ScanTree(tree, walks[i], resolve, prefix);
          if !packable {
            assert !Packable(sources[i]);
            return false, [];
          }
          ScanIsYield(sources[i], more);
        case Alone(file) =>
          more := [file];
      }
      GatherOne(files, more, sources, i);
      files := files + more;
    }
    assert sources[..|sources|] == sources;
    return true, files;
  }

  lemma ScanIsYield(source: Source, files: seq<File>)
    requires source.Walked? && ScannedFrom(files, source.tree, source.resolve, source.prefix)
    ensures Packable(source) && forall f :: f in files <==> Yields(source, f)
  {
  }

  // ---------------------------------------------------------------- when the pack is accepted

  /** Everything the sources yield can be named in a manifest. */
  ghost predicate NamesSafe(sources: seq<Source>) {
    forall source <- sources | source.Walked? ::
      forall path | Kept(source.tree, source.prefix, path) :: SafePath(path)
  }

  lemma SourceBody(sources: seq<Source>, source: Source, f: File)
    requires source in sources && GoodSource(source) && Packable(source) && NamesSafe(sources) && Yields(source, f)
    ensures SafePath(f.path) && f.size >= 0 && BodyFits(f)
  {
    if source.Walked? {
      var path := Origin(source, f);
      ScannedFits(source.tree, source.resolve, source.prefix, path);
    }
  }

  lemma SameSourceApart(source: Source, f: File, g: File)
    requires GoodSource(source) && Yields(source, f) && Yields(source, g)
    ensures !Ancestor(g.path, f.path)
  {
    if source.Walked? {
      var path := Origin(source, f);
      var other := Origin(source, g);
      ScanHasNoAncestors(source.tree, source.resolve, source.prefix, other, path);
    }
  }

  lemma SameFirst(a: string, path: string)
    requires Ancestor(a, path)
    ensures Split(a)[0] == Split(path)[0]
  {
    assert Split(a)[0] == Split(path)[..|Split(a)|][0];
  }

  lemma GatheredApart(sources: seq<Source>, files: seq<File>, f: File, g: File)
    requires Separate(sources) && Gathered(files, sources) && f in files && g in files
    ensures !Ancestor(g.path, f.path)
  {
    var k :| 0 <= k < |sources| && Yields(sources[k], f);
    var l :| 0 <= l < |sources| && Yields(sources[l], g);
    YieldsBelow(sources[k], f);
    YieldsBelow(sources[l], g);
    if k == l {
      SameSourceApart(sources[k], f, g);
    } else if Ancestor(g.path, f.path) {
      SameFirst(g.path, f.path);
    }
  }

  lemma GatheredBody(sources: seq<Source>, files: seq<File>, f: File)
    requires Separate(sources) && Gathered(files, sources) && NamesSafe(sources) && f in files
    ensures SafePath(f.path) && f.size >= 0 && BodyFits(f)
  {
    var source :| source in sources && Yields(source, f);
    SourceBody(sources, source, f);
  }

  lemma SafeIsSomething(path: string)
    requires SafePath(path)
    ensures Less("", path)
  {
  }

  lemma GatheredFitsAt(sources: seq<Source>, files: seq<File>, order: seq<File>, i: nat)
    requires Separate(sources) && Gathered(files, sources) && NamesSafe(sources)
    requires order == Sorted(PathOf, files) && i < |order|
    ensures FitsAt(order, i)
  {
    hide SafePath;
    hide Separate;
    hide NamesSafe;
    hide Ancestor;
    hide Less;
    hide BodyFits;
    hide Sorted;
    SortedFile(files, order[i]);
    GatheredBody(sources, files, order[i]);
    if i > 0 {
      SortedStrictly(files, i - 1, i);
    } else {
      SafeIsSomething(order[i].path);
    }
    forall a | a in PathSet(order[..i]) ensures !Ancestor(a, order[i].path) {
      var g :| g in order[..i] && g.path == a;
      SortedFile(files, g);
      GatheredApart(sources, files, order[i], g);
    }
  }

  lemma GatheredFits(sources: seq<Source>, files: seq<File>)
    requires Separate(sources) && Gathered(files, sources) && NamesSafe(sources)
    ensures FilesFit(Sorted(PathOf, files))
  {
    forall i: nat | i < |Sorted(PathOf, files)| ensures FitsAt(Sorted(PathOf, files), i) {
      GatheredFitsAt(sources, files, Sorted(PathOf, files), i);
    }
  }

  lemma AcceptedNamesSafe(sources: seq<Source>, core: Core)
    requires Gathered(core.files, sources) && Accepted(Sealed(core))
    ensures NamesSafe(sources)
  {
    hide Accepted;
    forall source <- sources | source.Walked?
      ensures forall path | Kept(source.tree, source.prefix, path) :: SafePath(path)
    {
      forall path | Kept(source.tree, source.prefix, path) ensures SafePath(path) {
        var f := Scanned(source.tree, source.resolve, source.prefix, path);
        assert Yields(source, f);
        SortedFile(core.files, f);
        AcceptedBody(Sealed(core), f);
        UnprefixedPath(source.prefix, path);
      }
    }
  }

  lemma SamePython(python: string, files: seq<File>)
    ensures PythonFits(python, Sorted(PathOf, files)) <==> PythonFits(python, files)
    ensures Sorted(PathOf, files) == [] <==> files == []
  {
    SortedOrders(PathOf, files);
    var order := Sorted(PathOf, files);
    assert |order| == |multiset(order)| == |multiset(files)| == |files|;
    forall f ensures f in order <==> f in files { SortedFile(files, f); }
  }

  /** The sealed pack is accepted exactly if it holds a file, every kept name can be named in
      a manifest, and the interpreter is one of the executables. */
  lemma SealedPackAcceptedIff(sources: seq<Source>, core: Core)
    requires Separate(sources) && Gathered(core.files, sources) && core.format == FORMAT
    ensures Accepted(Sealed(core)) <==>
              core.files != [] && NamesSafe(sources) && PythonFits(core.python, core.files)
  {
    hide Separate;
    hide Gathered;
    hide FilesFit;
    hide PythonFits;
    hide NamesSafe;
    hide Sorted;
    SamePython(core.python, core.files);
    if NamesSafe(sources) {
      GatheredFits(sources, core.files);
    }
    if Accepted(Sealed(core)) {
      AcceptedNamesSafe(sources, core);
    }
  }

  // ---------------------------------------------------------------- what launchers make of it

  lemma PackNameFree(sources: seq<Source>, core: Core)
    requires Gathered(core.files, sources) && forall source <- sources :: source.Root() != MANIFEST_FILE
    ensures ManifestNameFree(Sealed(core).core.files)
  {
    SplitPlain(MANIFEST_FILE);
    forall f <- Sealed(core).core.files ensures f.path != MANIFEST_FILE && !Ancestor(MANIFEST_FILE, f.path) {
      SortedFile(core.files, f);
      var source :| source in sources && Yields(source, f);
      YieldsBelow(source, f);
      if Ancestor(MANIFEST_FILE, f.path) { SameFirst(MANIFEST_FILE, f.path); }
    }
  }

  lemma SourceSize(source: Source, f: File)
    requires GoodSource(source) && Packable(source) && Yields(source, f) && SafePath(f.path)
    ensures SizeRight(f)
  {
    if source.Walked? {
      var path := Origin(source, f);
      UnprefixedPath(source.prefix, path);
      ScannedFits(source.tree, source.resolve, source.prefix, path);
    }
  }

  lemma PackSizes(sources: seq<Source>, core: Core)
    requires Separate(sources) && Gathered(core.files, sources) && Accepted(Sealed(core))
    ensures SizesRight(Sealed(core).core.files) && FirstSizesRight(Sealed(core).core.files)
  {
    hide Accepted;
    var files := Sealed(core).core.files;
    forall f <- files ensures SizeRight(f) {
      SortedFile(core.files, f);
      AcceptedBody(Sealed(core), f);
      var source :| source in sources && Yields(source, f);
      SourceSize(source, f);
    }
    RightIsChecked(files);
  }

  lemma RightIsChecked(files: seq<File>)
    requires SizesRight(files)
    ensures FirstSizesRight(files)
  {
    forall k: nat | k < |files| ensures SizeChecked(files, k) {
      assert SizeRight(files[k]);
    }
  }

  predicate SameFile(a: Node, b: Node) {
    a.Regular? && b.Regular? && a.bytes == b.bytes && HasExecuteBit(a.mode) == HasExecuteBit(b.mode)
  }

  /** Every kept file of a source is in the tree, with its bytes and its executable bit. */
  ghost predicate Carries(built: Tree, source: Source) {
    match source
    case Walked(tree, _, prefix) =>
      forall path | Kept(tree, prefix, path) && tree[path].Regular? ::
        prefix + "/" + path in built && SameFile(built[prefix + "/" + path], tree[path])
    case Alone(file) => file.path in built && built[file.path] == NodeFor(file)
  }

  ghost predicate Delivers(plan: Plan, s: FS, sources: seq<Source>)
    requires s.published.Some?
  {
    && TreeThere(plan, s, s.published.value)
    && forall source <- sources :: Carries(View(s, s.published.value), source)
  }

  lemma BuiltCarries(sources: seq<Source>, source: Source, core: Core, built: Tree, codec: Codec)
    requires source in sources && Gathered(core.files, sources)
    requires Accepted(Sealed(core)) && Built(built, codec, Sealed(core))
    ensures Carries(built, source)
  {
    hide Accepted;
    match source
    case Walked(tree, resolve, prefix) =>
      forall path | Kept(tree, prefix, path) && tree[path].Regular?
        ensures prefix + "/" + path in built && SameFile(built[prefix + "/" + path], tree[path])
      {
        assert Yields(source, Scanned(tree, resolve, prefix, path));
        RoundTripKeepsFile(tree, resolve, prefix, core, built, codec, path);
      }
    case Alone(file) =>
      assert Yields(source, file);
      SortedFile(core.files, file);
  }

  lemma NameFreeIsWritable(plan: Plan)
    requires ManifestNameFree(plan.Files())
    ensures Writable(plan)
  {
    NameFreeIsSafe(plan);
  }

  lemma PublishedDelivers(plan: Plan, run: seq<World>, i: nat, sources: seq<Source>)
    requires Publishes(plan, run, i) && ManifestNameFree(plan.Files())
    requires TreeMatches(TreeOf(plan.codec, plan.m), plan.codec, plan.m)
    requires forall source <- sources :: Carries(TreeOf(plan.codec, plan.m), source)
    ensures Delivers(plan, run[i].fs, sources)
  {
    PublishedTreeIs(plan, run, i);
  }

  /** From trees to a pack and back: if the sealed pack is accepted and nothing in it goes by
      the manifest's name, a launcher can publish it, and whatever any launcher publishes keeps
      every file's bytes and executable bit and passes the check of every other launcher. */
  lemma SealedPackLaunches(sources: seq<Source>, core: Core, plan: Plan)
    requires Separate(sources) && Gathered(core.files, sources)
    requires forall source <- sources :: source.Root() != MANIFEST_FILE
    requires Accepted(Sealed(core)) && plan.m == Sealed(core)
    requires CodecFits(plan.codec, plan.m) && |plan.Text()| <= MANIFEST_LIMIT
    ensures exists run: seq<World>, i: nat :: Publishes(plan, run, i)
    ensures forall run: seq<World>, i: nat | Publishes(plan, run, i) :: Delivers(plan, run[i].fs, sources)
  {
    hide Separate;
    hide Gathered;
    hide Run;
    hide Delivers;
    hide Carries;
    hide Sealed;
    hide Accepted;
    hide ManifestNameFree;
    hide CodecFits;
    hide TreeMatches;
    hide FirstSizesRight;
    hide Built;
    hide TreeOf;
    hide Writable;
    var built := TreeOf(plan.codec, plan.m);
    PackNameFree(sources, core);
    PackSizes(sources, core);
    TreeIsBuilt(plan.codec, plan.m);
    BuiltVerifiesIff(built, plan.codec, plan.m);
    NameFreeIsWritable(plan);
    MaterializesIff(plan);
    forall source <- sources ensures Carries(built, source) {
      BuiltCarries(sources, source, core, built, plan.codec);
    }
    forall run: seq<World>, i: nat | Publishes(plan, run, i) ensures Delivers(plan, run[i].fs, sources) {
      PublishedDelivers(plan, run, i, sources);
    }
  }
}
