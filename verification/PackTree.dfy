/** Runtime trees on disk: scanning a tree into a manifest, building a tree from a
    manifest, and checking a tree that is already there. */
module PackTree {
  import opened Basics
  import opened PackPaths
  import opened PackManifest
  import opened PackWindows

  /** A directory entry; `mode` holds the permission bits. */
  datatype Node = Folder | Regular(bytes: string, mode: nat) | Symlink(text: string) | Special

  /** Everything below one root, by slash-separated relative path. */
  type Tree = map<string, Node>

  /** The JSON text of a manifest. */
  datatype Codec = Codec(encode: Manifest -> string, decode: string -> Option<Manifest>)

  const MANIFEST_FILE := "runtime-manifest.json"
  const MANIFEST_LIMIT := 64 * 1024 * 1024

  /** `0555` or `0444`. */
  function ModeOf(executable: bool): nat { if executable then 365 else 292 }

  predicate HasExecuteBit(mode: nat) {
    mode % 2 == 1 || mode / 8 % 2 == 1 || mode / 64 % 2 == 1
  }

  /** What a file system guarantees: an entry lies below directories, and its name has
      ordinary components, though it may hold characters that `SafePath` refuses. */
  ghost predicate WellFormed(tree: Tree) {
    forall path <- tree :: AllOrdinary(Split(path)) && Grounded(tree, path)
  }

  ghost predicate Grounded(tree: Tree, path: string) {
    forall a | Ancestor(a, path) :: a in tree && tree[a].Folder?
  }

  /** What the kernel finds at a path: through a symbolic link as parent it can be anything. */
  ghost function Reads(tree: Tree, beyond: string -> Option<Node>, path: string): Option<Node> {
    if Grounded(tree, path) then (if path in tree then Some(tree[path]) else None) else beyond(path)
  }

  predicate ObjectFits(node: Option<Node>, f: File) {
    && f.stored.Object? && node.Some? && node.value.Regular?
    && |node.value.bytes| == f.size && node.value.mode == ModeOf(f.stored.executable)
    && node.value.bytes == f.stored.bytes
  }

  /** The entry recorded for a file. */
  function NodeFor(f: File): Node {
    if f.link != "" then Symlink(f.link)
    else if f.stored.Object? then Regular(f.stored.bytes, ModeOf(f.stored.executable))
    else Special
  }

  predicate EntryFits(node: Node, f: File) {
    if f.link != "" then node == Symlink(f.link) else ObjectFits(Some(node), f)
  }

  // ---------------------------------------------------------------- checking an existing tree

  /** A readable, accepted manifest of the wanted identity. */
  ghost predicate ManifestThere(tree: Tree, codec: Codec, m: Manifest) {
    && MANIFEST_FILE in tree && tree[MANIFEST_FILE].Regular?
    && |tree[MANIFEST_FILE].bytes| <= MANIFEST_LIMIT
    && codec.decode(tree[MANIFEST_FILE].bytes) == Some(m)
    && Accepted(m)
  }

  /** The non-directory entries are the manifest's paths plus the manifest file, each
      with the recorded bytes, mode or link text. */
  ghost predicate TreeMatches(tree: Tree, codec: Codec, m: Manifest) {
    && ManifestThere(tree, codec, m)
    && (forall f <- m.core.files :: EntryThere(tree, f))
    && NothingElse(tree, m.core.files)
  }

  predicate EntryThere(tree: Tree, f: File) {
    f.path in tree && EntryFits(tree[f.path], f)
  }

  predicate NothingElse(tree: Tree, files: seq<File>) {
    forall path <- tree :: !tree[path].Folder? ==> path == MANIFEST_FILE || path in PathSet(files)
  }

  /** Rejects a symbolic link, a file or nothing in the place of a parent directory. */
  method ContainedFile(tree: Tree, relative: string) returns (ok: bool)
    ensures ok <==> SafePath(relative) && Grounded(tree, relative)
  {
    if !SafePath(relative) {
      return false;
    }
    ghost var parts := Split(relative);
    ghost var depth := |parts| - 1;
    DirOfSafe(relative);
    var parent := Dir(relative);
    while parent != "."
      invariant 0 <= depth < |parts|
      invariant parent == "." <==> depth == 0
      invariant depth > 0 ==> SafePath(parent) && Split(parent) == parts[..depth]
      invariant forall a | Ancestor(a, relative) && |Split(a)| > depth :: a in tree && tree[a].Folder?
      decreases depth
    {
      if parent !in tree || !tree[parent].Folder? {
        assert Ancestor(parent, relative);
        return false;
      }
      forall a | Ancestor(a, relative) && |Split(a)| == depth ensures a == parent {
        SplitInjective(a, parent);
      }
      DirOfSafe(parent);
      parent := Dir(parent);
      depth := depth - 1;
      DotIsUnsafe(parent);
    }
    return true;
  }

  method ReadManifest(tree: Tree, codec: Codec, upper: Upper) returns (m: Option<Manifest>)
    ensures m.Some? ==> ManifestThere(tree, codec, m.value) && AcceptedFor(upper, m.value)
    ensures forall e | ManifestThere(tree, codec, e) && AcceptedFor(upper, e) :: m == Some(e)
  {
    if MANIFEST_FILE !in tree || !tree[MANIFEST_FILE].Regular? || |tree[MANIFEST_FILE].bytes| > MANIFEST_LIMIT {
      return None;
    }
    var decoded := codec.decode(tree[MANIFEST_FILE].bytes);
    if decoded.None? {
      return None;
    }
    var valid := ValidateManifest(upper, decoded.value);
    return if valid then decoded else None;
  }

  /** One manifest entry, looked up the way the kernel would. */
  method VerifyEntry(tree: Tree, beyond: string -> Option<Node>, f: File) returns (ok: bool)
    requires WellFormed(tree)
    ensures ok <==> SafePath(f.path) && EntryThere(tree, f)
    ensures ok <==>
              && SafePath(f.path) && f.path in tree
              && if f.link != "" then tree[f.path] == Symlink(f.link)
                 else f.stored.Object? && |f.stored.bytes| == f.size
                      && tree[f.path] == Regular(f.stored.bytes, if f.stored.executable then 365 else 292)
  {
    var contained := ContainedFile(tree, f.path);
    if !contained {
      return false;
    }
    var node := if f.path in tree then Some(tree[f.path]) else None;
    assert node == Reads(tree, beyond, f.path);
    if f.link != "" {
      return node == Some(Symlink(f.link));
    }
    return ObjectFits(node, f);
  }

  method RejectExtraFiles(tree: Tree, files: seq<File>) returns (ok: bool)
    ensures ok <==> NothingElse(tree, files)
  {
    var expected := {MANIFEST_FILE};
    for i := 0 to |files|
      invariant expected == {MANIFEST_FILE} + PathSet(files[..i])
    {
      expected := expected + {files[i].path};
      assert files[..i + 1] == files[..i] + [files[i]];
    }
    assert files[..|files|] == files;
    var rest := tree.Keys;
    while rest != {}
      invariant rest <= tree.Keys
      invariant forall path | path in tree && path !in rest :: tree[path].Folder? || path in expected
      decreases rest
    {
      var path :| path in rest;
      if !tree[path].Folder? && path !in expected {
        return false;
      }
      rest := rest - {path};
    }
    return true;
  }

  method VerifyEntries(tree: Tree, beyond: string -> Option<Node>, files: seq<File>) returns (ok: bool)
    requires WellFormed(tree)
    ensures ok <==> forall f <- files :: SafePath(f.path) && EntryThere(tree, f)
  {
    for i := 0 to |files|
      invariant forall k | 0 <= k < i :: SafePath(files[k].path) && EntryThere(tree, files[k])
    {
      var fits := VerifyEntry(tree, beyond, files[i]);
      if !fits {
        return false;
      }
    }
    return true;
  }

  /** Accepts exactly the trees that match, whatever lies beyond substituted parents. */
  method VerifyTree(tree: Tree, beyond: string -> Option<Node>, codec: Codec, upper: Upper, m: Manifest)
      returns (ok: bool)
    requires WellFormed(tree) && AcceptedFor(upper, m)
    ensures ok <==> TreeMatches(tree, codec, m)
  {
    var existing := ReadManifest(tree, codec, upper);
    if existing.None? || existing.value.digest != m.digest {
      return false;
    }
    SameDigest(existing.value, m);
    forall f <- m.core.files ensures SafePath(f.path) {
      AcceptedBody(m, f);
    }
    ok := VerifyEntries(tree, beyond, m.core.files);
    if ok {
      ok := RejectExtraFiles(tree, m.core.files);
    }
  }

  lemma SameDigest(a: Manifest, b: Manifest)
    requires Accepted(a) && Accepted(b) && a.digest == b.digest
    ensures a == b
  {
  }

  // ---------------------------------------------------------------- building a tree

  /** The entries one manifest stands for: its files, the manifest, and the directories between. */
  ghost predicate Built(tree: Tree, codec: Codec, m: Manifest) {
    && WellFormed(tree)
    && (forall f <- m.core.files :: f.path in tree && tree[f.path] == NodeFor(f))
    && MANIFEST_FILE in tree && tree[MANIFEST_FILE] == Regular(codec.encode(m), 384)
    && NothingElse(tree, m.core.files)
  }

  /** A regular entry names some bytes and records how many they are. */
  predicate SizeRight(f: File) {
    f.link == "" ==> f.stored.Object? && f.size == |f.stored.bytes|
  }

  predicate SizesRight(files: seq<File>) {
    forall f <- files :: SizeRight(f)
  }

  /** What `Validate` does not check: entries of one object may disagree about its size. */
  predicate SizesShared(files: seq<File>) {
    forall f, g | f in files && g in files && f.link == "" && g.link == "" && f.stored == g.stored ::
      f.size == g.size
  }

  lemma RightIsShared(files: seq<File>)
    requires SizesRight(files)
    ensures SizesShared(files)
  {
    forall f, g | f in files && g in files && f.link == "" && g.link == "" && f.stored == g.stored
      ensures f.size == g.size
    {
      assert SizeRight(f) && SizeRight(g);
    }
  }

  ghost predicate CodecFits(codec: Codec, m: Manifest) {
    codec.decode(codec.encode(m)) == Some(m)
  }

  lemma NodeFitsIff(f: File)
    requires BodyFits(f)
    ensures EntryFits(NodeFor(f), f) <==> SizeRight(f)
  {
  }

  lemma AcceptedBody(m: Manifest, f: File)
    requires Accepted(m) && f in m.core.files
    ensures BodyFits(f) && SafePath(f.path)
  {
    var i: nat :| i < |m.core.files| && m.core.files[i] == f;
    assert FitsAt(m.core.files, i);
  }

  lemma BuiltEntryIff(tree: Tree, codec: Codec, m: Manifest, f: File)
    requires Accepted(m) && Built(tree, codec, m) && f in m.core.files
    ensures EntryThere(tree, f) <==> SizeRight(f)
  {
    AcceptedBody(m, f);
    NodeFitsIff(f);
  }

  /** A built tree verifies exactly when the recorded sizes are right and the manifest
      text is not too long to be read back. */
  lemma BuiltVerifiesIff(tree: Tree, codec: Codec, m: Manifest)
    requires Accepted(m) && Built(tree, codec, m) && CodecFits(codec, m)
    ensures TreeMatches(tree, codec, m) <==>
              SizesRight(m.core.files) && |codec.encode(m)| <= MANIFEST_LIMIT
  {
    assert ManifestThere(tree, codec, m) <==> |codec.encode(m)| <= MANIFEST_LIMIT;
    forall f <- m.core.files ensures EntryThere(tree, f) <==> SizeRight(f) {
      BuiltEntryIff(tree, codec, m, f);
    }
  }

  /** The objects of an attached pack, any of which may be damaged. */
  type Pack = map<ObjectRef, Node>

  predicate PackHolds(pack: Pack, f: File) {
    ObjectFits(if f.stored in pack then Some(pack[f.stored]) else None, f)
  }

  /** Each object is verified once, against the first entry that names it. */
  predicate FirstUsesHold(pack: Pack, files: seq<File>) {
    forall i: nat | i < |files| :: FirstUseHolds(pack, files, i)
  }

  predicate FirstUseHolds(pack: Pack, files: seq<File>, i: nat)
    requires i < |files|
  {
    files[i].link == "" && FirstUse(files, i) ==> PackHolds(pack, files[i])
  }

  predicate FirstUse(files: seq<File>, i: nat)
    requires i < |files|
  {
    forall k | 0 <= k < i :: files[k].link != "" || files[k].stored != files[i].stored
  }

  /** The staging tree holds exactly these files' entries. */
  predicate Staged(staging: map<string, Node>, files: seq<File>) {
    staging.Keys == PathSet(files) && forall f <- files :: staging[f.path] == NodeFor(f)
  }

  function Imported(files: seq<File>): set<ObjectRef> {
    set f | f in files && f.link == "" :: f.stored
  }

  lemma StageOne(files: seq<File>, i: nat, staging: map<string, Node>)
    requires i < |files| && Staged(staging, files[..i]) && files[i].path !in PathSet(files[..i])
    ensures Staged(staging[files[i].path := NodeFor(files[i])], files[..i + 1])
    ensures Imported(files[..i + 1]) ==
              Imported(files[..i]) + if files[i].link == "" then {files[i].stored} else {}
  {
    assert files[..i + 1] == files[..i] + [files[i]];
  }

  lemma PathIsNew(files: seq<File>, i: nat)
    requires FilesFit(files) && i < |files|
    ensures files[i].path !in PathSet(files[..i]) && BodyFits(files[i])
  {
    assert FitsAt(files, i);
    EarlierIsSmaller(files, i);
  }

  /** Fills the staging tree, importing each object of the pack once. */
  method MaterializeFiles(pack: Pack, files: seq<File>) returns (ok: bool, staging: map<string, Node>)
    requires FilesFit(files)
    ensures ok <==> FirstUsesHold(pack, files)
    ensures ok ==> Staged(staging, files)
  {
    var imported: set<ObjectRef> := {};
    staging := map[];
    for i := 0 to |files|
      invariant imported == Imported(files[..i]) && forall r <- imported :: r.Object?
      invariant Staged(staging, files[..i])
      invariant forall k: nat | k < i :: FirstUseHolds(pack, files, k)
    {
      var f := files[i];
      PathIsNew(files, i);
      StageOne(files, i, staging);
      if f.link != "" {
        staging := staging[f.path := Symlink(f.link)];
        continue;
      }
      ImportedIff(files, i);
      assert FirstUseHolds(pack, files, i) <==> f.stored !in imported ==> PackHolds(pack, f);
      if f.stored !in imported {
        if !PackHolds(pack, f) {
          return false, map[];
        }
        imported := imported + {f.stored};
      }
      staging := staging[f.path := Regular(f.stored.bytes, ModeOf(f.stored.executable))];
    }
    assert files[..|files|] == files;
    return true, staging;
  }

  lemma ImportedIff(files: seq<File>, i: nat)
    requires i < |files| && files[i].link == ""
    ensures FirstUse(files, i) <==> files[i].stored !in Imported(files[..i])
  {
    if !FirstUse(files, i) {
      var k :| 0 <= k < i && files[k].link == "" && files[k].stored == files[i].stored;
      assert files[..i][k] == files[k];
    }
  }

  lemma {:induction false} FirstUseExists(files: seq<File>, i: nat) returns (k: nat)
    requires i < |files| && files[i].link == ""
    ensures k <= i && files[k].link == "" && files[k].stored == files[i].stored && FirstUse(files, k)
    decreases i
  {
    if FirstUse(files, i) {
      k := i;
    } else {
      var j :| 0 <= j < i && files[j].link == "" && files[j].stored == files[i].stored;
      k := FirstUseExists(files, j);
    }
  }

  /** What one verification per object establishes: the first entry to name it is right. */
  predicate SizeChecked(files: seq<File>, k: nat)
    requires k < |files|
  {
    files[k].link == "" ==> files[k].stored.Object? && (FirstUse(files, k) ==> SizeRight(files[k]))
  }

  predicate FirstSizesRight(files: seq<File>) {
    forall k: nat | k < |files| :: SizeChecked(files, k)
  }

  /** Then all sizes are right exactly if entries that share an object share a size. */
  lemma FirstsSuffice(files: seq<File>)
    requires FirstSizesRight(files)
    ensures SizesRight(files) <==> SizesShared(files)
  {
    if SizesShared(files) {
      forall f <- files | f.link == "" ensures SizeRight(f) {
        var i: nat :| i < |files| && files[i] == f;
        var k := FirstUseExists(files, i);
        assert SizeChecked(files, k);
      }
    } else if SizesRight(files) {
      RightIsShared(files);
    }
  }

  /** If entries that share an object also share a size, one verification per object
      makes every recorded size right. */
  lemma OneCheckSuffices(pack: Pack, files: seq<File>)
    requires FirstUsesHold(pack, files) && SizesShared(files)
    ensures SizesRight(files)
  {
    forall i: nat | i < |files| ensures SizeChecked(files, i) {
      if files[i].link == "" {
        var k := FirstUseExists(files, i);
        assert FirstUseHolds(pack, files, k) && FirstUseHolds(pack, files, i);
      }
    }
    FirstsSuffice(files);
  }

  /** A launcher's freshly built tree passes the check that every later launcher runs. */
  lemma MaterializedTreeVerifies(pack: Pack, tree: Tree, codec: Codec, m: Manifest)
    requires Accepted(m) && FirstUsesHold(pack, m.core.files) && Built(tree, codec, m)
    requires SizesShared(m.core.files) && CodecFits(codec, m) && |codec.encode(m)| <= MANIFEST_LIMIT
    ensures TreeMatches(tree, codec, m)
  {
    OneCheckSuffices(pack, m.core.files);
    BuiltVerifiesIff(tree, codec, m);
  }

  const TWO_SIZES: seq<File> := [
    File("a", Object("x", true), "", 1), File("b", Object("x", true), "", 2)]

  /** The size hypothesis is needed: `Validate` accepts a manifest whose two entries
      share an object but not its size; materialising it succeeds, and no tree built
      from it ever verifies. */
  lemma UnsharedSizesNeverVerify(tree: Tree, codec: Codec, m: Manifest)
    requires m.core.files == TWO_SIZES && m.core.python == "a" && m.core.format == FORMAT
    requires m.digest == DigestOf(m.core)
    ensures Accepted(m) && FirstUsesHold(map[Object("x", true) := Regular("x", 365)], TWO_SIZES)
    ensures !TreeMatches(tree, codec, m)
  {
    TwoSizesAccepted(m);
    assert TWO_SIZES[1] in m.core.files;
    assert !FirstUse(TWO_SIZES, 1) by {
      assert TWO_SIZES[0].stored == TWO_SIZES[1].stored;
    }
  }

  lemma TwoSizesAccepted(m: Manifest)
    requires m.core.files == TWO_SIZES && m.core.python == "a" && m.core.format == FORMAT
    requires m.digest == DigestOf(m.core)
    ensures Accepted(m)
  {
    SplitPlain("a");
    SplitPlain("b");
    SafePathIff("a");
    SafePathIff("b");
    assert TWO_SIZES[..0] == [] && TWO_SIZES[..1] == [TWO_SIZES[0]];
    assert FitsAt(TWO_SIZES, 0) && FitsAt(TWO_SIZES, 1);
    assert TWO_SIZES[0] in m.core.files;
  }
}
