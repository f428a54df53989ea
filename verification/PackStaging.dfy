/** The tree that a launcher stages from a manifest, and what the kernel opens in it. */
module PackStaging {
  import opened Basics
  import opened PackPaths
  import opened PackManifest
  import opened PackTree

  // ---------------------------------------------------------------- directories

  /** Every proper ancestor of these paths. */
  function Above(paths: set<string>): set<string> {
    set path, k | path in paths && 0 < k < |Split(path)| :: Join(Split(path)[..k])
  }

  lemma AboveIff(paths: set<string>, a: string)
    ensures a in Above(paths) <==> exists path <- paths :: Ancestor(a, path)
  {
    if a in Above(paths) {
      var path, k :| path in paths && 0 < k < |Split(path)| && a == Join(Split(path)[..k]);
      SplitJoin(Split(path)[..k]);
      assert Ancestor(a, path);
    }
    if path :| path in paths && Ancestor(a, path) {
      JoinSplit(a);
      var k := |Split(a)|;
      assert path in paths && 0 < k < |Split(path)| && a == Join(Split(path)[..k]);
    }
  }

  /** The nodes with the directories that hold them: what lies above something is a directory. */
  function Below(nodes: map<string, Node>): Tree {
    map path | path in nodes.Keys + Above(nodes.Keys) ::
      if path in Above(nodes.Keys) then Folder else nodes[path]
  }

  lemma BelowIsGrounded(nodes: map<string, Node>, path: string)
    requires path in Below(nodes)
    ensures Grounded(Below(nodes), path)
  {
    AboveIff(nodes.Keys, path);
    forall a | Ancestor(a, path) ensures a in Below(nodes) && Below(nodes)[a].Folder? {
      AboveIff(nodes.Keys, a);
      if path !in nodes {
        var other :| other in nodes.Keys && Ancestor(path, other);
        AncestorOfAncestor(a, path, other);
      }
    }
  }

  lemma AncestorOfAncestor(a: string, b: string, path: string)
    requires Ancestor(a, b) && Ancestor(b, path)
    ensures Ancestor(a, path)
  {
    assert Split(path)[..|Split(b)|][..|Split(a)|] == Split(path)[..|Split(a)|];
  }

  // ---------------------------------------------------------------- the staged entries

  /** The entries in order; no later one replaces an earlier one if the files were accepted. */
  function StagedNodes(files: seq<File>): map<string, Node> {
    if files == [] then map[]
    else
      var last := files[|files| - 1];
      StagedNodes(files[..|files| - 1])[last.path := NodeFor(last)]
  }

  lemma StageNext(files: seq<File>, i: nat)
    requires i < |files|
    ensures StagedNodes(files[..i + 1]) == StagedNodes(files[..i])[files[i].path := NodeFor(files[i])]
  {
    assert files[..i + 1][..i] == files[..i];
  }

  lemma {:induction false} StagedPaths(files: seq<File>)
    ensures StagedNodes(files).Keys == PathSet(files)
  {
    if files != [] {
      var front := files[..|files| - 1];
      StagedPaths(front);
      assert files == front + [files[|files| - 1]];
    }
  }

  /** The staged nodes are the ones the building method promises. */
  lemma {:induction false} StagedFits(files: seq<File>, i: nat)
    requires FilesFit(files) && i <= |files|
    ensures Staged(StagedNodes(files[..i]), files[..i])
    decreases i
  {
    if i > 0 {
      StagedFits(files, i - 1);
      PathIsNew(files, i - 1);
      StageNext(files, i - 1);
      StageOne(files, i - 1, StagedNodes(files[..i - 1]));
    }
  }

  lemma StagedEntry(files: seq<File>, f: File)
    requires FilesFit(files) && f in files
    ensures f.path in StagedNodes(files) && StagedNodes(files)[f.path] == NodeFor(f)
  {
    StagedFits(files, |files|);
    assert files[..|files|] == files;
  }

  // ---------------------------------------------------------------- opening a file

  /** What opening a path for writing comes to: an error, a walk that goes on above the staging
      root, an existing file, or a new one. */
  datatype Found = Refused | Outside(rest: seq<string>) | Existing(path: string) | Missing(path: string)

  /** How many symbolic links the kernel follows. */
  const LINK_LIMIT: nat := 40

  /** Path resolution, component by component, following every symbolic link. */
  function Lookup(tree: Tree, at: seq<string>, rest: seq<string>, links: nat): Found
    decreases links, |rest|
  {
    if rest == [] then Refused
    else if rest[0] == "" || rest[0] == "." then Lookup(tree, at, rest[1..], links)
    else if rest[0] == ".." then
      if at == [] then Outside(rest[1..]) else Lookup(tree, at[..|at| - 1], rest[1..], links)
    else
      var path := Join(at + [rest[0]]);
      if path !in tree then (if |rest| == 1 then Missing(path) else Refused)
      else match tree[path]
        case Folder => Lookup(tree, at + [rest[0]], rest[1..], links)
        case Regular(_, _) => if |rest| == 1 then Existing(path) else Refused
        case Symlink(text) =>
          if links == 0 then Refused
          else if IsAbs(text) then Outside(Split(text) + rest[1..])
          else Lookup(tree, at, Split(text) + rest[1..], links - 1)
        case Special => Refused
  }

  /** Where `WriteManifest` writes in a staging tree. */
  function WriteTarget(tree: Tree): Found {
    Lookup(tree, [], [MANIFEST_FILE], LINK_LIMIT)
  }

  lemma TargetInTree(tree: Tree)
    ensures MANIFEST_FILE !in tree ==> WriteTarget(tree) == Missing(MANIFEST_FILE)
    ensures MANIFEST_FILE in tree && tree[MANIFEST_FILE].Regular? ==> WriteTarget(tree) == Existing(MANIFEST_FILE)
  {
    assert [] + [MANIFEST_FILE] == [MANIFEST_FILE];
  }

  lemma {:induction false} LookupInTree(tree: Tree, at: seq<string>, rest: seq<string>, links: nat)
    ensures var found := Lookup(tree, at, rest, links);
            && (found.Existing? ==> found.path in tree && tree[found.path].Regular?)
            && (found.Missing? ==> found.path !in tree)
    decreases links, |rest|
  {
    if rest != [] {
      var path := Join(at + [rest[0]]);
      if rest[0] == "" || rest[0] == "." {
        LookupInTree(tree, at, rest[1..], links);
      } else if rest[0] == ".." {
        if at != [] { LookupInTree(tree, at[..|at| - 1], rest[1..], links); }
      } else if path in tree && tree[path].Folder? {
        LookupInTree(tree, at + [rest[0]], rest[1..], links);
      } else if path in tree && tree[path].Symlink? && links > 0 {
        LookupInTree(tree, at, Split(tree[path].text) + rest[1..], links - 1);
      }
    }
  }

  // ---------------------------------------------------------------- the manifest's own name

  /** No entry takes the manifest file's name, as a file or as a directory. */
  predicate ManifestNameFree(files: seq<File>) {
    forall f <- files :: f.path != MANIFEST_FILE && !Ancestor(MANIFEST_FILE, f.path)
  }

  lemma NameFreeIff(files: seq<File>)
    ensures ManifestNameFree(files) <==> MANIFEST_FILE !in Below(StagedNodes(files))
  {
    StagedPaths(files);
    AboveIff(PathSet(files), MANIFEST_FILE);
    if ManifestNameFree(files) {
      forall path | path in PathSet(files) ensures path != MANIFEST_FILE && !Ancestor(MANIFEST_FILE, path) {
        var f :| f in files && f.path == path;
      }
    } else {
      var f :| f in files && (f.path == MANIFEST_FILE || Ancestor(MANIFEST_FILE, f.path));
      assert f.path in PathSet(files);
    }
  }

  /** The staged entries and the manifest file. */
  function TreeOf(codec: Codec, m: Manifest): Tree {
    Below(StagedNodes(m.core.files)[MANIFEST_FILE := Regular(codec.encode(m), 384)])
  }

  lemma NameHasNoParent(a: string)
    ensures !Ancestor(a, MANIFEST_FILE)
  {
    SplitPlain(MANIFEST_FILE);
  }

  lemma NoEntryAbove(m: Manifest, f: File, g: File)
    requires Accepted(m) && f in m.core.files && g in m.core.files
    ensures !Ancestor(f.path, g.path)
  {
    var i: nat :| i < |m.core.files| && m.core.files[i] == f;
    var j: nat :| j < |m.core.files| && m.core.files[j] == g;
    if i < j {
      AcceptedIsUnambiguous(m, i, j);
    } else if j < i {
      AcceptedIsUnambiguous(m, j, i);
    }
  }

  /** What lies above something in the tree is no entry and not the manifest file. */
  lemma AboveIsNothing(m: Manifest, a: string)
    requires Accepted(m) && ManifestNameFree(m.core.files) && a in Above(PathSet(m.core.files) + {MANIFEST_FILE})
    ensures a !in PathSet(m.core.files) + {MANIFEST_FILE}
    ensures AllOrdinary(Split(a))
  {
    hide Accepted;
    AboveIff(PathSet(m.core.files) + {MANIFEST_FILE}, a);
    NameHasNoParent(a);
    var path :| path in PathSet(m.core.files) && Ancestor(a, path);
    var g :| g in m.core.files && g.path == path;
    forall f <- m.core.files ensures f.path != a {
      NoEntryAbove(m, f, g);
    }
    AcceptedBody(m, g);
    AncestorOfSafe(a, path);
    SafePathIff(a);
  }

  lemma TreePaths(codec: Codec, m: Manifest)
    ensures (StagedNodes(m.core.files)[MANIFEST_FILE := Regular(codec.encode(m), 384)]).Keys ==
              PathSet(m.core.files) + {MANIFEST_FILE}
  {
    StagedPaths(m.core.files);
  }

  lemma TreePath(codec: Codec, m: Manifest, path: string)
    requires Accepted(m) && ManifestNameFree(m.core.files) && path in TreeOf(codec, m)
    ensures AllOrdinary(Split(path))
  {
    hide Accepted;
    hide Above;
    hide AllOrdinary;
    TreePaths(codec, m);
    if path in Above(PathSet(m.core.files) + {MANIFEST_FILE}) {
      AboveIsNothing(m, path);
    } else if path == MANIFEST_FILE {
      NamesAreOrdinary();
    } else {
      var f :| f in m.core.files && f.path == path;
      AcceptedBody(m, f);
      SafePathIff(path);
    }
  }

  lemma NamesAreOrdinary()
    ensures AllOrdinary(Split(MANIFEST_FILE))
  {
    SplitPlain(MANIFEST_FILE);
  }

  lemma TreeIsTidy(codec: Codec, m: Manifest)
    requires Accepted(m) && ManifestNameFree(m.core.files)
    ensures WellFormed(TreeOf(codec, m)) && NothingElse(TreeOf(codec, m), m.core.files)
  {
    hide Accepted;
    hide Above;
    hide Grounded;
    hide AllOrdinary;
    hide ManifestNameFree;
    TreePaths(codec, m);
    var nodes := StagedNodes(m.core.files)[MANIFEST_FILE := Regular(codec.encode(m), 384)];
    forall path <- TreeOf(codec, m) ensures AllOrdinary(Split(path)) && Grounded(TreeOf(codec, m), path) {
      TreePath(codec, m, path);
      BelowIsGrounded(nodes, path);
    }
  }

  lemma TreeEntry(codec: Codec, m: Manifest, f: File)
    requires Accepted(m) && ManifestNameFree(m.core.files) && f in m.core.files
    ensures f.path in TreeOf(codec, m) && TreeOf(codec, m)[f.path] == NodeFor(f)
  {
    hide Above;
    TreePaths(codec, m);
    StagedEntry(m.core.files, f);
    assert f.path in PathSet(m.core.files);
    if f.path in Above(PathSet(m.core.files) + {MANIFEST_FILE}) {
      AboveIsNothing(m, f.path);
    }
  }

  lemma TreeManifest(codec: Codec, m: Manifest)
    requires Accepted(m) && ManifestNameFree(m.core.files)
    ensures MANIFEST_FILE in TreeOf(codec, m) && TreeOf(codec, m)[MANIFEST_FILE] == Regular(codec.encode(m), 384)
  {
    hide Above;
    TreePaths(codec, m);
    if MANIFEST_FILE in Above(PathSet(m.core.files) + {MANIFEST_FILE}) {
      AboveIsNothing(m, MANIFEST_FILE);
    }
  }

  lemma TreeIsBuilt(codec: Codec, m: Manifest)
    requires Accepted(m) && ManifestNameFree(m.core.files)
    ensures Built(TreeOf(codec, m), codec, m)
  {
    hide Accepted;
    hide TreeOf;
    hide WellFormed;
    hide NothingElse;
    var tree := TreeOf(codec, m);
    TreeIsTidy(codec, m);
    forall f <- m.core.files ensures f.path in tree && tree[f.path] == NodeFor(f) {
      TreeEntry(codec, m, f);
    }
    TreeManifest(codec, m);
  }

  // ---------------------------------------------------------------- a tree that matches

  /** An entry under the manifest's name is not itself the text of this manifest: its hash
      would have to be part of what it is the hash of. */
  ghost predicate NotSelfReferring(codec: Codec, m: Manifest) {
    forall f <- m.core.files | f.path == MANIFEST_FILE && f.stored.Object? ::
      codec.decode(f.stored.bytes) != Some(m)
  }

  /** No tree whatsoever matches a manifest that takes the manifest file's own name. */
  lemma MatchNeedsName(tree: Tree, codec: Codec, m: Manifest)
    requires TreeMatches(tree, codec, m) && NotSelfReferring(codec, m)
    requires forall f <- m.core.files :: f.path in tree ==> Grounded(tree, f.path)
    ensures ManifestNameFree(m.core.files)
  {
    forall f <- m.core.files ensures f.path != MANIFEST_FILE && !Ancestor(MANIFEST_FILE, f.path) {
      assert EntryThere(tree, f);
    }
  }
}
