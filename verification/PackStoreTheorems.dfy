/** The shared object store over whole runs of racing launchers: when it stays true to its
    names, when a launcher can publish, and when what is published passes the later check. */
module PackStoreTheorems {
  import opened Basics
  import opened PackPaths
  import opened PackManifest
  import opened PackTree
  import opened PackStaging
  import opened PackStore
  import opened PackStoreSafety
  import opened PackLaunch

  /** No launcher ever writes the manifest to a file of the store. */
  predicate Harmless(plan: Plan) {
    !Endangers(plan) || !FirstSizesRight(plan.Files())
  }

  lemma NameFreeIsSafe(plan: Plan)
    requires ManifestNameFree(plan.Files())
    ensures !Endangers(plan) && plan.Target() == Missing(MANIFEST_FILE)
  {
    NameFreeIff(plan.Files());
    TargetInTree(Below(StagedNodes(plan.Files())));
  }

  lemma {:induction false} RunKeepsInv(plan: Plan, run: seq<World>, i: nat)
    requires Run(plan, run) && i < |run| && Harmless(plan)
    ensures Inv(plan, run[i])
  {
    hide Inv;
    hide Harmless;
    hide Accepted;
    hide Initial;
    if i == 0 {
      StartsWell(plan, run[0]);
    } else {
      RunKeepsInv(plan, run, i - 1);
      var p := OneStep(plan, run, i - 1);
    }
  }

  /** Who takes a step, and that it keeps the invariant. */
  lemma OneStep(plan: Plan, run: seq<World>, i: nat) returns (p: Process)
    requires Run(plan, run) && i + 1 < |run| && Harmless(plan) && Inv(plan, run[i])
    ensures Inv(plan, run[i + 1]) && Evolves(p, run[i].fs, run[i + 1].fs)
  {
    hide Act;
    hide Evolves;
    hide Endangers;
    hide Accepted;
    assert StepAt(plan, run, i);
    p :| ProcessStep(plan, run[i], p, run[i + 1]);
    assert LocalOf(plan, run[i], p);
    AcceptedFits(plan.m);
    StepKeepsInv(plan, run[i], p, run[i + 1]);
  }

  // ---------------------------------------------------------------- the store

  /** Where no manifest is written over an object, an object's name refers to the bytes and
      the mode it names, in every reachable state. */
  lemma ObjectNamesAreTrue(plan: Plan, run: seq<World>, i: nat, id: Id)
    requires Run(plan, run) && i < |run| && Harmless(plan) && Stored(id) in run[i].fs.names
    ensures GoodAt(run[i].fs, Stored(id), id)
  {
    RunKeepsInv(plan, run, i);
    assert NameFits(plan, run[i].fs, Stored(id));
  }

  ghost predicate Ruins(plan: Plan, run: seq<World>, i: nat) {
    i < |run| && Run(plan, run) && Broken(run[i].fs)
  }

  /** The store stays content-addressed in every run exactly if the manifest's own name, through
      all links and also out of the staging tree, does not lead a launcher that gets that far to
      a file of the store that it can write or make. */
  lemma StoreStaysTrueIff(plan: Plan)
    requires Accepted(plan.m) && plan.Text() != ""
    ensures (forall run: seq<World>, i: nat :: !Ruins(plan, run, i)) <==>
              !(Endangers(plan) && FirstSizesRight(plan.Files()))
  {
    hide Accepted;
    hide FirstSizesRight;
    if Endangers(plan) && FirstSizesRight(plan.Files()) {
      var run := BreakStore(plan);
      assert Ruins(plan, run, |run| - 1);
    } else {
      forall run: seq<World>, i: nat ensures !Ruins(plan, run, i) {
        if i < |run| && Run(plan, run) {
          forall id: Id | Stored(id) in run[i].fs.names ensures NamesTruly(run[i].fs, id) {
            ObjectNamesAreTrue(plan, run, i, id);
          }
        }
      }
    }
  }

  /** A file that is closed is never written again, under whatever names it is shared; an
      object name, once there, stays; and so does the published tree. */
  lemma {:induction false} SharedFilesNeverChange(plan: Plan, run: seq<World>, i: nat, j: nat)
    requires Run(plan, run) && i <= j < |run| && Harmless(plan)
    ensures forall k <- run[i].fs.inodes | run[i].fs.inodes[k].writer == None ::
              k in run[j].fs.inodes && run[j].fs.inodes[k] == run[i].fs.inodes[k]
    ensures forall name <- run[i].fs.names | name.Stored? :: name in run[j].fs.names
    ensures run[i].fs.published.Some? ==> run[j].fs.published == run[i].fs.published
    decreases j - i
  {
    hide Inv;
    hide Harmless;
    hide Accepted;
    hide Initial;
    hide Step;
    if i < j {
      SharedFilesNeverChange(plan, run, i, j - 1);
      RunKeepsInv(plan, run, j - 1);
      var p := OneStep(plan, run, j - 1);
    }
  }

  // ---------------------------------------------------------------- what is published

  /** The published tree is the manifest's own tree, byte for byte, with nothing beside it. */
  lemma PublishedTreeIs(plan: Plan, run: seq<World>, i: nat)
    requires Run(plan, run) && i < |run| && ManifestNameFree(plan.Files()) && run[i].fs.published.Some?
    ensures View(run[i].fs, run[i].fs.published.value) == TreeOf(plan.codec, plan.m)
    ensures CleanedUp(run[i].fs, run[i].fs.published.value) && FirstSizesRight(plan.Files())
  {
    NameFreeIsSafe(plan);
    RunKeepsInv(plan, run, i);
  }

  /** What a launcher publishes passes the check of every later launcher exactly if entries
      that share an object share a size, none takes the manifest file's name, and the
      manifest's text can be read back; all three can be seen in the manifest. */
  lemma PublishedMatchesIff(plan: Plan, run: seq<World>, i: nat)
    requires Run(plan, run) && i < |run| && run[i].fs.published.Some?
    requires CodecFits(plan.codec, plan.m) && NotSelfReferring(plan.codec, plan.m)
    ensures TreeThere(plan, run[i].fs, run[i].fs.published.value) <==>
              SizesShared(plan.Files()) && ManifestNameFree(plan.Files()) && |plan.Text()| <= MANIFEST_LIMIT
  {
    hide SizesShared;
    hide FirstSizesRight;
    hide Run;
    var tree := View(run[i].fs, run[i].fs.published.value);
    if ManifestNameFree(plan.Files()) {
      PublishedTreeIs(plan, run, i);
      FirstsSuffice(plan.Files());
      RunAccepts(plan, run);
      TreeIsBuilt(plan.codec, plan.m);
      BuiltVerifiesIff(tree, plan.codec, plan.m);
    } else if TreeMatches(tree, plan.codec, plan.m) {
      forall f <- plan.Files() | f.path in tree ensures Grounded(tree, f.path) {
        BelowIsGrounded(PlacedNodes(run[i].fs, run[i].fs.published.value), f.path);
      }
      MatchNeedsName(tree, plan.codec, plan.m);
    }
  }

  lemma RunAccepts(plan: Plan, run: seq<World>)
    requires Run(plan, run)
    ensures Accepted(plan.m)
  {
  }

  /** Losing the race is no error exactly if the tree verifies; then whatever launcher finds
      a tree returns it. */
  lemma LosersReturnIff(plan: Plan, run: seq<World>, i: nat, p: Process, t: FS, d: Stage)
    requires Run(plan, run) && i < |run| && run[i].fs.published.Some?
    requires CodecFits(plan.codec, plan.m) && NotSelfReferring(plan.codec, plan.m)
    requires FinishAct(plan, p, run[i].fs, Confirming, t, d)
    ensures d == Returned <==>
              SizesShared(plan.Files()) && ManifestNameFree(plan.Files()) && |plan.Text()| <= MANIFEST_LIMIT
  {
    PublishedMatchesIff(plan, run, i);
  }

  ghost predicate Publishes(plan: Plan, run: seq<World>, i: nat) {
    i < |run| && Run(plan, run) && run[i].fs.published.Some?
  }

  /** An accepted manifest can be materialised exactly if the first entry to name each object
      has the object's size and the manifest's own name can be written. */
  lemma MaterializesIff(plan: Plan)
    requires Accepted(plan.m)
    ensures (exists run: seq<World>, i: nat :: Publishes(plan, run, i)) <==>
              FirstSizesRight(plan.Files()) && Writable(plan)
  {
    hide Accepted;
    hide FirstSizesRight;
    if FirstSizesRight(plan.Files()) && Writable(plan) {
      var run := PublishAlone(plan);
      assert Publishes(plan, run, |run| - 1);
    }
    forall run: seq<World>, i: nat | Publishes(plan, run, i) ensures FirstSizesRight(plan.Files()) && Writable(plan) {
      PublishedIsComplete(plan, run, i);
    }
  }

  lemma PublishedIsComplete(plan: Plan, run: seq<World>, i: nat)
    requires Publishes(plan, run, i)
    ensures FirstSizesRight(plan.Files()) && Writable(plan)
  {
    if Harmless(plan) {
      RunKeepsInv(plan, run, i);
    }
  }

  // ---------------------------------------------------------------- two manifests

  /** One regular entry under the manifest file's name. */
  const TAKEN: seq<File> := [File(MANIFEST_FILE, Object("x", true), "", 1)]

  /** A link of that name to nothing. */
  const DANGLING: seq<File> := [
    File("a", Object("x", true), "", 1), File(MANIFEST_FILE, NoObject, "b", 0)]

  /** One component that is a path by itself. */
  predicate Plain(name: string) {
    Ordinary(name) && NoForbidden(name)
  }

  lemma PlainIsSafe(name: string)
    requires Plain(name)
    ensures SafePath(name) && Split(name) == [name] && !IsAbs(name) && Home(name) == []
  {
    SplitPlain(name);
    SafePathIff(name);
  }

  lemma NameIsPlain()
    ensures Plain(MANIFEST_FILE) && Plain("a") && Plain("b")
  {
  }

  lemma NothingAbove(paths: set<string>)
    requires forall path <- paths :: |Split(path)| == 1
    ensures Above(paths) == {}
  {
  }

  lemma TakenLeads()
    ensures WriteTarget(Below(StagedNodes(TAKEN))) == Existing(MANIFEST_FILE)
  {
    StageNext(TAKEN, 0);
    assert TAKEN[..0] == [] && TAKEN[..1] == TAKEN;
    var nodes := StagedNodes(TAKEN);
    assert nodes.Keys == {MANIFEST_FILE} && nodes[MANIFEST_FILE].Regular?;
    hide Split;
    NameIsPlain();
    PlainIsSafe(MANIFEST_FILE);
    NothingAbove(nodes.Keys);
    TargetInTree(Below(nodes));
  }

  lemma TakenAccepted(m: Manifest)
    requires m.core.files == TAKEN && m.core.python == MANIFEST_FILE
    requires m.core.format == FORMAT && m.digest == DigestOf(m.core)
    ensures Accepted(m) && FirstSizesRight(TAKEN)
  {
    hide SafePath;
    hide Split;
    NameIsPlain();
    PlainIsSafe(MANIFEST_FILE);
    assert TAKEN[..0] == [] && FitsAt(TAKEN, 0);
    assert TAKEN[0] in m.core.files;
  }

  /** A launcher that may write anything and materialises this accepted manifest writes it
      over an object of the shared store. */
  lemma TakenNameRuinsStore(plan: Plan) returns (run: seq<World>)
    requires plan.Files() == TAKEN && plan.m.core.python == MANIFEST_FILE && plan.m.core.format == FORMAT
    requires plan.m.digest == DigestOf(plan.m.core) && plan.root && plan.Text() != ""
    ensures Accepted(plan.m) && |run| > 0 && Ruins(plan, run, |run| - 1)
  {
    hide Accepted;
    hide FirstSizesRight;
    hide WriteTarget;
    TakenAccepted(plan.m);
    TakenLeads();
    run := BreakStore(plan);
  }

  /** Opening a link to nothing opens what it names. */
  lemma ThroughLink(tree: Tree, name: string, text: string)
    requires Plain(name) && Plain(text) && name in tree && tree[name] == Symlink(text) && text !in tree
    ensures Lookup(tree, [], [name], LINK_LIMIT) == Missing(text)
  {
    PlainIsSafe(text);
    assert [] + [name] == [name] && [name][1..] == [] && [text] + [] == [text] && [] + [text] == [text];
    assert Lookup(tree, [], [text], LINK_LIMIT - 1) == Missing(text);
  }

  lemma DanglingLeads()
    ensures WriteTarget(Below(StagedNodes(DANGLING))) == Missing("b")
  {
    hide Split;
    hide Lookup;
    hide Plain;
    StageNext(DANGLING, 0);
    StageNext(DANGLING, 1);
    assert DANGLING[..0] == [] && DANGLING[..2] == DANGLING;
    var nodes := StagedNodes(DANGLING);
    assert nodes.Keys == {"a", MANIFEST_FILE} && nodes[MANIFEST_FILE] == Symlink("b");
    NameIsPlain();
    PlainIsSafe(MANIFEST_FILE);
    PlainIsSafe("a");
    NothingAbove(nodes.Keys);
    ThroughLink(Below(nodes), MANIFEST_FILE, "b");
  }

  lemma PlainLinkFits(f: File)
    requires Plain(f.path) && Plain(f.link) && f.stored == NoObject
    ensures LinkFits(f)
  {
    PlainIsSafe(f.path);
    PlainIsSafe(f.link);
    assert [] + [f.link] == [f.link] && [f.link][1..] == [];
    assert Walk([], [f.link]) == [[f.link]];
    LinkFitsIff(f);
  }

  lemma TwoFilesFit(f: File, g: File)
    requires Plain(f.path) && Plain(g.path) && Less(f.path, g.path) && f.size >= 0 && g.size >= 0
    requires BodyFits(f) && BodyFits(g)
    ensures FilesFit([f, g])
  {
    hide SafePath;
    hide BodyFits;
    var files := [f, g];
    PlainIsSafe(f.path);
    PlainIsSafe(g.path);
    assert files[..0] == [] && files[..1] == [f];
    assert Less("", f.path);
    assert FitsAt(files, 0) && FitsAt(files, 1);
  }

  lemma DanglingAccepted(m: Manifest)
    requires m.core.files == DANGLING && m.core.python == "a"
    requires m.core.format == FORMAT && m.digest == DigestOf(m.core)
    ensures Accepted(m) && FirstSizesRight(DANGLING)
  {
    hide Plain;
    hide LinkFits;
    hide SafePath;
    hide FilesFit;
    NameIsPlain();
    PlainIsSafe("a");
    PlainLinkFits(DANGLING[1]);
    TwoFilesFit(DANGLING[0], DANGLING[1]);
    assert DANGLING == [DANGLING[0], DANGLING[1]];
    assert DANGLING[0] in m.core.files;
  }

  /** This accepted manifest can be materialised by anyone, and what is published never
      passes the later check. */
  lemma DanglingNeverVerifies(plan: Plan) returns (run: seq<World>)
    requires plan.Files() == DANGLING && plan.m.core.python == "a" && plan.m.core.format == FORMAT
    requires plan.m.digest == DigestOf(plan.m.core)
    requires CodecFits(plan.codec, plan.m)
    ensures |run| > 0 && Publishes(plan, run, |run| - 1)
    ensures !TreeThere(plan, Last(run).fs, 0)
  {
    hide Accepted;
    hide FirstSizesRight;
    hide WriteTarget;
    hide TreeMatches;
    DanglingAccepted(plan.m);
    DanglingLeads();
    run := PublishAlone(plan);
    assert DANGLING[1] in plan.Files();
    assert Publishes(plan, run, |run| - 1);
    PublishedMatchesIff(plan, run, |run| - 1);
  }
}
