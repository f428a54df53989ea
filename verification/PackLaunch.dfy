/** One launcher alone with an intact pack: the run that stages every entry, which exists
    exactly if the first entry to name an object has the object's size. */
module PackLaunch {
  import opened Basics
  import opened PackPaths
  import opened PackManifest
  import opened PackTree
  import opened PackStaging
  import opened PackStore
  import opened PackStoreSafety

  function Last(run: seq<World>): World
    requires |run| > 0
  {
    run[|run| - 1]
  }

  // ---------------------------------------------------------------- a stocked store

  /** Pack and store hold one file for each object, and the store one more. */
  function Stock(files: seq<File>, extra: Option<Id>): FS {
    if files == [] then
      if extra.None? then FS(map[], map[], map[], None)
      else FS(map[Stored(extra.value) := 0], map[], map[0 := Filed(extra.value)], None)
    else
      var n := |files| - 1;
      var s, id := Stock(files[..n], extra), IdOf(files[n].stored);
      if files[n].link != "" then s
      else s.(names := s.names[Packed(id) := |files|][Stored(id) := |files|], inodes := s.inodes[|files| := Filed(id)])
  }

  function Filed(id: Id): Inode {
    Inode(id.bytes, ModeOf(id.executable), None)
  }

  predicate StockName(s: FS, name: Name) {
    && (name.Packed? || name.Stored?) && name in s.names && s.names[name] in s.inodes
    && Good(s.inodes[s.names[name]], name.id)
  }

  lemma {:induction false} StockFits(files: seq<File>, extra: Option<Id>)
    ensures forall name <- Stock(files, extra).names :: StockName(Stock(files, extra), name)
    ensures forall i <- Stock(files, extra).inodes :: i <= |files|
    ensures Stock(files, extra).links == map[] && Stock(files, extra).published == None
    ensures forall id <- ObjectIds(files) ::
              Packed(id) in Stock(files, extra).names && Stored(id) in Stock(files, extra).names
  {
    if files != [] {
      var n := |files| - 1;
      StockFits(files[..n], extra);
      var s, t, id := Stock(files[..n], extra), Stock(files, extra), IdOf(files[n].stored);
      forall name <- t.names ensures StockName(t, name) {
        if name in s.names { assert StockName(s, name); }
      }
      assert files == files[..n] + [files[n]];
    }
  }

  /** Nothing else is in the store. */
  lemma {:induction false} StockHolds(files: seq<File>, extra: Option<Id>, id: Id)
    ensures Stored(id) in Stock(files, extra).names <==> id in ObjectIds(files) || extra == Some(id)
  {
    if files != [] {
      var n := |files| - 1;
      StockHolds(files[..n], extra, id);
      assert files == files[..n] + [files[n]];
    }
  }

  /** What another link outside leads to must be there. */
  function Extra(plan: Plan): Option<Id> {
    if plan.Target().Outside? && plan.outside(plan.Target().rest).Shared? then
      Some(plan.outside(plan.Target().rest).id)
    else None
  }

  ghost predicate OnlyStock(plan: Plan, s: FS) {
    forall id :: Stored(id) in s.names <==> Stored(id) in Stock(plan.Files(), Extra(plan)).names
  }

  /** Every object is in the pack and in the store already. */
  ghost predicate Stocked(plan: Plan, s: FS) {
    forall id <- ObjectIds(plan.Files()) :: GoodAt(s, Packed(id), id) && GoodAt(s, Stored(id), id)
  }

  // ---------------------------------------------------------------- one step at a time

  /** A run of one launcher that stands at a stage. */
  ghost predicate Alone(plan: Plan, run: seq<World>, c: Stage) {
    && Run(plan, run) && Last(run).stages == map[0 := c]
    && Inv(plan, Last(run)) && Stocked(plan, Last(run).fs) && Last(run).fs.published == None
    && OnlyStock(plan, Last(run).fs)
  }

  lemma Longer(plan: Plan, run: seq<World>, v: World)
    requires Run(plan, run) && Step(plan, Last(run), v)
    ensures Run(plan, run + [v]) && Last(run + [v]) == v
  {
    var longer := run + [v];
    forall i: nat | i + 1 < |longer| ensures StepAt(plan, longer, i) {
      if i + 1 < |run| {
        assert StepAt(plan, run, i);
      }
    }
  }

  lemma Take(plan: Plan, run: seq<World>, c: Stage, t: FS, d: Stage) returns (longer: seq<World>)
    requires Alone(plan, run, c) && !c.Writing? && Act(plan, 0, Last(run).fs, c, t, d) && t.published == None
    requires forall id :: Stored(id) in Last(run).fs.names <==> Stored(id) in t.names
    ensures Alone(plan, longer, d) && Last(longer).fs == t
  {
    hide Act;
    hide Inv;
    hide Accepted;
    var w, v := Last(run), World(t, map[0 := d]);
    assert v.stages == w.stages[0 := d];
    assert ProcessStep(plan, w, 0, v);
    Longer(plan, run, v);
    longer := run + [v];
    AcceptedFits(plan.m);
    StepKeepsInv(plan, w, 0, v);
    StaysStocked(plan, w.fs, v);
  }

  lemma AcceptedFits(m: Manifest)
    requires Accepted(m)
    ensures FilesFit(m.core.files)
  {
  }

  lemma StaysStocked(plan: Plan, s: FS, v: World)
    requires Stocked(plan, s) && Evolves(0, s, v.fs) && Inv(plan, v)
    ensures Stocked(plan, v.fs)
  {
    var t := v.fs;
    forall id <- ObjectIds(plan.Files()) ensures GoodAt(t, Packed(id), id) && GoodAt(t, Stored(id), id) {
      assert SameName(s, t, Packed(id));
      assert NameFits(plan, t, Stored(id));
    }
  }

  lemma Begin(plan: Plan) returns (run: seq<World>)
    requires Accepted(plan.m)
    ensures Alone(plan, run, Choosing(0, {}))
  {
    var w := World(Stock(plan.Files(), Extra(plan)), map[0 := Resting]);
    StockFits(plan.Files(), Extra(plan));
    assert Initial(w);
    StartsWell(plan, w);
    run := [w];
    assert Alone(plan, run, Resting);
    run := Take(plan, run, Resting, w.fs, Choosing(0, {}));
  }

  // ---------------------------------------------------------------- one entry

  /** The staged name and the object's name are names of one file. */
  predicate Joined(s: FS, f: File) {
    var staged, stored := Placed(0, f.path), Stored(IdOf(f.stored));
    f.link == "" ==> staged in s.names && stored in s.names && s.names[staged] == s.names[stored]
  }

  predicate AllJoined(s: FS, files: seq<File>) {
    forall f <- files :: Joined(s, f)
  }

  lemma LocalHere(plan: Plan, run: seq<World>, c: Stage)
    requires Alone(plan, run, c)
    ensures Global(plan, Last(run).fs) && Local(plan, Last(run).fs, 0, c)
  {
    assert LocalOf(plan, Last(run), 0);
  }

  lemma LinkEntry(plan: Plan, run: seq<World>, i: nat, imported: set<ObjectRef>) returns (longer: seq<World>)
    requires i < |plan.Files()| && Alone(plan, run, Choosing(i, imported)) && plan.Files()[i].link != ""
    ensures Alone(plan, longer, Choosing(i + 1, imported)) && Last(longer).fs.names == Last(run).fs.names
  {
    hide Alone;
    var c := Choosing(i, imported);
    AloneMeans(plan, run, c);
    LocalHere(plan, run, c);
    TargetIsNew(plan, Last(run).fs, 0, i);
    var s, f := Last(run).fs, plan.Files()[i];
    longer := Take(plan, run, c, s.(links := s.links[Placed(0, f.path) := f.link]), Choosing(i + 1, imported));
  }

  lemma AloneMeans(plan: Plan, run: seq<World>, c: Stage)
    requires Alone(plan, run, c)
    ensures |run| > 0 && FilesFit(plan.Files()) && Stocked(plan, Last(run).fs) && Last(run).fs.published == None
  {
  }

  /** The object is in the store already, so linking fails and what is there is verified. */
  lemma ImportEntry(plan: Plan, run: seq<World>, i: nat, imported: set<ObjectRef>) returns (longer: seq<World>)
    requires i < |plan.Files()| && Alone(plan, run, Choosing(i, imported)) && plan.Files()[i].link == ""
    requires plan.Files()[i].stored !in imported && SizeRight(plan.Files()[i])
    ensures Alone(plan, longer, Choosing(i, imported + {plan.Files()[i].stored}))
    ensures Last(longer).fs.names == Last(run).fs.names - Temporaries(Last(run).fs, 0)
  {
    hide Alone;
    var f, c := plan.Files()[i], Choosing(i, imported);
    AloneMeans(plan, run, c);
    var s, id, next := Last(run).fs, IdOf(f.stored), Import(i, imported + {f.stored});
    var job := Job(Packed(id), Stored(id), id, f.size, next);
    assert id in ObjectIds(plan.Files());
    assert Verifies(s, Packed(id), id, f.size) && Verifies(s, Stored(id), id, f.size);
    longer := Take(plan, run, c, s, Linking(job));
    longer := Take(plan, longer, Linking(job), s, Looking(job));
    longer := Take(plan, longer, Looking(job), s, Checking(job));
    longer := Take(plan, longer, Checking(job), s, Leaving(next));
    longer := Leave(plan, longer, next);
  }

  lemma Leave(plan: Plan, run: seq<World>, next: Next) returns (longer: seq<World>)
    requires Alone(plan, run, Leaving(next))
    ensures Alone(plan, longer, Onward(next))
    ensures Last(longer).fs.names == Last(run).fs.names - Temporaries(Last(run).fs, 0)
  {
    hide Alone;
    AloneMeans(plan, run, Leaving(next));
    var s := Last(run).fs;
    longer := Take(plan, run, Leaving(next), s.(names := s.names - Temporaries(s, 0)), Onward(next));
  }

  /** Linking from the store succeeds. */
  lemma PlaceEntry(plan: Plan, run: seq<World>, i: nat, imported: set<ObjectRef>) returns (longer: seq<World>)
    requires i < |plan.Files()| && Alone(plan, run, Choosing(i, imported)) && plan.Files()[i].link == ""
    requires plan.Files()[i].stored in imported
    ensures Alone(plan, longer, Choosing(i + 1, imported))
    ensures AllJoined(Last(run).fs, plan.Files()[..i]) ==> AllJoined(Last(longer).fs, plan.Files()[..i + 1])
  {
    hide Alone;
    hide AllJoined;
    hide FilesFit;
    hide StagedThrough;
    var f, c := plan.Files()[i], Choosing(i, imported);
    AloneMeans(plan, run, c);
    LocalHere(plan, run, c);
    TargetIsNew(plan, Last(run).fs, 0, i);
    var s, id, next := Last(run).fs, IdOf(f.stored), Place(i, imported);
    var job := Job(Stored(id), Placed(0, f.path), id, f.size, next);
    assert id in ObjectIds(plan.Files()) && Stored(id) in s.names;
    longer := Take(plan, run, c, s, Linking(job));
    longer := LinkJob(plan, longer, job);
    longer := Leave(plan, longer, next);
    AloneMeans(plan, longer, Choosing(i + 1, imported));
    if AllJoined(s, plan.Files()[..i]) {
      JoinOne(plan, s, Last(longer).fs, i);
    }
  }

  lemma LinkJob(plan: Plan, run: seq<World>, job: Job) returns (longer: seq<World>)
    requires Alone(plan, run, Linking(job)) && job.source in Last(run).fs.names && !Taken(Last(run).fs, job.target)
    requires job.target.Placed?
    ensures Alone(plan, longer, Leaving(job.next))
    ensures Last(longer).fs.names == Last(run).fs.names[job.target := Last(run).fs.names[job.source]]
  {
    hide Alone;
    AloneMeans(plan, run, Linking(job));
    var s := Last(run).fs;
    var t := s.(names := s.names[job.target := s.names[job.source]]);
    longer := Take(plan, run, Linking(job), t, Leaving(job.next));
  }

  lemma JoinOne(plan: Plan, s: FS, t: FS, i: nat)
    requires FilesFit(plan.Files()) && i < |plan.Files()| && AllJoined(s, plan.Files()[..i])
    requires var f := plan.Files()[i];
             && Stored(IdOf(f.stored)) in s.names
             && var names := s.names[Placed(0, f.path) := s.names[Stored(IdOf(f.stored))]];
                forall name: Name | !name.Temporary? ::
                  (name in names <==> name in t.names) && (name in names ==> t.names[name] == names[name])
    ensures AllJoined(t, plan.Files()[..i + 1])
  {
    var f := plan.Files()[i];
    PathIsNew(plan.Files(), i);
    assert plan.Files()[..i + 1] == plan.Files()[..i] + [f];
    forall g <- plan.Files()[..i + 1] ensures Joined(t, g) {
      if g in plan.Files()[..i] {
        assert Joined(s, g) && g.path in PathSet(plan.Files()[..i]);
      }
    }
  }

  /** A launcher alone can stage the first entries. */
  lemma {:induction false} StageEntries(plan: Plan, i: nat) returns (run: seq<World>)
    requires Accepted(plan.m) && FirstSizesRight(plan.Files()) && i <= |plan.Files()|
    ensures Alone(plan, run, Choosing(i, Imported(plan.Files()[..i])))
    ensures AllJoined(Last(run).fs, plan.Files()[..i])
    decreases i
  {
    hide Alone;
    hide Accepted;
    var files := plan.Files();
    if i == 0 {
      run := Begin(plan);
      assert Imported(files[..0]) == {};
    } else {
      run := StageEntries(plan, i - 1);
      var f, imported := files[i - 1], Imported(files[..i - 1]);
      assert files[..i] == files[..i - 1] + [f];
      if f.link != "" {
        assert Imported(files[..i]) == imported;
        run := LinkEntry(plan, run, i - 1, imported);
      } else {
        assert Imported(files[..i]) == imported + {f.stored};
        if f.stored !in imported {
          ImportedIff(files, i - 1);
          assert SizeChecked(files, i - 1);
          run := ImportEntry(plan, run, i - 1, imported);
        } else {
          assert imported + {f.stored} == imported;
        }
        run := PlaceEntry(plan, run, i - 1, imported + {f.stored});
      }
    }
  }

  /** The run that has staged everything and goes on to write the manifest. */
  lemma StageAll(plan: Plan) returns (run: seq<World>)
    requires Accepted(plan.m) && FirstSizesRight(plan.Files())
    ensures Run(plan, run) && Last(run).stages == map[0 := Writing]
    ensures Global(plan, Last(run).fs) && Local(plan, Last(run).fs, 0, Writing)
    ensures AllJoined(Last(run).fs, plan.Files()) && Last(run).fs.published == None && OnlyStock(plan, Last(run).fs)
  {
    var n := |plan.Files()|;
    assert plan.Files()[..n] == plan.Files();
    run := StageEntries(plan, n);
    run := Take(plan, run, Choosing(n, Imported(plan.Files()[..n])), Last(run).fs, Writing);
    LocalHere(plan, run, Writing);
  }

  // ---------------------------------------------------------------- the manifest and the end

  /** The launcher alone takes one more step, whatever the invariant says of it. */
  lemma Go(plan: Plan, run: seq<World>, c: Stage, t: FS, d: Stage) returns (longer: seq<World>)
    requires Run(plan, run) && Last(run).stages == map[0 := c] && Act(plan, 0, Last(run).fs, c, t, d)
    ensures Run(plan, longer) && |longer| == |run| + 1 && Last(longer) == World(t, map[0 := d])
    ensures forall i | 0 <= i < |run| :: longer[i] == run[i]
  {
    hide Act;
    hide Accepted;
    var v := World(t, map[0 := d]);
    assert v.stages == Last(run).stages[0 := d];
    assert ProcessStep(plan, Last(run), 0, v);
    Longer(plan, run, v);
    longer := run + [v];
  }

  lemma {:induction false} FreshNumber(keys: set<nat>) returns (n: nat)
    ensures forall k <- keys :: k < n
    decreases |keys|
  {
    if keys == {} {
      n := 0;
    } else {
      var k :| k in keys;
      var m := FreshNumber(keys - {k});
      n := if m > k then m else k + 1;
      forall j <- keys ensures j < n {
        assert j == k || j in keys - {k};
      }
    }
  }

  /** The manifest's name leads to a place where this launcher can write. */
  predicate Writable(plan: Plan) {
    plan.Target().Missing? || GoesElsewhere(plan) || Endangers(plan)
  }

  /** What the name leads to, if it is a file, is an entry and shares its object's file. */
  lemma ExistingIsShared(plan: Plan, s: FS) returns (f: File)
    requires FilesFit(plan.Files()) && AllJoined(s, plan.Files()) && plan.Target().Existing?
    ensures f in plan.Files() && f.path == plan.Target().path && f.link == "" && Joined(s, f)
  {
    LookupInTree(Below(StagedNodes(plan.Files())), [], [MANIFEST_FILE], LINK_LIMIT);
    StagedPaths(plan.Files());
    f :| f in plan.Files() && f.path == plan.Target().path;
    StagedEntry(plan.Files(), f);
  }

  /** The file is open for the manifest, and empty; it is new or the one of an object. */
  ghost predicate Emptied(plan: Plan, s: FS, inode: nat, id: Id) {
    && inode in s.inodes && s.inodes[inode].bytes == "" && s.published == None
    && (Endangers(plan) ==> Stored(id) in s.names && s.names[Stored(id)] == inode)
  }

  function Created(s: FS, name: Name, inode: nat): FS {
    s.(names := s.names[name := inode], inodes := s.inodes[inode := Inode("", 384, Some(0))])
  }

  function Truncated(s: FS, inode: nat): FS
    requires inode in s.inodes
  {
    s.(inodes := s.inodes[inode := s.inodes[inode].(bytes := "", writer := Some(0))])
  }

  function Scribed(s: FS, inode: nat, text: string): FS
    requires inode in s.inodes
  {
    s.(inodes := s.inodes[inode := s.inodes[inode].(bytes := text)])
  }

  lemma CanScribe(plan: Plan, s: FS, name: Name, inode: nat)
    requires inode in s.inodes
    ensures Act(plan, 0, s, Scribing(name, inode, ""), Scribed(s, inode, plan.Text()),
                Scribing(name, inode, plan.Text()))
  {
  }

  /** The staged state, in which the manifest is about to be written. */
  ghost predicate AllStaged(plan: Plan, s: FS) {
    && Global(plan, s) && Local(plan, s, 0, Writing) && AllJoined(s, plan.Files()) && s.published == None
    && OnlyStock(plan, s)
  }

  lemma NamedInode(plan: Plan, s: FS, name: Name)
    requires Global(plan, s) && name in s.names
    ensures s.names[name] in s.inodes
  {
    assert NameFits(plan, s, name);
  }

  /** Opening the name of an existing file. */
  lemma OpenOld(plan: Plan, s: FS, name: Name) returns (t: FS, inode: nat)
    requires AllStaged(plan, s) && name in s.names && plan.root
    requires match plan.Target()
             case Existing(path) => name == Placed(0, path)
             case Outside(rest) =>
               (match plan.outside(rest)
                case StoreName(id) => name == Stored(id)
                case Shared(id) => name == Stored(id)
                case _ => false)
             case _ => false
    ensures inode in t.inodes && t.inodes[inode].bytes == "" && t.published == None
    ensures t.names == s.names && inode == s.names[name]
    ensures WriteAct(plan, 0, s, t, Scribing(name, inode, ""))
  {
    hide Global;
    hide Endangers;
    hide AllJoined;
    hide OnlyStock;
    hide SizesChecked;
    hide StagedNodes;
    hide Lookup;
    hide PlacedNodes;
    StagedTarget(plan, s, 0);
    NamedInode(plan, s, name);
    inode := s.names[name];
    t := Truncated(s, inode);
  }

  /** Making a new file. */
  lemma OpenNew(plan: Plan, s: FS, name: Name) returns (t: FS, inode: nat)
    requires AllStaged(plan, s)
    requires match plan.Target()
             case Missing(path) => name == Placed(0, path)
             case Outside(rest) =>
               plan.outside(rest).StoreName? && name == Stored(plan.outside(rest).id) && name !in s.names
             case _ => false
    ensures inode in t.inodes && t.inodes[inode].bytes == "" && t.published == None
    ensures name in t.names && inode == t.names[name]
    ensures WriteAct(plan, 0, s, t, Scribing(name, inode, ""))
  {
    hide Global;
    hide Endangers;
    hide AllJoined;
    hide OnlyStock;
    hide SizesChecked;
    hide StagedNodes;
    hide Lookup;
    hide PlacedNodes;
    StagedTarget(plan, s, 0);
    inode := FreshNumber(s.inodes.Keys);
    t := Created(s, name, inode);
  }

  /** The name leads to a file of the store. */
  lemma OpenStored(plan: Plan, s: FS) returns (t: FS, name: Name, inode: nat, id: Id)
    requires AllStaged(plan, s) && FilesFit(plan.Files()) && Endangers(plan)
    ensures Emptied(plan, t, inode, id) && WriteAct(plan, 0, s, t, Scribing(name, inode, ""))
  {
    hide AllStaged;
    hide WriteAct;
    hide FilesFit;
    StagedMeans(plan, s);
    match plan.Target()
    case Existing(path) =>
      var f := ExistingIsShared(plan, s);
      id, name := IdOf(f.stored), Placed(0, path);
      t, inode := OpenOld(plan, s, name);
    case Outside(rest) =>
      id := plan.outside(rest).id;
      name := Stored(id);
      StockHolds(plan.Files(), Extra(plan), id);
      if name in s.names {
        t, inode := OpenOld(plan, s, name);
      } else {
        t, inode := OpenNew(plan, s, name);
      }
  }

  lemma StagedMeans(plan: Plan, s: FS)
    requires AllStaged(plan, s)
    ensures AllJoined(s, plan.Files()) && s.published == None && OnlyStock(plan, s)
  {
  }

  /** The manifest file is opened. */
  lemma OpenManifest(plan: Plan) returns (run: seq<World>, name: Name, inode: nat, id: Id)
    requires Accepted(plan.m) && FirstSizesRight(plan.Files()) && Writable(plan) && !GoesElsewhere(plan)
    ensures Run(plan, run) && Last(run).stages == map[0 := Scribing(name, inode, "")]
    ensures Emptied(plan, Last(run).fs, inode, id)
  {
    hide Accepted;
    hide FirstSizesRight;
    hide AllJoined;
    hide Global;
    hide Local;
    hide WriteAct;
    hide FilesFit;
    run := StageAll(plan);
    AcceptedFits(plan.m);
    var t;
    if Endangers(plan) {
      t, name, inode, id := OpenStored(plan, Last(run).fs);
    } else {
      id, name := Id("", false), Placed(0, plan.Target().path);
      t, inode := OpenNew(plan, Last(run).fs, name);
    }
    run := Go(plan, run, Writing, t, Scribing(name, inode, ""));
  }

  /** Some object's name refers to other bytes than its own. */
  ghost predicate Broken(s: FS) {
    exists id :: Stored(id) in s.names && !NamesTruly(s, id)
  }

  predicate NamesTruly(s: FS, id: Id)
    requires Stored(id) in s.names
  {
    && s.names[Stored(id)] in s.inodes
    && s.inodes[s.names[Stored(id)]].bytes == id.bytes
    && s.inodes[s.names[Stored(id)]].mode == ModeOf(id.executable)
  }

  /** If the name leads to a file of the store, an object is written over or made wrong. */
  lemma BreakStore(plan: Plan) returns (run: seq<World>)
    requires Accepted(plan.m) && FirstSizesRight(plan.Files()) && plan.Text() != "" && Endangers(plan)
    ensures Run(plan, run) && Broken(Last(run).fs)
  {
    hide Accepted;
    hide FirstSizesRight;
    hide Act;
    hide Lookup;
    hide Below;
    var name, inode, id;
    run, name, inode, id := OpenManifest(plan);
    var t := Last(run).fs;
    if id.bytes == "" {
      CanScribe(plan, t, name, inode);
      run := Go(plan, run, Scribing(name, inode, ""), Scribed(t, inode, plan.Text()),
                Scribing(name, inode, plan.Text()));
    }
    assert Stored(id) in Last(run).fs.names && !NamesTruly(Last(run).fs, id);
  }

  lemma CanClose(plan: Plan, u: FS, v: FS, name: Name, inode: nat)
    requires inode in u.inodes && v == u.(inodes := u.inodes[inode := u.inodes[inode].(writer := None)])
    ensures Act(plan, 0, u, Scribing(name, inode, plan.Text()), v, Finishing)
  {
  }

  lemma CanPublish(plan: Plan, v: FS)
    requires v.published == None
    ensures Act(plan, 0, v, Finishing, v.(published := Some(0)), Returned)
  {
  }

  /** The manifest is written. */
  lemma WriteAlone(plan: Plan) returns (run: seq<World>)
    requires Accepted(plan.m) && FirstSizesRight(plan.Files()) && Writable(plan)
    ensures Run(plan, run) && Last(run).stages == map[0 := Finishing] && Last(run).fs.published == None
  {
    hide Global;
    hide Local;
    hide AllJoined;
    hide OnlyStock;
    hide Accepted;
    hide FirstSizesRight;
    hide Act;
    hide Lookup;
    hide Below;
    hide GoesElsewhere;
    if GoesElsewhere(plan) {
      run := StageAll(plan);
      CanGoElsewhere(plan, Last(run).fs);
      run := Go(plan, run, Writing, Last(run).fs, Finishing);
    } else {
      var name, inode, id;
      run, name, inode, id := OpenManifest(plan);
      var u := Scribed(Last(run).fs, inode, plan.Text());
      CanScribe(plan, Last(run).fs, name, inode);
      run := Go(plan, run, Scribing(name, inode, ""), u, Scribing(name, inode, plan.Text()));
      var v := u.(inodes := u.inodes[inode := u.inodes[inode].(writer := None)]);
      CanClose(plan, u, v, name, inode);
      run := Go(plan, run, Scribing(name, inode, plan.Text()), v, Finishing);
    }
  }

  lemma CanGoElsewhere(plan: Plan, s: FS)
    requires GoesElsewhere(plan) && Local(plan, s, 0, Writing)
    ensures Act(plan, 0, s, Writing, s, Finishing)
  {
    hide SizesChecked;
    hide StagedNodes;
    hide PlacedNodes;
    hide Lookup;
    StagedTarget(plan, s, 0);
  }

  /** If the name can be written, the launcher publishes. */
  lemma PublishAlone(plan: Plan) returns (run: seq<World>)
    requires Accepted(plan.m) && FirstSizesRight(plan.Files()) && Writable(plan)
    ensures Run(plan, run) && Last(run).fs.published == Some(0)
  {
    hide Accepted;
    hide Act;
    run := WriteAlone(plan);
    CanPublish(plan, Last(run).fs);
    run := Go(plan, run, Finishing, Last(run).fs.(published := Some(0)), Returned);
  }
}
