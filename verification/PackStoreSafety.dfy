/** Every step of every launcher keeps the shared store content-addressed and the staging
    trees as their manifest describes them. */
module PackStoreSafety {
  import opened Basics
  import opened PackPaths
  import opened PackManifest
  import opened PackTree
  import opened PackStaging
  import opened PackStore

  // ---------------------------------------------------------------- the invariant

  function ObjectIds(files: seq<File>): set<Id> {
    set f | f in files && f.link == "" :: IdOf(f.stored)
  }

  /** The manifest's name leads a launcher to a file of the store that it can write or make. */
  predicate Endangers(plan: Plan) {
    match plan.Target()
    case Existing(_) => plan.root
    case Outside(rest) =>
      (match plan.outside(rest)
       case StoreName(id) => plan.root || id !in ObjectIds(plan.Files())
       case Shared(_) => plan.root
       case _ => false)
    case _ => false
  }

  /** The manifest is written to a file that is none of ours. */
  predicate GoesElsewhere(plan: Plan) {
    plan.Target().Outside? && plan.outside(plan.Target().rest).Elsewhere?
  }

  ghost predicate NameFits(plan: Plan, s: FS, name: Name) {
    && name in s.names && s.names[name] in s.inodes
    && var node := s.inodes[s.names[name]];
       match name
       case Stored(id) => Good(node, id)
       case Placed(owner, path) =>
         node.writer == None || (node.writer == Some(owner) && path !in PathSet(plan.Files()))
       case Packed(_) => node.writer == None
       case Temporary(owner, _) => node.writer == None || node.writer == Some(owner)
  }

  /** Of the first entries, those that were the first to name their object have its size. */
  predicate SizesChecked(files: seq<File>, count: nat) {
    forall k: nat | k < |files| && k < count :: SizeChecked(files, k)
  }

  /** The staging tree of `p` holds exactly the first `count` entries. */
  ghost predicate StagedThrough(plan: Plan, s: FS, p: Process, count: nat) {
    && count <= |plan.Files()|
    && PlacedNodes(s, p) == StagedNodes(plan.Files()[..count])
    && SizesChecked(plan.Files(), count)
  }

  ghost predicate CleanedUp(s: FS, p: Process) {
    Temporaries(s, p) == {}
  }

  ghost predicate Closed(s: FS, o: Process) {
    forall path | Placed(o, path) in s.names ::
      s.names[Placed(o, path)] in s.inodes && s.inodes[s.names[Placed(o, path)]].writer == None
  }

  /** Every entry and the manifest's text are staged, and no file is open any more. */
  ghost predicate Complete(plan: Plan, s: FS, o: Process) {
    && (plan.Target().Missing? || GoesElsewhere(plan)) && CleanedUp(s, o) && Closed(s, o)
    && SizesChecked(plan.Files(), |plan.Files()|)
    && PlacedNodes(s, o) == WholeNodes(plan)
  }

  /** The entries and, if it ends up among them, the manifest file. */
  function WholeNodes(plan: Plan): map<string, Node> {
    if plan.Target().Missing? then StagedNodes(plan.Files())[plan.Target().path := Regular(plan.Text(), 384)]
    else StagedNodes(plan.Files())
  }

  ghost predicate Global(plan: Plan, s: FS) {
    && (forall name <- s.names :: NameFits(plan, s, name))
    && (s.published.Some? ==> Complete(plan, s, s.published.value))
  }

  /** Imported objects are in the store, with the size their first entry records. */
  ghost predicate ImportsFit(files: seq<File>, s: FS, index: nat, imported: set<ObjectRef>) {
    && index <= |files| && Imported(files[..index]) <= imported
    && (forall r <- imported :: r.Object? && Stored(IdOf(r)) in s.names)
    && SizesKnown(files, imported)
  }

  predicate SizesKnown(files: seq<File>, imported: set<ObjectRef>) {
    forall k: nat | k < |files| && files[k].link == "" && files[k].stored in imported :: SizeChecked(files, k)
  }

  ghost predicate GoodAt(s: FS, name: Name, id: Id) {
    name in s.names && s.names[name] in s.inodes && Good(s.inodes[s.names[name]], id)
  }

  /** A publication in progress: its source is good, and its target and sequel belong together. */
  ghost predicate Ready(plan: Plan, s: FS, p: Process, job: Job) {
    && GoodAt(s, job.source, job.id)
    && !job.source.Placed?
    && (job.source.Temporary? ==> job.source.owner == p)
    && (job.source.Stored? ==> job.source.id == job.id)
    && SequelFits(plan, s, p, job)
  }

  ghost predicate SequelFits(plan: Plan, s: FS, p: Process, job: Job) {
    var files := plan.Files();
    match job.next
    case AtRest => job.target == Stored(job.id) && StagedThrough(plan, s, p, 0)
    case Import(index, imported) =>
      && index < |files| && job.target == Stored(job.id) && job.id == IdOf(files[index].stored)
      && files[index].stored.Object? && files[index].stored in imported
      && ImportsFit(files, s, index, imported - {files[index].stored}) && SizesKnown(files, imported)
      && StagedThrough(plan, s, p, index)
    case Place(index, imported) =>
      && index < |files| && job.target == Placed(p, files[index].path) && job.id == IdOf(files[index].stored)
      && files[index].stored in imported && files[index].link == ""
      && ImportsFit(files, s, index, imported) && StagedThrough(plan, s, p, index)
  }

  /** What a finished publication has achieved. */
  ghost predicate Arrived(plan: Plan, s: FS, p: Process, next: Next) {
    match next
    case AtRest => StagedThrough(plan, s, p, 0)
    case Import(index, imported) => StagedThrough(plan, s, p, index) && ImportsFit(plan.Files(), s, index, imported)
    case Place(index, imported) =>
      StagedThrough(plan, s, p, index + 1) && ImportsFit(plan.Files(), s, index + 1, imported)
  }

  /** A temporary file of `p`, still open or closed. */
  ghost predicate Holds(s: FS, p: Process, number: nat, inode: nat, writer: Option<Process>) {
    && Temporary(p, number) in s.names && s.names[Temporary(p, number)] == inode && inode in s.inodes
    && s.inodes[inode].writer == writer
  }

  ghost predicate Copied(plan: Plan, s: FS, p: Process, job: Job, number: nat, inode: nat) {
    && Ready(plan, s, p, job) && Holds(s, p, number, inode, None)
    && Good(s.inodes[inode], job.id)
  }

  /** The manifest file is new in the staging tree and holds what was written so far. */
  ghost predicate Scribes(plan: Plan, s: FS, p: Process, name: Name, inode: nat, written: string) {
    && name.Placed? && name.owner == p && ScribesAt(plan, s, p, name.path, inode, written)
  }

  ghost predicate ScribesAt(plan: Plan, s: FS, p: Process, path: string, inode: nat, written: string) {
    && written <= plan.Text() && CleanedUp(s, p) && SizesChecked(plan.Files(), |plan.Files()|)
    && plan.Target() == Missing(path)
    && Placed(p, path) in s.names && Placed(p, path) !in s.links && s.names[Placed(p, path)] == inode
    && inode in s.inodes && s.inodes[inode] == Inode(written, 384, Some(p))
    && PlacedNodes(s, p) == StagedNodes(plan.Files())[path := Regular(written, 384)]
  }

  ghost predicate ObjectsStored(files: seq<File>, s: FS) {
    forall id <- ObjectIds(files) :: Stored(id) in s.names
  }

  /** Who has published is done; and each stage stands where it should. */
  ghost predicate Local(plan: Plan, s: FS, p: Process, c: Stage) {
    (s.published == Some(p) ==> c.Returned? || c.Stopped?) && Stands(plan, s, p, c)
  }

  ghost predicate Stands(plan: Plan, s: FS, p: Process, c: Stage) {
    match c
    case Resting => StagedThrough(plan, s, p, 0) && CleanedUp(s, p)
    case Filling(number, inode, _) => StagedThrough(plan, s, p, 0) && Holds(s, p, number, inode, Some(p))
    case Choosing(index, imported) =>
      StagedThrough(plan, s, p, index) && ImportsFit(plan.Files(), s, index, imported) && CleanedUp(s, p)
    case Linking(job) => Ready(plan, s, p, job)
    case Looking(job) => Ready(plan, s, p, job)
    case Checking(job) => Ready(plan, s, p, job)
    case Copying(job, number, inode, _) => Ready(plan, s, p, job) && Holds(s, p, number, inode, Some(p))
    case CopyChecking(job, number, inode) => Ready(plan, s, p, job) && Holds(s, p, number, inode, None)
    case CopyLinking(job, number, inode) => Copied(plan, s, p, job, number, inode)
    case CopyLooking(job, number, inode) => Copied(plan, s, p, job, number, inode)
    case CopyRenaming(job, number, inode) => Copied(plan, s, p, job, number, inode)
    case Leaving(next) => Arrived(plan, s, p, next)
    case Writing =>
      StagedThrough(plan, s, p, |plan.Files()|) && CleanedUp(s, p) && ObjectsStored(plan.Files(), s)
    case Scribing(name, inode, written) => Scribes(plan, s, p, name, inode, written)
    case Finishing => Complete(plan, s, p)
    case Confirming | Stopped => true
    case Returned => s.published.Some?
  }

  ghost predicate LocalOf(plan: Plan, w: World, p: Process) {
    p in w.stages && Local(plan, w.fs, p, w.stages[p])
  }

  ghost predicate Inv(plan: Plan, w: World) {
    Global(plan, w.fs) && forall p <- w.stages :: LocalOf(plan, w, p)
  }

  // ---------------------------------------------------------------- what a step of one process leaves alone

  predicate Owned(name: Name, p: Process) {
    (name.Temporary? || name.Placed?) && name.owner == p
  }

  predicate SameName(s: FS, t: FS, name: Name) {
    && (name in s.names <==> name in t.names) && (name in s.links <==> name in t.links)
    && (name in s.names ==> t.names[name] == s.names[name])
    && (name in s.links ==> t.links[name] == s.links[name])
  }

  ghost predicate SamePlaced(s: FS, t: FS, o: Process) {
    forall path :: SameName(s, t, Placed(o, path))
  }

  ghost predicate Evolves(p: Process, s: FS, t: FS) {
    && (forall i <- s.inodes :: i in t.inodes && (s.inodes[i].writer != Some(p) ==> t.inodes[i] == s.inodes[i]))
    && (forall name | !Owned(name, p) && !name.Stored? :: SameName(s, t, name))
    && (forall name <- s.names | name.Stored? :: name in t.names)
    && (s.published.Some? ==> t.published == s.published) && (t.published == s.published || t.published == Some(p))
    && (s.published == Some(p) ==> SamePlaced(s, t, p) && Temporaries(t, p) <= Temporaries(s, p))
  }

  lemma NodesAre(s: FS, o: Process, nodes: map<string, Node>)
    requires forall path :: path in nodes <==> Taken(s, Placed(o, path))
    requires forall path <- nodes :: NodeAt(s, Placed(o, path)) == nodes[path]
    ensures PlacedNodes(s, o) == nodes
  {
    forall path ensures path in PlacedPaths(s, o) <==> Taken(s, Placed(o, path)) {
      PlacedIff(s, o, path);
    }
  }

  lemma PlacedIff(s: FS, o: Process, path: string)
    ensures path in PlacedPaths(s, o) <==> Taken(s, Placed(o, path))
    ensures path in PlacedNodes(s, o) <==> Taken(s, Placed(o, path))
  {
    if Taken(s, Placed(o, path)) {
      assert Placed(o, path) in s.names.Keys + s.links.Keys;
    }
  }

  lemma SameNodes(s: FS, t: FS, o: Process)
    requires SamePlaced(s, t, o)
    requires forall path | Placed(o, path) in s.names ::
               var i := s.names[Placed(o, path)]; i in s.inodes && i in t.inodes && t.inodes[i] == s.inodes[i]
    ensures PlacedNodes(t, o) == PlacedNodes(s, o)
    ensures Closed(s, o) ==> Closed(t, o)
  {
    forall path ensures path in PlacedNodes(s, o) <==> Taken(t, Placed(o, path)) {
      PlacedIff(s, o, path);
      assert SameName(s, t, Placed(o, path));
    }
    forall path <- PlacedNodes(s, o) ensures NodeAt(t, Placed(o, path)) == PlacedNodes(s, o)[path] {
      assert SameName(s, t, Placed(o, path));
    }
    NodesAre(t, o, PlacedNodes(s, o));
    forall path | Placed(o, path) in t.names ensures SameName(s, t, Placed(o, path)) {
    }
  }

  /** A step of `q` leaves the names of every other process alone. */
  lemma Untouched(plan: Plan, s: FS, t: FS, p: Process, q: Process)
    requires Global(plan, s) && Evolves(q, s, t) && p != q
    ensures PlacedNodes(t, p) == PlacedNodes(s, p) && Temporaries(t, p) == Temporaries(s, p)
    ensures Closed(s, p) ==> Closed(t, p)
  {
    forall path ensures SameName(s, t, Placed(p, path)) {
    }
    forall path | Placed(p, path) in s.names
      ensures var i := s.names[Placed(p, path)]; i in s.inodes && i in t.inodes && t.inodes[i] == s.inodes[i]
    {
      assert NameFits(plan, s, Placed(p, path));
    }
    SameNodes(s, t, p);
    SameTemporaries(s, t, p, q);
  }

  lemma SameTemporaries(s: FS, t: FS, p: Process, q: Process)
    requires Evolves(q, s, t) && p != q
    ensures Temporaries(t, p) == Temporaries(s, p)
  {
    forall name: Name | name.Temporary? && name.owner == p ensures name in s.names <==> name in t.names {
      assert SameName(s, t, name);
    }
  }

  lemma PublishedStays(plan: Plan, p: Process, s: FS, t: FS)
    requires Global(plan, s) && Evolves(p, s, t) && s.published.Some?
    ensures Complete(plan, t, s.published.value)
  {
    var o := s.published.value;
    if o != p {
      Untouched(plan, s, t, o, p);
    } else {
      SameNodes(s, t, o);
    }
  }

  lemma ImportsStay(files: seq<File>, s: FS, t: FS, q: Process, index: nat, imported: set<ObjectRef>)
    requires Evolves(q, s, t) && ImportsFit(files, s, index, imported)
    ensures ImportsFit(files, t, index, imported)
  {
  }

  lemma SourceStays(plan: Plan, s: FS, t: FS, p: Process, q: Process, job: Job)
    requires Evolves(q, s, t) && Ready(plan, s, p, job) && p != q && Global(plan, t)
    ensures GoodAt(t, job.source, job.id)
  {
    if job.source.Stored? {
      assert NameFits(plan, t, job.source);
    } else {
      assert SameName(s, t, job.source);
    }
  }

  lemma ReadyStays(plan: Plan, s: FS, t: FS, p: Process, q: Process, job: Job)
    requires Evolves(q, s, t) && Ready(plan, s, p, job) && p != q && Global(plan, s) && Global(plan, t)
    ensures Ready(plan, t, p, job)
  {
    SourceStays(plan, s, t, p, q, job);
    Untouched(plan, s, t, p, q);
    match job.next
    case AtRest =>
    case Import(index, imported) =>
      ImportsStay(plan.Files(), s, t, q, index, imported - {plan.Files()[index].stored});
    case Place(index, imported) => ImportsStay(plan.Files(), s, t, q, index, imported);
  }

  lemma HoldsStays(s: FS, t: FS, p: Process, q: Process, number: nat, inode: nat, writer: Option<Process>)
    requires Evolves(q, s, t) && Holds(s, p, number, inode, writer) && p != q && writer != Some(q)
    ensures Holds(t, p, number, inode, writer) && t.inodes[inode] == s.inodes[inode]
  {
    assert SameName(s, t, Temporary(p, number));
  }

  lemma CopiedStays(plan: Plan, s: FS, t: FS, p: Process, q: Process, job: Job, number: nat, inode: nat)
    requires Evolves(q, s, t) && Global(plan, s) && Global(plan, t) && p != q
    requires Copied(plan, s, p, job, number, inode)
    ensures Copied(plan, t, p, job, number, inode)
  {
    ReadyStays(plan, s, t, p, q, job);
    HoldsStays(s, t, p, q, number, inode, None);
  }

  lemma ScribesStays(plan: Plan, s: FS, t: FS, p: Process, q: Process, name: Name, inode: nat, written: string)
    requires Evolves(q, s, t) && Global(plan, s) && p != q && Scribes(plan, s, p, name, inode, written)
    ensures Scribes(plan, t, p, name, inode, written)
  {
    Untouched(plan, s, t, p, q);
    assert SameName(s, t, Placed(p, name.path));
  }

  /** Steps of one process keep what every other process relies on. */
  lemma OthersKeep(plan: Plan, s: FS, t: FS, p: Process, q: Process, c: Stage)
    requires Evolves(q, s, t) && Global(plan, s) && Global(plan, t) && p != q && Local(plan, s, p, c)
    ensures Local(plan, t, p, c)
  {
    hide Global;
    hide Evolves;
    hide PlacedNodes;
    hide Temporaries;
    hide Ready;
    hide Holds;
    hide Scribes;
    hide SequelFits;
    hide ObjectsStored;
    Untouched(plan, s, t, p, q);
    PublicationStays(s, t, p, q);
    match c
    case Resting | Confirming | Stopped =>
    case Writing => ObjectsStay(plan.Files(), s, t, q);
    case Filling(number, inode, _) => HoldsStays(s, t, p, q, number, inode, Some(p));
    case Choosing(index, imported) => ImportsStay(plan.Files(), s, t, q, index, imported);
    case Linking(job) => ReadyStays(plan, s, t, p, q, job);
    case Looking(job) => ReadyStays(plan, s, t, p, q, job);
    case Checking(job) => ReadyStays(plan, s, t, p, q, job);
    case Copying(job, number, inode, _) =>
      ReadyStays(plan, s, t, p, q, job);
      HoldsStays(s, t, p, q, number, inode, Some(p));
    case CopyChecking(job, number, inode) =>
      ReadyStays(plan, s, t, p, q, job);
      HoldsStays(s, t, p, q, number, inode, None);
    case CopyLinking(job, number, inode) => CopiedStays(plan, s, t, p, q, job, number, inode);
    case CopyLooking(job, number, inode) => CopiedStays(plan, s, t, p, q, job, number, inode);
    case CopyRenaming(job, number, inode) => CopiedStays(plan, s, t, p, q, job, number, inode);
    case Leaving(next) =>
      if next.Import? {
        ImportsStay(plan.Files(), s, t, q, next.index, next.imported);
      } else if next.Place? {
        ImportsStay(plan.Files(), s, t, q, next.index + 1, next.imported);
      }
    case Scribing(name, inode, written) => ScribesStays(plan, s, t, p, q, name, inode, written);
    case Finishing =>
    case Returned =>
  }

  lemma PublicationStays(s: FS, t: FS, p: Process, q: Process)
    requires Evolves(q, s, t) && p != q
    ensures s.published.Some? ==> t.published.Some?
    ensures t.published == Some(p) ==> s.published == Some(p)
  {
  }

  lemma ObjectsStay(files: seq<File>, s: FS, t: FS, q: Process)
    requires Evolves(q, s, t)
    ensures ObjectsStored(files, s) ==> ObjectsStored(files, t)
  {
  }

  // ---------------------------------------------------------------- the elementary changes

  lemma SameFit(plan: Plan, s: FS, t: FS, name: Name)
    requires name in s.names && name in t.names && s.inodes == t.inodes && t.names[name] == s.names[name]
    requires NameFits(plan, s, name)
    ensures NameFits(plan, t, name)
  {
  }

  /** Creating a temporary file. */
  lemma OpeningKeeps(plan: Plan, p: Process, s: FS, t: FS, number: nat, inode: nat)
    requires Global(plan, s) && Opens(p, s, t, number, inode) && s.published != Some(p)
    ensures Global(plan, t) && Evolves(p, s, t) && Holds(t, p, number, inode, Some(p))
    ensures PlacedNodes(t, p) == PlacedNodes(s, p)
    ensures forall name, id | GoodAt(s, name, id) :: GoodAt(t, name, id)
    ensures forall name <- s.names :: name in t.names
  {
    hide Complete;
    hide PlacedNodes;
    hide Closed;
    forall name <- t.names ensures NameFits(plan, t, name) {
      if name != Temporary(p, number) {
        assert NameFits(plan, s, name);
      }
    }
    forall path | Placed(p, path) in s.names ensures s.names[Placed(p, path)] in s.inodes {
      assert NameFits(plan, s, Placed(p, path));
    }
    SameNodes(s, t, p);
    if s.published.Some? { PublishedStays(plan, p, s, t); }
  }

  /** Writing to, or closing, a temporary file this process has open. */
  lemma WritingKeeps(plan: Plan, p: Process, s: FS, t: FS, number: nat, inode: nat, node: Inode)
    requires Global(plan, s) && Holds(s, p, number, inode, Some(p)) && s.published != Some(p)
    requires exists count: nat :: StagedThrough(plan, s, p, count)
    requires node.writer == None || node.writer == Some(p)
    requires t == s.(inodes := s.inodes[inode := node])
    ensures Global(plan, t) && Evolves(p, s, t)
    ensures PlacedNodes(t, p) == PlacedNodes(s, p)
    ensures forall name, id | GoodAt(s, name, id) :: GoodAt(t, name, id)
  {
    hide Complete;
    hide PlacedNodes;
    hide StagedThrough;
    forall name <- t.names ensures NameFits(plan, t, name) {
      assert NameFits(plan, s, name);
    }
    forall path | Placed(p, path) in s.names
      ensures var i := s.names[Placed(p, path)]; i in s.inodes && s.inodes[i].writer == None
    {
      StagedPath(plan, s, p, path);
      assert NameFits(plan, s, Placed(p, path));
    }
    SameNodes(s, t, p);
    if s.published.Some? { PublishedStays(plan, p, s, t); }
  }

  lemma StagedPath(plan: Plan, s: FS, p: Process, path: string)
    requires (exists count: nat :: StagedThrough(plan, s, p, count)) && Taken(s, Placed(p, path))
    ensures path in PathSet(plan.Files())
  {
    var count: nat :| StagedThrough(plan, s, p, count);
    PlacedIff(s, p, path);
    StagedPaths(plan.Files()[..count]);
  }

  lemma TargetIsNew(plan: Plan, s: FS, p: Process, index: nat)
    requires FilesFit(plan.Files()) && index < |plan.Files()| && StagedThrough(plan, s, p, index)
    ensures !Taken(s, Placed(p, plan.Files()[index].path))
  {
    PathIsNew(plan.Files(), index);
    StagedPaths(plan.Files()[..index]);
    PlacedIff(s, p, plan.Files()[index].path);
  }

  /** One more entry is in the staging tree. */
  lemma OneMore(plan: Plan, s: FS, t: FS, p: Process, index: nat)
    requires FilesFit(plan.Files()) && index < |plan.Files()| && StagedThrough(plan, s, p, index)
    requires forall path | path != plan.Files()[index].path :: SameName(s, t, Placed(p, path))
    requires forall path | Placed(p, path) in s.names ::
               var i := s.names[Placed(p, path)]; i in s.inodes && i in t.inodes && t.inodes[i] == s.inodes[i]
    requires var name := Placed(p, plan.Files()[index].path);
             Taken(t, name) && NodeAt(t, name) == NodeFor(plan.Files()[index])
    requires SizeChecked(plan.Files(), index)
    ensures StagedThrough(plan, t, p, index + 1)
  {
    hide FilesFit;
    hide SizeChecked;
    hide NodeFor;
    var f := plan.Files()[index];
    var nodes := PlacedNodes(s, p)[f.path := NodeFor(f)];
    TargetIsNew(plan, s, p, index);
    forall path ensures path in nodes <==> Taken(t, Placed(p, path)) {
      PlacedIff(s, p, path);
      assert path != f.path ==> SameName(s, t, Placed(p, path));
    }
    forall path <- nodes ensures NodeAt(t, Placed(p, path)) == nodes[path] {
      if path != f.path {
        assert path in PlacedNodes(s, p) && SameName(s, t, Placed(p, path));
        assert nodes[path] == NodeAt(s, Placed(p, path));
      }
    }
    NodesAre(t, p, nodes);
    StageNext(plan.Files(), index);
  }

  /** Giving a finished file its published name. */
  lemma NamingKeeps(plan: Plan, p: Process, s: FS, t: FS, job: Job, inode: nat)
    requires Global(plan, s) && SequelFits(plan, s, p, job) && FilesFit(plan.Files()) && s.published != Some(p)
    requires inode in s.inodes && Good(s.inodes[inode], job.id)
    requires t == s.(names := s.names[job.target := inode], links := s.links - {job.target})
    ensures Global(plan, t) && Evolves(p, s, t) && Arrived(plan, t, p, job.next)
  {
    hide FilesFit;
    hide SizesKnown;
    hide StagedThrough;
    hide ManifestNameFree;
    forall name <- t.names ensures NameFits(plan, t, name) {
      if name != job.target {
        assert NameFits(plan, s, name);
      }
    }
    NamingEvolves(plan, p, s, t, job, inode);
    if s.published.Some? { PublishedStays(plan, p, s, t); }
    forall path | Placed(p, path) in s.names ensures s.names[Placed(p, path)] in s.inodes {
      assert NameFits(plan, s, Placed(p, path));
    }
    NamedArrives(plan, p, s, t, job, inode);
  }

  lemma NamingEvolves(plan: Plan, p: Process, s: FS, t: FS, job: Job, inode: nat)
    requires s.published != Some(p) && SequelFits(plan, s, p, job)
    requires t == s.(names := s.names[job.target := inode], links := s.links - {job.target})
    ensures Evolves(p, s, t)
  {
  }

  lemma NamedArrives(plan: Plan, p: Process, s: FS, t: FS, job: Job, inode: nat)
    requires SequelFits(plan, s, p, job) && FilesFit(plan.Files())
    requires forall path | Placed(p, path) in s.names :: s.names[Placed(p, path)] in s.inodes
    requires inode in s.inodes && Good(s.inodes[inode], job.id)
    requires t == s.(names := s.names[job.target := inode], links := s.links - {job.target})
    ensures Arrived(plan, t, p, job.next)
  {
    hide SizesKnown;
    hide SizesChecked;
    hide FilesFit;
    if job.next.Place? {
      ImportedIsChecked(plan.Files(), job.next.index, job.next.imported);
      OneMore(plan, s, t, p, job.next.index);
      ImportsCover(plan.Files(), s, t, job.next.index, job.next.imported);
    } else {
      StoredArrives(plan, p, s, t, job, inode);
    }
  }

  lemma ImportedIsChecked(files: seq<File>, index: nat, imported: set<ObjectRef>)
    requires SizesKnown(files, imported) && index < |files| && files[index].stored in imported
    requires files[index].link == ""
    ensures SizeChecked(files, index)
  {
  }

  lemma StoredArrives(plan: Plan, p: Process, s: FS, t: FS, job: Job, inode: nat)
    requires SequelFits(plan, s, p, job) && !job.next.Place?
    requires forall path | Placed(p, path) in s.names :: s.names[Placed(p, path)] in s.inodes
    requires t == s.(names := s.names[job.target := inode], links := s.links - {job.target})
    ensures Arrived(plan, t, p, job.next)
  {
    hide SizesKnown;
    hide SizesChecked;
    hide PlacedNodes;
    SameNodes(s, t, p);
    if job.next.Import? {
      ImportedNow(plan.Files(), s, t, job.next.index, job.next.imported);
    }
  }

  lemma ImportsCover(files: seq<File>, s: FS, t: FS, index: nat, imported: set<ObjectRef>)
    requires index < |files| && ImportsFit(files, s, index, imported) && s.names.Keys <= t.names.Keys
    requires files[index].link == "" ==> files[index].stored in imported
    ensures ImportsFit(files, t, index + 1, imported)
  {
    assert files[..index + 1] == files[..index] + [files[index]];
  }

  lemma ImportedNow(files: seq<File>, s: FS, t: FS, index: nat, imported: set<ObjectRef>)
    requires index < |files| && files[index].stored.Object?
    requires ImportsFit(files, s, index, imported - {files[index].stored}) && SizesKnown(files, imported)
    requires s.names.Keys <= t.names.Keys && Stored(IdOf(files[index].stored)) in t.names
    ensures ImportsFit(files, t, index, imported)
  {
    forall r <- imported ensures r.Object? && Stored(IdOf(r)) in t.names {
      if r != files[index].stored {
        assert r in imported - {files[index].stored};
      }
    }
  }

  // ---------------------------------------------------------------- every step keeps the invariant

  /** What one step must establish. */
  ghost predicate Safe(plan: Plan, p: Process, s: FS, t: FS, d: Stage) {
    Global(plan, t) && Evolves(p, s, t) && Local(plan, t, p, d)
  }

  lemma StartKeeps(plan: Plan, p: Process, s: FS, t: FS, d: Stage)
    requires Global(plan, s) && Local(plan, s, p, Resting) && StartAct(p, s, t, d)
    ensures Safe(plan, p, s, t, d)
  {
    if d.Filling? {
        OpeningKeeps(plan, p, s, t, d.number, d.inode);
    }
  }

  lemma FillKeeps(plan: Plan, p: Process, s: FS, c: Stage, t: FS, d: Stage)
    requires Global(plan, s) && Local(plan, s, p, c) && c.Filling? && FillAct(p, s, c, t, d)
    ensures Safe(plan, p, s, t, d)
  {
    WritingKeeps(plan, p, s, t, c.number, c.inode, t.inodes[c.inode]);
  }

  lemma ChooseKeeps(plan: Plan, p: Process, s: FS, c: Stage, t: FS, d: Stage)
    requires FilesFit(plan.Files()) && Global(plan, s) && Local(plan, s, p, c) && c.Choosing?
    requires ChooseAct(plan.Files(), p, s, c, t, d)
    ensures Safe(plan, p, s, t, d)
  {
    hide FilesFit;
    if c.index < |plan.Files()| {
      if plan.Files()[c.index].link != "" {
        LinkKeeps(plan, p, s, c, t, d);
      } else {
        JobKeeps(plan, p, s, c, d);
      }
    }
  }

  /** A symbolic link takes its place. */
  lemma LinkKeeps(plan: Plan, p: Process, s: FS, c: Stage, t: FS, d: Stage)
    requires FilesFit(plan.Files()) && Global(plan, s) && Local(plan, s, p, c) && c.Choosing?
    requires c.index < |plan.Files()| && plan.Files()[c.index].link != ""
    requires ChooseAct(plan.Files(), p, s, c, t, d)
    ensures Safe(plan, p, s, t, d)
  {
    hide FilesFit;
    hide SizesKnown;
    hide StagedThrough;
    hide Complete;
    forall name <- t.names ensures NameFits(plan, t, name) {
      assert NameFits(plan, s, name);
    }
    forall path | Placed(p, path) in s.names ensures s.names[Placed(p, path)] in s.inodes {
      assert NameFits(plan, s, Placed(p, path));
    }
    OneMore(plan, s, t, p, c.index);
    ImportsCover(plan.Files(), s, t, c.index, c.imported);
    if s.published.Some? { PublishedStays(plan, p, s, t); }
  }

  lemma JobKeeps(plan: Plan, p: Process, s: FS, c: Stage, d: Stage)
    requires Global(plan, s) && Local(plan, s, p, c) && c.Choosing?
    requires c.index < |plan.Files()| && plan.Files()[c.index].link == ""
    requires ChooseAct(plan.Files(), p, s, c, s, d)
    ensures Local(plan, s, p, d)
  {
    var f := plan.Files()[c.index];
    assert NameFits(plan, s, d.job.source);
    if d.job.next.Import? {
      assert c.imported + {f.stored} - {f.stored} == c.imported;
      SizesKnownMore(plan.Files(), c.index, c.imported);
    }
  }

  /** The entry whose object is imported is the first to name it. */
  lemma SizesKnownMore(files: seq<File>, index: nat, imported: set<ObjectRef>)
    requires index < |files| && files[index].link == "" && SizeRight(files[index])
    requires SizesKnown(files, imported) && Imported(files[..index]) <= imported && files[index].stored !in imported
    ensures SizesKnown(files, imported + {files[index].stored})
  {
    ImportedIff(files, index);
    forall k: nat | k < |files| && files[k].link == "" && files[k].stored == files[index].stored
      ensures SizeChecked(files, k)
    {
    }
  }

  lemma Unmoved(p: Process, s: FS)
    ensures Evolves(p, s, s)
  {
  }

  lemma PublishKeeps(plan: Plan, p: Process, s: FS, c: Stage, t: FS, d: Stage)
    requires FilesFit(plan.Files())
    requires Global(plan, s) && Local(plan, s, p, c) && (c.Linking? || c.Looking? || c.Checking?)
    requires PublishAct(p, s, c, t, d)
    ensures Safe(plan, p, s, t, d)
  {
    hide FilesFit;
    hide SequelFits;
    hide Arrived;
    hide Complete;
    hide Evolves;
    hide NameFits;
    Unmoved(p, s);
    match c
    case Linking(job) =>
      if d.Leaving? {
        assert s.links - {job.target} == s.links;
        NamingKeeps(plan, p, s, t, job, s.names[job.source]);
      }
    case Looking(job) =>
      if d.Copying? {
        OpeningKeeps(plan, p, s, t, d.number, d.inode);
        SequelStays(plan, p, s, t, job);
      }
    case Checking(job) =>
      if d != Stopped { FoundKeeps(plan, p, s, job); }
  }

  /** What was there already is as good. */
  lemma FoundKeeps(plan: Plan, p: Process, s: FS, job: Job)
    requires FilesFit(plan.Files()) && Ready(plan, s, p, job) && Verifies(s, job.target, job.id, job.size)
    ensures Arrived(plan, s, p, job.next)
  {
    match job.next
    case AtRest =>
    case Import(index, imported) => ImportedNow(plan.Files(), s, s, index, imported);
    case Place(index, _) => TargetIsNew(plan, s, p, index);
  }

  lemma CopyingKeeps(plan: Plan, p: Process, s: FS, c: Stage, t: FS, d: Stage)
    requires Global(plan, s) && Local(plan, s, p, c) && c.Copying? && CopyAct(p, s, c, t, d)
    ensures Safe(plan, p, s, t, d)
  {
    var job := c.job;
    assert StagedThrough(plan, s, p, if job.next.AtRest? then 0 else job.next.index);
    WritingKeeps(plan, p, s, t, c.number, c.inode, t.inodes[c.inode]);
    assert GoodAt(t, job.source, job.id);
  }

  lemma CopyKeeps(plan: Plan, p: Process, s: FS, c: Stage, t: FS, d: Stage)
    requires FilesFit(plan.Files()) && Global(plan, s) && Local(plan, s, p, c)
    requires c.Copying? || c.CopyChecking? || c.CopyLinking? || c.CopyLooking? || c.CopyRenaming?
    requires CopyAct(p, s, c, t, d)
    ensures Safe(plan, p, s, t, d)
  {
    hide FilesFit;
    hide SequelFits;
    hide Arrived;
    hide Complete;
    hide Evolves;
    hide NameFits;
    Unmoved(p, s);
    match c
    case Copying(_, _, _, _) => CopyingKeeps(plan, p, s, c, t, d);
    case CopyChecking(_, _, _) =>
    case CopyLinking(job, _, inode) =>
      if d.Leaving? {
        assert s.links - {job.target} == s.links;
        NamingKeeps(plan, p, s, t, job, inode);
      }
    case CopyLooking(_, _, _) =>
    case CopyRenaming(job, number, inode) => RenameKeeps(plan, p, s, t, job, number, inode);
  }

  /** Removing temporary names of one process. */
  lemma RemovalKeeps(plan: Plan, p: Process, s: FS, t: FS, gone: set<Name>)
    requires Global(plan, s) && gone <= Temporaries(s, p) && t == s.(names := s.names - gone)
    ensures Global(plan, t) && Evolves(p, s, t) && PlacedNodes(t, p) == PlacedNodes(s, p)
    ensures forall name <- s.names | !name.Temporary? :: name in t.names
  {
    hide Complete;
    hide PlacedNodes;
    hide Closed;
    forall name <- t.names ensures NameFits(plan, t, name) {
      assert NameFits(plan, s, name);
      SameFit(plan, s, t, name);
    }
    forall path | Placed(p, path) in s.names ensures s.names[Placed(p, path)] in s.inodes {
      assert NameFits(plan, s, Placed(p, path));
    }
    SameNodes(s, t, p);
    if s.published.Some? { PublishedStays(plan, p, s, t); }
  }

  /** A rename replaces whatever is at the target, but by the same content. */
  lemma RenameKeeps(plan: Plan, p: Process, s: FS, t: FS, job: Job, number: nat, inode: nat)
    requires FilesFit(plan.Files()) && Global(plan, s) && Copied(plan, s, p, job, number, inode)
    requires s.published != Some(p)
    requires t == s.(names := (s.names - {Temporary(p, number)})[job.target := inode], links := s.links - {job.target})
    ensures Safe(plan, p, s, t, Leaving(job.next))
  {
    hide FilesFit;
    hide StagedThrough;
    hide SizesKnown;
    hide SequelFits;
    hide Arrived;
    hide Complete;
    hide NameFits;
    hide Evolves;
    var mid := s.(names := s.names - {Temporary(p, number)});
    RemovalKeeps(plan, p, s, mid, {Temporary(p, number)});
    SequelStays(plan, p, s, mid, job);
    NamingKeeps(plan, p, mid, t, job, inode);
    TwoSteps(p, s, mid, t);
  }

  lemma SequelStays(plan: Plan, p: Process, s: FS, t: FS, job: Job)
    requires SequelFits(plan, s, p, job) && PlacedNodes(t, p) == PlacedNodes(s, p)
    requires forall name <- s.names | !name.Temporary? :: name in t.names
    ensures SequelFits(plan, t, p, job)
  {
  }

  lemma TwoSteps(p: Process, s: FS, mid: FS, t: FS)
    requires Evolves(p, s, mid) && Evolves(p, mid, t) && s.published != Some(p) && mid.inodes == s.inodes
    ensures Evolves(p, s, t)
  {
    forall name | !Owned(name, p) && !name.Stored? ensures SameName(s, t, name) {
      assert SameName(s, mid, name) && SameName(mid, t, name);
    }
  }

  lemma LeaveKeeps(plan: Plan, p: Process, s: FS, c: Stage, t: FS, d: Stage)
    requires Global(plan, s) && Local(plan, s, p, c) && c.Leaving? && LeaveAct(p, s, c, t, d)
    ensures Safe(plan, p, s, t, d)
  {
    hide SizesKnown;
    RemovalKeeps(plan, p, s, t, Temporaries(s, p));
    assert CleanedUp(t, p);
  }

  // ---------------------------------------------------------------- the manifest file

  /** The complete staging tree is the one the manifest describes, and the manifest file,
      if it can be written without harm, is a new file in it. */
  lemma WriteKeeps(plan: Plan, p: Process, s: FS, t: FS, d: Stage)
    requires !Endangers(plan) && Global(plan, s) && Local(plan, s, p, Writing) && WriteAct(plan, p, s, t, d)
    ensures Safe(plan, p, s, t, d)
  {
    hide SizesChecked;
    hide Complete;
    hide NameFits;
    hide Evolves;
    hide PlacedNodes;
    hide ObjectsStored;
    hide Temporaries;
    hide View;
    hide WriteTarget;
    StagedTarget(plan, s, p);
    match plan.Target()
    case Missing(path) => NewFileKeeps(plan, p, s, t, path, d.inode);
    case Outside(rest) => BeyondKeeps(plan, p, s, t, d);
    case _ =>
  }

  /** A manifest written elsewhere leaves the staging tree as it is. */
  lemma BeyondKeeps(plan: Plan, p: Process, s: FS, t: FS, d: Stage)
    requires !Endangers(plan) && Global(plan, s) && Local(plan, s, p, Writing)
    requires plan.Target().Outside? && BeyondAct(plan, p, s, t, d, plan.outside(plan.Target().rest))
    ensures t == s && d == Finishing && Complete(plan, s, p) && Evolves(p, s, s)
  {
    hide SizesChecked;
    hide PlacedNodes;
    hide WriteTarget;
    hide Below;
    hide NameFits;
    hide Temporaries;
    StagedTarget(plan, s, p);
    StagedIsClosed(plan, s, p);
    Unmoved(p, s);
  }

  lemma StagedIsClosed(plan: Plan, s: FS, p: Process)
    requires Global(plan, s) && PlacedNodes(s, p) == StagedNodes(plan.Files())
    ensures Closed(s, p)
  {
    hide Complete;
    StagedPaths(plan.Files());
    forall path | Placed(p, path) in s.names
      ensures s.names[Placed(p, path)] in s.inodes && s.inodes[s.names[Placed(p, path)]].writer == None
    {
      PlacedIff(s, p, path);
      assert NameFits(plan, s, Placed(p, path));
    }
  }

  lemma StagedTarget(plan: Plan, s: FS, p: Process)
    requires StagedThrough(plan, s, p, |plan.Files()|)
    ensures PlacedNodes(s, p) == StagedNodes(plan.Files())
    ensures WriteTarget(View(s, p)) == plan.Target()
    ensures var found := WriteTarget(View(s, p));
            found.Missing? ==> found.path !in PlacedNodes(s, p) && found.path !in PathSet(plan.Files())
  {
    assert plan.Files()[..|plan.Files()|] == plan.Files();
    LookupInTree(View(s, p), [], [MANIFEST_FILE], LINK_LIMIT);
    StagedPaths(plan.Files());
  }

  lemma NewFileKeeps(plan: Plan, p: Process, s: FS, t: FS, path: string, inode: nat)
    requires Global(plan, s) && s.published != Some(p)
    requires path !in PathSet(plan.Files()) && path !in PlacedNodes(s, p) && inode !in s.inodes
    requires t == s.(names := s.names[Placed(p, path) := inode], inodes := s.inodes[inode := Inode("", 384, Some(p))])
    ensures Global(plan, t) && Evolves(p, s, t) && Temporaries(t, p) == Temporaries(s, p)
    ensures Placed(p, path) !in t.links
    ensures PlacedNodes(t, p) == PlacedNodes(s, p)[path := Regular("", 384)]
  {
    hide Complete;
    hide PlacedNodes;
    hide Closed;
    PlacedIff(s, p, path);
    forall name <- t.names ensures NameFits(plan, t, name) {
      if name != Placed(p, path) {
        assert NameFits(plan, s, name);
      }
    }
    forall other | Placed(p, other) in s.names ensures s.names[Placed(p, other)] in s.inodes {
      assert NameFits(plan, s, Placed(p, other));
    }
    NewNode(p, s, t, path, inode);
    if s.published.Some? { PublishedStays(plan, p, s, t); }
  }

  lemma NewNode(p: Process, s: FS, t: FS, path: string, inode: nat)
    requires !Taken(s, Placed(p, path)) && inode !in s.inodes
    requires forall other | Placed(p, other) in s.names :: s.names[Placed(p, other)] in s.inodes
    requires t == s.(names := s.names[Placed(p, path) := inode], inodes := s.inodes[inode := Inode("", 384, Some(p))])
    ensures PlacedNodes(t, p) == PlacedNodes(s, p)[path := Regular("", 384)]
  {
    var nodes := PlacedNodes(s, p)[path := Regular("", 384)];
    forall other ensures other in nodes <==> Taken(t, Placed(p, other)) {
      PlacedIff(s, p, other);
    }
    NodesAre(t, p, nodes);
  }

  /** Writing to the new manifest file, or closing it. */
  lemma ScribeKeeps(plan: Plan, p: Process, s: FS, c: Stage, t: FS, d: Stage)
    requires Global(plan, s) && Local(plan, s, p, c) && c.Scribing? && ScribeAct(plan, p, s, c, t, d)
    ensures Safe(plan, p, s, t, d)
  {
    hide Complete;
    hide SizesChecked;
    hide PlacedNodes;
    hide Temporaries;
    hide WriteTarget;
    hide Below;
    hide NameFits;
    ScribePaths(plan, p, s, c);
    OnlyManifestOpen(plan, p, s, c);
    forall name <- t.names ensures NameFits(plan, t, name) {
      assert NameFits(plan, s, name);
      ScribeFits(plan, p, s, c, t, name);
    }
    ScribedOn(plan, p, s, c, t, d);
    if s.published.Some? { PublishedStays(plan, p, s, t); }
  }

  lemma ScribeFits(plan: Plan, p: Process, s: FS, c: Stage, t: FS, name: Name)
    requires c.Scribing? && Scribes(plan, s, p, c.name, c.inode, c.written) && NameFits(plan, s, name)
    requires c.inode in t.inodes && (t.inodes[c.inode].writer == None || t.inodes[c.inode].writer == Some(p))
    requires t == s.(inodes := s.inodes[c.inode := t.inodes[c.inode]])
    ensures NameFits(plan, t, name)
  {
  }

  /** More of the text is there, or all of it and the file closed. */
  lemma ScribedOn(plan: Plan, p: Process, s: FS, c: Stage, t: FS, d: Stage)
    requires c.Scribing? && Scribes(plan, s, p, c.name, c.inode, c.written) && ScribeAct(plan, p, s, c, t, d)
    requires s.published != Some(p)
    requires forall other | Placed(p, other) in s.names && other != c.name.path ::
               s.names[Placed(p, other)] in s.inodes && s.inodes[s.names[Placed(p, other)]].writer == None
    ensures Local(plan, t, p, d)
  {
    hide SizesChecked;
    hide PlacedNodes;
    hide WriteTarget;
    hide Below;
    ScribedNodes(plan, p, s, t, c, t.inodes[c.inode]);
    assert Temporaries(t, p) == Temporaries(s, p);
  }

  lemma ScribePaths(plan: Plan, p: Process, s: FS, c: Stage)
    requires c.Scribing? && Scribes(plan, s, p, c.name, c.inode, c.written)
    ensures c.name.path !in PathSet(plan.Files())
    ensures forall other | Taken(s, Placed(p, other)) :: other == c.name.path || other in PathSet(plan.Files())
  {
    LookupInTree(Below(StagedNodes(plan.Files())), [], [MANIFEST_FILE], LINK_LIMIT);
    StagedPaths(plan.Files());
    forall other | Taken(s, Placed(p, other)) ensures other == c.name.path || other in PathSet(plan.Files()) {
      PlacedIff(s, p, other);
    }
  }

  lemma OnlyManifestOpen(plan: Plan, p: Process, s: FS, c: Stage)
    requires Global(plan, s) && c.Scribing? && Scribes(plan, s, p, c.name, c.inode, c.written)
    requires forall other | Taken(s, Placed(p, other)) :: other == c.name.path || other in PathSet(plan.Files())
    ensures forall other | Placed(p, other) in s.names && other != c.name.path ::
              s.names[Placed(p, other)] in s.inodes && s.inodes[s.names[Placed(p, other)]].writer == None
  {
    forall other | Placed(p, other) in s.names && other != c.name.path
      ensures s.names[Placed(p, other)] in s.inodes && s.inodes[s.names[Placed(p, other)]].writer == None
    {
      assert Taken(s, Placed(p, other)) && NameFits(plan, s, Placed(p, other));
    }
  }

  lemma ScribedNodes(plan: Plan, p: Process, s: FS, t: FS, c: Stage, node: Inode)
    requires c.Scribing? && Scribes(plan, s, p, c.name, c.inode, c.written) && node.mode == 384
    requires t == s.(inodes := s.inodes[c.inode := node])
    requires forall other | Placed(p, other) in s.names && other != c.name.path ::
               s.names[Placed(p, other)] in s.inodes && s.inodes[s.names[Placed(p, other)]].writer == None
    ensures PlacedNodes(t, p) == StagedNodes(plan.Files())[c.name.path := Regular(node.bytes, 384)]
    ensures node.writer == None ==> Closed(t, p)
  {
    var nodes := StagedNodes(plan.Files())[c.name.path := Regular(node.bytes, 384)];
    forall other ensures other in nodes <==> Taken(t, Placed(p, other)) {
      PlacedIff(s, p, other);
    }
    forall other <- nodes ensures NodeAt(t, Placed(p, other)) == nodes[other] {
      if other != c.name.path {
        assert other in PlacedNodes(s, p);
      }
    }
    NodesAre(t, p, nodes);
  }

  // ---------------------------------------------------------------- the end of a launch

  lemma FinishKeeps(plan: Plan, p: Process, s: FS, c: Stage, t: FS, d: Stage)
    requires Global(plan, s) && Local(plan, s, p, c) && (c.Finishing? || c.Confirming?)
    requires FinishAct(plan, p, s, c, t, d)
    ensures Safe(plan, p, s, t, d)
  {
    if t != s {
      PublishingKeeps(plan, p, s, t);
    }
  }

  lemma PublishingKeeps(plan: Plan, p: Process, s: FS, t: FS)
    requires Global(plan, s) && Complete(plan, s, p) && s.published == None && t == s.(published := Some(p))
    ensures Global(plan, t) && Evolves(p, s, t)
  {
    hide PlacedNodes;
    hide SizesChecked;
    hide NameFits;
    forall name <- t.names ensures NameFits(plan, t, name) {
      assert NameFits(plan, s, name);
      SameFit(plan, s, t, name);
    }
    forall path | Placed(p, path) in s.names ensures s.names[Placed(p, path)] in s.inodes {
      assert Closed(s, p);
    }
    SameNodes(s, t, p);
    assert Temporaries(t, p) == Temporaries(s, p);
  }

  lemma CleanKeeps(plan: Plan, p: Process, s: FS, c: Stage, t: FS, d: Stage)
    requires Global(plan, s) && Local(plan, s, p, c) && CleanAct(p, s, c, t, d)
    ensures Safe(plan, p, s, t, d)
  {
    hide Complete;
    hide NameFits;
    CleanEvolves(p, s, c, t, d);
    forall name <- t.names ensures NameFits(plan, t, name) {
      assert NameFits(plan, s, name);
      SameFit(plan, s, t, name);
    }
    if s.published.Some? { PublishedStays(plan, p, s, t); }
  }

  lemma CleanEvolves(p: Process, s: FS, c: Stage, t: FS, d: Stage)
    requires CleanAct(p, s, c, t, d)
    ensures Evolves(p, s, t) && t.names.Keys <= s.names.Keys && t.inodes == s.inodes
    ensures forall name <- t.names :: t.names[name] == s.names[name]
  {
  }

  lemma MoveKeeps(plan: Plan, p: Process, s: FS, c: Stage, t: FS, d: Stage)
    requires FilesFit(plan.Files()) && (!Endangers(plan) || !c.Writing?)
    requires Global(plan, s) && Local(plan, s, p, c) && Moves(plan, p, s, c, t, d)
    ensures Safe(plan, p, s, t, d)
  {
    hide Global;
    hide Local;
    hide Safe;
    hide FilesFit;
    hide Endangers;
    if c.Resting? {
      StartKeeps(plan, p, s, t, d);
    } else if c.Filling? {
      FillKeeps(plan, p, s, c, t, d);
    } else if c.Choosing? {
      ChooseKeeps(plan, p, s, c, t, d);
    } else if c.Linking? || c.Looking? || c.Checking? {
      PublishKeeps(plan, p, s, c, t, d);
    } else if c.Leaving? {
      LeaveKeeps(plan, p, s, c, t, d);
    } else if c.Writing? {
      WriteKeeps(plan, p, s, t, d);
    } else if c.Scribing? {
      ScribeKeeps(plan, p, s, c, t, d);
    } else if c.Finishing? || c.Confirming? {
      FinishKeeps(plan, p, s, c, t, d);
    } else {
      CopyKeeps(plan, p, s, c, t, d);
    }
  }

  lemma ActKeeps(plan: Plan, p: Process, s: FS, c: Stage, t: FS, d: Stage)
    requires FilesFit(plan.Files()) && (!Endangers(plan) || !c.Writing?)
    requires Global(plan, s) && Local(plan, s, p, c) && Act(plan, p, s, c, t, d)
    ensures Safe(plan, p, s, t, d)
  {
    if t == s && d == Stopped {
    } else if CleanAct(p, s, c, t, d) {
      CleanKeeps(plan, p, s, c, t, d);
    } else {
      MoveKeeps(plan, p, s, c, t, d);
    }
  }

  /** One step of any launcher keeps the invariant, and changes only what is its own. */
  lemma StepKeepsInv(plan: Plan, w: World, p: Process, v: World)
    requires FilesFit(plan.Files()) && Inv(plan, w) && ProcessStep(plan, w, p, v)
    requires !Endangers(plan) || !w.stages[p].Writing?
    ensures Inv(plan, v) && Evolves(p, w.fs, v.fs)
  {
    hide Global;
    hide Local;
    hide Act;
    hide FilesFit;
    hide Endangers;
    hide Evolves;
    assert LocalOf(plan, w, p);
    ActKeeps(plan, p, w.fs, w.stages[p], v.fs, v.stages[p]);
    forall q <- v.stages ensures LocalOf(plan, v, q) {
      if q != p {
        assert LocalOf(plan, w, q);
        OthersKeep(plan, w.fs, v.fs, q, p, w.stages[q]);
      }
    }
  }

  lemma StartsWell(plan: Plan, w: World)
    requires Initial(w)
    ensures Inv(plan, w)
  {
    var s := w.fs;
    forall name <- s.names ensures NameFits(plan, s, name) {
    }
    forall p <- w.stages ensures LocalOf(plan, w, p) {
      NodesAre(s, p, map[]);
      assert plan.Files()[..0] == [];
    }
  }
}
