/** The shared object store and the racing launchers of one manifest, inode by inode:
    temporary files, hard links that may fail, the copy fallback, renames that replace
    their target, symbolic links, the manifest file, and crashes at any point. */
module PackStore {
  import opened Basics
  import opened PackPaths
  import opened PackManifest
  import opened PackTree
  import opened PackStaging

  type Process = nat

  datatype Id = Id(bytes: string, executable: bool)

  /** The file names involved. A temporary name is private to the process that made it;
      `Placed` is a path in one launcher's staging tree. */
  datatype Name =
    | Stored(id: Id)
    | Packed(id: Id)
    | Placed(owner: Process, path: string)
    | Temporary(owner: Process, number: nat)

  /** `writer` is the process that last opened the file for writing and has not closed it. */
  datatype Inode = Inode(bytes: string, mode: nat, writer: Option<Process>)

  /** Files by name, symbolic links by name, and whose staging tree has the final name. */
  datatype FS = FS(
    names: map<Name, nat>, links: map<Name, string>, inodes: map<nat, Inode>, published: Option<Process>)

  /** What the file system has at a place above the staging root: nothing that can be opened, a
      file that is none of ours, an object's own name, or another link to an object's file. */
  datatype Spot = Nowhere | Elsewhere | StoreName(id: Id) | Shared(id: Id)

  /** What the launchers work on; `root` lets them open files that the mode protects, and
      `outside` says where a walk that leaves a staging tree ends. */
  datatype Plan = Plan(m: Manifest, codec: Codec, root: bool, outside: seq<string> -> Spot) {
    function Files(): seq<File> { m.core.files }
    function Text(): string { codec.encode(m) }

    /** Where writing to the manifest's name leads in the complete staging tree. */
    function Target(): Found { WriteTarget(Below(StagedNodes(Files()))) }
  }

  /** What follows a publication. */
  datatype Next = AtRest | Import(index: nat, imported: set<ObjectRef>) | Place(index: nat, imported: set<ObjectRef>)

  datatype Job = Job(source: Name, target: Name, id: Id, size: int, next: Next)

  datatype Stage =
    | Resting
    | Filling(number: nat, inode: nat, written: string)
    | Choosing(index: nat, imported: set<ObjectRef>)
    | Linking(job: Job)
    | Looking(job: Job)
    | Checking(job: Job)
    | Copying(job: Job, number: nat, inode: nat, written: string)
    | CopyChecking(job: Job, number: nat, inode: nat)
    | CopyLinking(job: Job, number: nat, inode: nat)
    | CopyLooking(job: Job, number: nat, inode: nat)
    | CopyRenaming(job: Job, number: nat, inode: nat)
    | Leaving(next: Next)
    | Writing
    | Scribing(name: Name, inode: nat, written: string)
    | Finishing
    | Confirming
    | Returned
    | Stopped

  function IdOf(stored: ObjectRef): Id {
    if stored.Object? then Id(stored.bytes, stored.executable) else Id("", false)
  }

  predicate Good(node: Inode, id: Id) {
    node.bytes == id.bytes && node.mode == ModeOf(id.executable) && node.writer == None
  }

  /** `VerifyObject` through a name. */
  predicate Verifies(s: FS, name: Name, id: Id, size: int) {
    && name in s.names && s.names[name] in s.inodes
    && var node := s.inodes[s.names[name]];
       node.bytes == id.bytes && node.mode == ModeOf(id.executable) && |node.bytes| == size
  }

  predicate Taken(s: FS, name: Name) {
    name in s.names || name in s.links
  }

  function Onward(next: Next): Stage {
    match next
    case AtRest => Resting
    case Import(index, imported) => Choosing(index, imported)
    case Place(index, imported) => Choosing(index + 1, imported)
  }

  // ---------------------------------------------------------------- what a staging tree looks like

  function NodeAt(s: FS, name: Name): Node {
    if name in s.links then Symlink(s.links[name])
    else if name in s.names && s.names[name] in s.inodes then
      Regular(s.inodes[s.names[name]].bytes, s.inodes[s.names[name]].mode)
    else Special
  }

  function PlacedPaths(s: FS, owner: Process): set<string> {
    set name | name in s.names.Keys + s.links.Keys && name.Placed? && name.owner == owner :: name.path
  }

  function PlacedNodes(s: FS, owner: Process): map<string, Node> {
    map path | path in PlacedPaths(s, owner) :: NodeAt(s, Placed(owner, path))
  }

  /** What anyone sees below one launcher's staging root, before and after its renaming. */
  function View(s: FS, owner: Process): Tree {
    Below(PlacedNodes(s, owner))
  }

  // ---------------------------------------------------------------- steps

  /** `StoreFile` and the start of a launcher. */
  ghost predicate StartAct(p: Process, s: FS, t: FS, d: Stage) {
    || (d == Choosing(0, {}) && t == s)
    || (d == Confirming && t == s && s.published.Some?)
    || (d.Filling? && Opens(p, s, t, d.number, d.inode) && d.written == "")
  }

  /** `CreateTemp`: a fresh name for a fresh, empty file. */
  ghost predicate Opens(p: Process, s: FS, t: FS, number: nat, inode: nat) {
    && Temporary(p, number) !in s.names && inode !in s.inodes
    && t == s.(names := s.names[Temporary(p, number) := inode],
               inodes := s.inodes[inode := Inode("", 384, Some(p))])
  }

  /** Bytes are streamed in pieces; then the permissions are set and the file is closed. */
  ghost predicate FillAct(p: Process, s: FS, c: Stage, t: FS, d: Stage)
    requires c.Filling?
  {
    c.inode in s.inodes &&
    ((d.Filling? && d.number == c.number && d.inode == c.inode && c.written <= d.written
      && t == s.(inodes := s.inodes[c.inode := s.inodes[c.inode].(bytes := d.written)])) ||
     (d.Linking? &&
      var id := Id(c.written, d.job.id.executable);
      && d.job == Job(Temporary(p, c.number), Stored(id), id, |c.written|, AtRest)
      && t == s.(inodes := s.inodes[c.inode := Inode(c.written, ModeOf(id.executable), None)])))
  }

  /** One manifest entry: a link, an import of its object, or its place in the staging tree. */
  ghost predicate ChooseAct(files: seq<File>, p: Process, s: FS, c: Stage, t: FS, d: Stage)
    requires c.Choosing?
  {
    if c.index >= |files| then t == s && d == Writing
    else
      var f := files[c.index];
      var id := IdOf(f.stored);
      if f.link != "" then
        && !Taken(s, Placed(p, f.path)) && t == s.(links := s.links[Placed(p, f.path) := f.link])
        && d == Choosing(c.index + 1, c.imported)
      else if f.stored !in c.imported then
        && f.stored.Object? && Verifies(s, Packed(id), id, f.size) && t == s
        && d == Linking(Job(Packed(id), Stored(id), id, f.size, Import(c.index, c.imported + {f.stored})))
      else
        t == s && d == Linking(Job(Stored(id), Placed(p, f.path), id, f.size, Place(c.index, c.imported)))
  }

  /** `publishObject`: link; if that fails, verify what is there; if nothing is there, copy. */
  ghost predicate PublishAct(p: Process, s: FS, c: Stage, t: FS, d: Stage)
    requires c.Linking? || c.Looking? || c.Checking?
  {
    var job := c.job;
    match c
    case Linking(_) =>
      (t == s && d == Looking(job)) ||
      (!Taken(s, job.target) && job.source in s.names && d == Leaving(job.next)
       && t == s.(names := s.names[job.target := s.names[job.source]]))
    case Looking(_) =>
      if Taken(s, job.target) then t == s && d == Checking(job)
      else d.Copying? && d.job == job && d.written == "" && Opens(p, s, t, d.number, d.inode)
    case Checking(_) =>
      t == s && d == if Verifies(s, job.target, job.id, job.size) then Leaving(job.next) else Stopped
  }

  /** `copyExclusive` and `publishCopiedObject`. */
  ghost predicate CopyAct(p: Process, s: FS, c: Stage, t: FS, d: Stage)
    requires c.Copying? || c.CopyChecking? || c.CopyLinking? || c.CopyLooking? || c.CopyRenaming?
  {
    var job := c.job;
    match c
    case Copying(_, number, inode, written) =>
      && inode in s.inodes && job.source in s.names && s.names[job.source] in s.inodes
      && ((d.Copying? && d.job == job && d.number == number && d.inode == inode
           && written <= d.written <= s.inodes[s.names[job.source]].bytes
           && t == s.(inodes := s.inodes[inode := s.inodes[inode].(bytes := d.written)])) ||
          (d == CopyChecking(job, number, inode)
           && t == s.(inodes := s.inodes[inode := Inode(written, ModeOf(job.id.executable), None)])))
    case CopyChecking(_, number, inode) =>
      && t == s
      && d == if Verifies(s, Temporary(p, number), job.id, job.size) then CopyLinking(job, number, inode) else Stopped
    case CopyLinking(_, number, inode) =>
      (t == s && d == CopyLooking(job, number, inode)) ||
      (!Taken(s, job.target) && d == Leaving(job.next) && t == s.(names := s.names[job.target := inode]))
    case CopyLooking(_, number, inode) =>
      t == s && d == if Taken(s, job.target) then Checking(job) else CopyRenaming(job, number, inode)
    case CopyRenaming(_, number, inode) =>
      && d == Leaving(job.next)
      && t == s.(names := (s.names - {Temporary(p, number)})[job.target := inode], links := s.links - {job.target})
  }

  function Temporaries(s: FS, p: Process): set<Name> {
    set name | name in s.names && name.Temporary? && name.owner == p
  }

  /** The deferred removal of temporary files, on the way out of a publication. */
  ghost predicate LeaveAct(p: Process, s: FS, c: Stage, t: FS, d: Stage)
    requires c.Leaving?
  {
    d == Onward(c.next) && t == s.(names := s.names - Temporaries(s, p))
  }

  /** A new file under a name. */
  ghost predicate Creates(p: Process, s: FS, t: FS, d: Stage, name: Name) {
    && d.Scribing? && d.name == name && d.written == "" && d.inode !in s.inodes
    && t == s.(names := s.names[name := d.inode], inodes := s.inodes[d.inode := Inode("", 384, Some(p))])
  }

  /** The file that has the name is emptied. */
  ghost predicate Truncates(p: Process, s: FS, t: FS, d: Stage, name: Name) {
    && name in s.names && s.names[name] in s.inodes
    && var inode := s.names[name];
       && d == Scribing(name, inode, "")
       && t == s.(inodes := s.inodes[inode := s.inodes[inode].(bytes := "", writer := Some(p))])
  }

  /** `WriteManifest` opens the staged name, through whatever links stand there. */
  ghost predicate WriteAct(plan: Plan, p: Process, s: FS, t: FS, d: Stage) {
    match WriteTarget(View(s, p))
    case Refused => false
    case Existing(path) => plan.root && Truncates(p, s, t, d, Placed(p, path))
    case Missing(path) => Creates(p, s, t, d, Placed(p, path))
    case Outside(rest) => BeyondAct(plan, p, s, t, d, plan.outside(rest))
  }

  /** The same for a name that leads out of the staging tree. */
  ghost predicate BeyondAct(plan: Plan, p: Process, s: FS, t: FS, d: Stage, spot: Spot) {
    match spot
    case Nowhere => false
    case Elsewhere => t == s && d == Finishing
    case StoreName(id) =>
      if Stored(id) in s.names then plan.root && Truncates(p, s, t, d, Stored(id)) else Creates(p, s, t, d, Stored(id))
    case Shared(id) => plan.root && Truncates(p, s, t, d, Stored(id))
  }

  /** The text is written in pieces, and the file closed. */
  ghost predicate ScribeAct(plan: Plan, p: Process, s: FS, c: Stage, t: FS, d: Stage)
    requires c.Scribing?
  {
    c.inode in s.inodes &&
    ((d.Scribing? && d.name == c.name && d.inode == c.inode && c.written <= d.written <= plan.Text()
      && t == s.(inodes := s.inodes[c.inode := s.inodes[c.inode].(bytes := d.written)])) ||
     (c.written == plan.Text() && d == Finishing
      && t == s.(inodes := s.inodes[c.inode := s.inodes[c.inode].(writer := None)])))
  }

  /** The staging tree is renamed into place, or the tree that is there is verified. */
  ghost predicate FinishAct(plan: Plan, p: Process, s: FS, c: Stage, t: FS, d: Stage)
    requires c.Finishing? || c.Confirming?
  {
    match c
    case Finishing =>
      (t == s && d == Confirming) ||
      (s.published == None && t == s.(published := Some(p)) && d == Returned)
    case Confirming =>
      t == s && d == if s.published.Some? && TreeThere(plan, s, s.published.value) then Returned else Stopped
  }

  /** The whole check of `verifyTree`. */
  ghost predicate TreeThere(plan: Plan, s: FS, owner: Process) {
    TreeMatches(View(s, owner), plan.codec, plan.m)
  }

  /** Deferred clean-up: temporary names, and the staging tree unless it was renamed. */
  ghost predicate CleanAct(p: Process, s: FS, c: Stage, t: FS, d: Stage) {
    && (c.Returned? || c.Stopped?) && d == c
    && exists gone: set<Name> ::
         && (forall name <- gone ::
               && (name.Temporary? || name.Placed?) && name.owner == p
               && (name.Placed? ==> s.published != Some(p)))
         && t == s.(names := s.names - gone, links := s.links - gone)
  }

  ghost predicate Moves(plan: Plan, p: Process, s: FS, c: Stage, t: FS, d: Stage) {
    match c
    case Resting => StartAct(p, s, t, d)
    case Filling(_, _, _) => FillAct(p, s, c, t, d)
    case Choosing(_, _) => ChooseAct(plan.Files(), p, s, c, t, d)
    case Linking(_) | Looking(_) | Checking(_) => PublishAct(p, s, c, t, d)
    case Leaving(_) => LeaveAct(p, s, c, t, d)
    case Writing => WriteAct(plan, p, s, t, d)
    case Scribing(_, _, _) => ScribeAct(plan, p, s, c, t, d)
    case Finishing | Confirming => FinishAct(plan, p, s, c, t, d)
    case Returned | Stopped => false
    case _ => CopyAct(p, s, c, t, d)
  }

  /** Any step can fail or be the last. */
  ghost predicate Act(plan: Plan, p: Process, s: FS, c: Stage, t: FS, d: Stage) {
    (t == s && d == Stopped) || CleanAct(p, s, c, t, d) || Moves(plan, p, s, c, t, d)
  }

  datatype World = World(fs: FS, stages: map<Process, Stage>)

  ghost predicate ProcessStep(plan: Plan, w: World, p: Process, v: World) {
    && p in w.stages && p in v.stages && v.stages == w.stages[p := v.stages[p]]
    && Act(plan, p, w.fs, w.stages[p], v.fs, v.stages[p])
  }

  ghost predicate Step(plan: Plan, w: World, v: World) {
    exists p :: ProcessStep(plan, w, p, v)
  }

  /** A store left by earlier, finished or crashed processes; the pack may be damaged. */
  ghost predicate Initial(w: World) {
    && (forall p <- w.stages :: w.stages[p] == Resting)
    && (forall name <- w.fs.names ::
          && w.fs.names[name] in w.fs.inodes && w.fs.inodes[w.fs.names[name]].writer == None
          && (name.Stored? ==> Good(w.fs.inodes[w.fs.names[name]], name.id))
          && (name.Temporary? ==> name.owner !in w.stages)
          && !name.Placed?)
    && w.fs.links == map[] && w.fs.published == None
  }

  ghost predicate StepAt(plan: Plan, run: seq<World>, i: nat)
    requires i + 1 < |run|
  {
    Step(plan, run[i], run[i + 1])
  }

  /** Launchers of a manifest that `Validate` accepted. */
  ghost predicate Run(plan: Plan, run: seq<World>) {
    Accepted(plan.m) && |run| > 0 && Initial(run[0]) && forall i: nat | i + 1 < |run| :: StepAt(plan, run, i)
  }
}
