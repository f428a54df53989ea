/** The commands of one project as small steps over the shared state. One step is
    one directory listing, one file read, one rename, one removal or one part of an
    installer's work; any number of processes interleave their steps freely. */
module EnvironmentProtocol {
  import opened Basics
  import opened EnvironmentModel

  type Process = nat

  /** One dependency synchronisation. `wanted` is the fingerprint computed before the lock is taken. */
  datatype Job = Job(profile: Profile, frozen: bool, lease: bool, wanted: Fingerprint)
  {
    function Family(): Family { FamilyOf(profile) }
  }

  /** Where a process stands. Everything from `Selecting` to `Unlocking` runs with the lock held. */
  datatype Stage =
    | Idle
    | Ready(job: Job)
    | WantLease(target: Name)
    | WantPrune
    | Selecting(job: Job)
    | Staging(job: Job)
    | Validating(job: Job, slot: Name)
    | Listing(job: Job, slot: Name, basis: Option<Fingerprint>)
    | Checking(job: Job, slot: Name, basis: Option<Fingerprint>, todo: set<Name>)
    | Invalidating(job: Job, slot: Name, basis: Option<Fingerprint>)
    | Clearing(job: Job, slot: Name, basis: Option<Fingerprint>)
    | Resolving(job: Job, slot: Name, basis: Option<Fingerprint>)
    | Installing(job: Job, slot: Name, resolved: Fingerprint)
    | Verifying(job: Job, slot: Name, resolved: Fingerprint)
    | Sealing(job: Job, slot: Name, resolved: Fingerprint)
    | Publishing(job: Job, slot: Name, resolved: Fingerprint, final: Fingerprint)
    | Following(job: Job, slot: Name)
    | Dropping(job: Job, slot: Name, files: set<StateFile>)
    | Migrating(job: Job, slot: Name, todo: set<Name>)
    | Retiring(job: Job, slot: Name, todo: set<Name>, victim: Name)
    | EnsuringLease(target: Name, selected: bool)
    | InspectingLease(target: Name, selected: bool)
    | CreatingLease(target: Name, selected: bool)
    | ReadingPointers(files: set<StateFile>, current: set<Name>, after: Rest)
    | ReadingLink(current: set<Name>, after: Rest)
    | ListingStale(current: set<Name>, after: Rest)
    | Scanning(current: set<Name>, todo: set<Name>, stale: set<Name>, after: Rest)
    | Sweeping(stale: set<Name>, after: Rest)
    | SweepingOne(stale: set<Name>, victim: Name, after: Rest)
    | Unlocking(after: Rest)
    | Holding(lease: Lease, target: Name, selected: bool)
    | Released(target: Name)
    | Crashed(inside: bool)

  /** What a process does once it has dropped the lock. */
  datatype Rest = Done | Keep(lease: Lease, target: Name, selected: bool)

  datatype World = World(shared: Shared, stages: map<Process, Stage>)

  predicate Chooses(c: Stage) {
    c.Selecting? || c.Staging? || c.Validating? || c.Listing? || c.Checking? || c.Invalidating?
  }

  predicate Installs(c: Stage) {
    c.Clearing? || c.Resolving? || c.Installing? || c.Verifying? || c.Sealing? || c.Publishing?
  }

  predicate Migrates(c: Stage) {
    c.Following? || c.Dropping? || c.Migrating? || c.Retiring?
  }

  predicate Leases(c: Stage) {
    c.EnsuringLease? || c.InspectingLease? || c.CreatingLease?
  }

  predicate Prunes(c: Stage) {
    c.ReadingPointers? || c.ReadingLink? || c.ListingStale? || c.Scanning? || c.Sweeping? || c.SweepingOne?
  }

  predicate InSection(c: Stage) {
    Chooses(c) || Installs(c) || Migrates(c) || Leases(c) || Prunes(c) || c.Unlocking? || (c.Crashed? && c.inside)
  }

  function Resume(after: Rest): Stage {
    match after
    case Done => Idle
    case Keep(lease, target, selected) => Holding(lease, target, selected)
  }

  const LEAVE := Unlocking(Done)

  /** `mkdir` either creates the lock directory or reports another command as busy. */
  ghost predicate TakesLock(s: Shared, t: Shared, d: Stage, inside: Stage) {
    (t == s && d == Idle) ||
    (!s.lock && t == s.(lock := true) && d == inside)
  }

  /** An installer or a removal may leave any partial contents, or nothing, at one name. */
  ghost predicate Disturbs(s: Shared, t: Shared, name: Name) {
    t == s.(entries := t.entries) && Disturbed(s.entries, t.entries, name)
  }

  ghost predicate Disturbed(before: map<Name, Entry>, after: map<Name, Entry>, name: Name) {
    after == before || after == before - {name} || exists k :: after == before[name := Directory(Partial(k))]
  }

  predicate CacheHit(s: Shared, job: Job, slot: Name) {
    var file := StateOf(job.Family());
    && file in s.states && s.states[file] == Published(job.wanted, slot)
    && SlotMatches(job.Family(), slot)
    && slot in s.entries && s.entries[slot].Directory?
  }

  /** Choosing between the cached environment and an installation. */
  ghost predicate SelectAct(s: Shared, c: Stage, t: Shared, d: Stage)
    requires Chooses(c)
  {
    match c
    case Selecting(job) =>
      t == s &&
      (d == LEAVE ||
       d == Staging(job) ||
       (d.Following? && d.job == job && CacheHit(s, job, d.slot)) ||
       (d == Staging(job.(frozen := true)) && exists slot :: CacheHit(s, job, slot)))
    case Staging(job) =>
      var primary := Slot(job.Family(), false);
      t == s &&
      (d == LEAVE ||
       (NoLeases(s.leases, primary) && d == Validating(job, primary)) ||
       (primary in s.leases && s.leases[primary].LeaseDirectory? && s.leases[primary].files != {} &&
        d == Validating(job, Slot(job.Family(), true))))
    case Validating(job, slot) =>
      t == s &&
      (d == LEAVE || d == Listing(job, slot, if job.frozen then Some(s.inputs.Of(job.profile)) else None))
    case Listing(job, slot, basis) =>
      t == s && (d == LEAVE || d == Checking(job, slot, basis, s.entries.Keys))
    case Checking(job, slot, basis, todo) =>
      t == s &&
      if todo == {} then d == Invalidating(job, slot, basis)
      else exists name <- todo ::
             if (name != slot && !name.Legacy?) || Unleased(s.entries, s.leases, name)
             then d == Checking(job, slot, basis, todo - {name})
             else d == LEAVE
    case Invalidating(job, slot, basis) =>
      var file := StateOf(job.Family());
      if file in s.states && !s.states[file].Unreadable? && s.states[file].Directory() != Some(slot)
      then t == s && d == Clearing(job, slot, basis)
      else (t == s && d == LEAVE) ||
           (t == s.(states := s.states - {file}) && d == Clearing(job, slot, basis))
  }

  /** The installer's ordered effects; each of them can fail. */
  ghost predicate InstallAct(s: Shared, c: Stage, t: Shared, d: Stage)
    requires Installs(c)
  {
    match c
    case Clearing(job, slot, basis) =>
      Disturbs(s, t, slot) && (d == c || d == LEAVE || d == Resolving(job, slot, basis))
    case Resolving(job, slot, basis) =>
      // A frozen run reads the committed lock again; any other run reads the authored inputs,
      // writes the lock and reads it back.
      var now := s.inputs.Of(job.profile).reading;
      if job.frozen && basis.Some? then
        var resolved := basis.value.(reading := basis.value.reading.(committed := now.committed));
        t == s && (d == LEAVE || d == Installing(job, slot, resolved))
      else
        && (exists lock :: t == s.(inputs := s.inputs.Relocked(job.profile, lock)))
        && (d == LEAVE || d == Installing(job, slot, t.inputs.Of(job.profile)))
    case Installing(job, slot, resolved) =>
      (Disturbs(s, t, slot) && (d == c || d == LEAVE)) ||
      (t == s.(entries := s.entries[slot := Directory(Complete(resolved))]) && d == Verifying(job, slot, resolved))
    case Verifying(job, slot, resolved) =>
      t == s && (d == LEAVE || d == Sealing(job, slot, resolved))
    case Sealing(job, slot, resolved) =>
      t == s && (d == LEAVE || d == Publishing(job, slot, resolved, s.inputs.Of(job.profile)))
    case Publishing(job, slot, resolved, final) =>
      (t == s && d == LEAVE) ||
      (t == s.(states := s.states[StateOf(job.Family()) := Published(final, slot)]) && d == Following(job, slot))
  }

  /** An existing link follows the chosen profile, or leaves a legacy directory. */
  predicate LinkFollows(link: EditorLink, slot: Name) {
    match LinkedName(link)
    case None => false
    case Some(name) => name.Legacy? || (name != slot && slot.Slot? && SlotMatches(slot.family, name))
  }

  /** Migration drops obsolete pointers, then the unleased legacy directories. */
  ghost predicate MigrateAct(s: Shared, c: Stage, t: Shared, d: Stage)
    requires Migrates(c)
  {
    match c
    case Following(job, slot) =>
      if LinkFollows(s.link, slot)
      then (t == s && d == LEAVE) || (t == s.(link := Linked(slot)) && d == Dropping(job, slot, ALL_STATES))
      else t == s && d == Dropping(job, slot, ALL_STATES)
    case Dropping(job, slot, files) =>
      if files == {} then t == s && (d == LEAVE || d == Migrating(job, slot, s.entries.Keys))
      else exists file <- files ::
             if file !in s.states || CurrentPointer(file, s.states[file])
             then t == s && d == Dropping(job, slot, files - {file})
             else (t == s && d == LEAVE) ||
                  (t == s.(states := s.states - {file}) && d == Dropping(job, slot, files - {file}))
    case Migrating(job, slot, todo) =>
      t == s &&
      if todo == {} then d == (if job.lease then EnsuringLease(slot, true) else LEAVE)
      else exists name <- todo ::
             if name.Legacy? && Unleased(s.entries, s.leases, name)
             then d == Retiring(job, slot, todo - {name}, name)
             else d == Migrating(job, slot, todo - {name})
    case Retiring(job, slot, todo, victim) =>
      (Disturbs(s, t, victim) && (d == c || d == LEAVE)) ||
      (t == s.(entries := s.entries - {victim}) && d == Migrating(job, slot, todo))
  }

  /** Publishing a lease: ensure the directory, look at it, then create the file.
      A release by another process may remove the empty directory in between. */
  ghost predicate LeaseAct(s: Shared, c: Stage, t: Shared, d: Stage)
    requires Leases(c)
  {
    match c
    case EnsuringLease(target, selected) =>
      (t == s && d == LEAVE) ||
      (d == InspectingLease(target, selected) &&
       t == if target in s.leases then s else s.(leases := s.leases[target := LeaseDirectory({})]))
    case InspectingLease(target, selected) =>
      t == s &&
      if target in s.leases && s.leases[target].LeaseDirectory? then d == CreatingLease(target, selected)
      else d == LEAVE
    case CreatingLease(target, selected) =>
      (t == s && d == LEAVE) ||
      (d.ReadingPointers? && d.after.Keep? &&
       var lease := d.after.lease;
       && target in s.leases && s.leases[target].LeaseDirectory? && lease !in s.grants
       && d == ReadingPointers(ALL_STATES, {}, Keep(lease, target, selected))
       && t == s.(leases := s.leases[target := LeaseDirectory(s.leases[target].files + {lease})],
                  grants := s.grants[lease := Grant(target, Held(s, target))]))
  }

  function Held(s: Shared, name: Name): Option<Entry> {
    if name in s.entries then Some(s.entries[name]) else None
  }

  /** Pruning collects every reason to keep a directory before it removes the first one. */
  ghost predicate PruneAct(s: Shared, c: Stage, t: Shared, d: Stage)
    requires Prunes(c)
  {
    match c
    case ReadingPointers(files, current, after) =>
      t == s &&
      if files == {} then d == (if current == {} then Unlocking(after) else ReadingLink(current, after))
      else exists file <- files ::
             if file !in s.states then d == ReadingPointers(files - {file}, current, after)
             else if s.states[file].Directory().None? then d == Unlocking(after)
             else d == ReadingPointers(files - {file}, current + {s.states[file].Directory().value}, after)
    case ReadingLink(current, after) =>
      t == s &&
      d == ListingStale(if LinkedName(s.link).None? then current else current + {LinkedName(s.link).value}, after)
    case ListingStale(current, after) =>
      t == s && (d == Unlocking(after) || d == Scanning(current, s.entries.Keys, {}, after))
    case Scanning(current, todo, stale, after) =>
      t == s &&
      if todo == {} then d == Sweeping(stale, after)
      else exists name <- todo ::
             if name !in current && name.Managed() && Unleased(s.entries, s.leases, name)
             then d == Scanning(current, todo - {name}, stale + {name}, after)
             else d == Scanning(current, todo - {name}, stale, after)
    case Sweeping(stale, after) =>
      t == s &&
      if stale == {} then d == Unlocking(after)
      else exists name <- stale :: d == SweepingOne(stale - {name}, name, after)
    case SweepingOne(stale, victim, after) =>
      Disturbs(s, t, victim) && (d == c || d == Sweeping(stale, after))
  }

  /** Steps outside the lock: starting a command, releasing a lease. */
  ghost predicate OutsideAct(s: Shared, c: Stage, t: Shared, d: Stage)
    requires !InSection(c) && !c.Crashed?
  {
    match c
    case Idle => t == s && ((d.Ready? && d.job.wanted == s.inputs.Of(d.job.profile)) || d.WantLease? || d == WantPrune)
    case Ready(job) => TakesLock(s, t, d, Selecting(job))
    case WantLease(target) => TakesLock(s, t, d, EnsuringLease(target, false))
    case WantPrune => TakesLock(s, t, d, ReadingPointers(ALL_STATES, {}, Done))
    case Holding(lease, target, selected) =>
      d == Released(target) &&
      (t == s || t == s.(leases := WithoutLease(s.leases, target, lease)))
    case Released(target) =>
      d == WantPrune &&
      (t == s || (target in s.leases && s.leases[target] == LeaseDirectory({}) &&
                  t == s.(leases := s.leases - {target})))
  }

  function WithoutLease(leases: map<Name, LeasePath>, name: Name, lease: Lease): map<Name, LeasePath> {
    if name in leases && leases[name].LeaseDirectory?
    then leases[name := LeaseDirectory(leases[name].files - {lease})] else leases
  }

  /** One step of one process: its own program, or a crash that abandons it where it stands. */
  ghost predicate Act(s: Shared, c: Stage, t: Shared, d: Stage) {
    (t == s && !c.Crashed? && d == Crashed(InSection(c))) || ProgramAct(s, c, t, d)
  }

  ghost predicate ProgramAct(s: Shared, c: Stage, t: Shared, d: Stage) {
    if Chooses(c) then SelectAct(s, c, t, d)
    else if Installs(c) then InstallAct(s, c, t, d)
    else if Migrates(c) then MigrateAct(s, c, t, d)
    else if Leases(c) then LeaseAct(s, c, t, d)
    else if Prunes(c) then PruneAct(s, c, t, d)
    else if c.Unlocking? then t == s.(lock := false) && d == Resume(c.after)
    else !c.Crashed? && OutsideAct(s, c, t, d)
  }

  /** The user may edit the dependency inputs or repoint the editor link at any time. */
  ghost predicate UserAct(s: Shared, t: Shared) {
    t == s.(inputs := t.inputs) || t == s.(link := t.link)
  }

  ghost predicate ProcessStep(w: World, p: Process, v: World) {
    && p in w.stages && p in v.stages
    && v.stages == w.stages[p := v.stages[p]]
    && Act(w.shared, w.stages[p], v.shared, v.stages[p])
  }

  ghost predicate UserStep(w: World, v: World) {
    v.stages == w.stages && UserAct(w.shared, v.shared)
  }

  ghost predicate Step(w: World, v: World) {
    UserStep(w, v) || exists p :: ProcessStep(w, p, v)
  }

  ghost predicate StepAt(run: seq<World>, i: nat)
    requires i + 1 < |run|
  {
    Step(run[i], run[i + 1])
  }

  ghost predicate Run(run: seq<World>) {
    |run| > 0 && Initial(run[0]) && forall i: nat | i + 1 < |run| :: StepAt(run, i)
  }

  /** A project before any of the modelled commands start: lease files left by earlier
      crashes are allowed, and a current pointer was left by a finished publication. */
  ghost predicate Initial(w: World) {
    && !w.shared.lock
    && (forall p <- w.stages :: w.stages[p] == Idle)
    && LeasesRecorded(w.shared)
    && PointersServe(w.shared)
  }

  /** Every lease file was granted for its directory. */
  ghost predicate LeasesRecorded(s: Shared) {
    forall name, lease | name in s.leases && lease in LeaseFiles(s.leases, name) ::
      && lease in s.grants && s.grants[lease].name == name
      && (s.grants[lease].held.Some? ==> Held(s, name) == s.grants[lease].held)
  }

  /** Every current pointer names a slot that holds a complete install. */
  ghost predicate PointersServe(s: Shared) {
    forall file <- s.states | CurrentPointer(file, s.states[file]) :: Serves(s, s.states[file])
  }

  predicate Serves(s: Shared, document: Document) {
    document.Published? && Installed(s, document.directory)
  }

  /** The install was made for the very fingerprint that is recorded. */
  predicate Exact(s: Shared, document: Document) {
    Serves(s, document) && s.entries[document.directory].contents.built == document.fingerprint
  }

  predicate Installed(s: Shared, name: Name) {
    name in s.entries && s.entries[name].Directory? && s.entries[name].contents.Complete?
  }
}
