/** What every interleaving of the commands keeps. The proof rests on one stability
    fact: while a process holds the lock, the other processes can only take lease
    files away, never add one and never touch a directory or a pointer. */
module EnvironmentSafety {
  import opened Basics
  import opened EnvironmentModel
  import opened EnvironmentProtocol

  /** What the shared state alone satisfies. */
  ghost predicate Global(s: Shared) {
    LeasesRecorded(s) && PointersServe(s)
  }

  /** No lease file protects contents at this name, and it is not the user's. */
  ghost predicate Free(s: Shared, name: Name) {
    && (name in s.entries ==> s.entries[name].Directory?)
    && (forall lease <- LeaseFiles(s.leases, name) :: lease in s.grants ==> s.grants[lease].held.None?)
  }

  /** No current pointer sends a command to this name. */
  predicate Unpublished(s: Shared, name: Name) {
    forall file <- s.states :: CurrentPointer(file, s.states[file]) ==> s.states[file].Directory() != Some(name)
  }

  /** No pointer of any kind names it. */
  predicate Unnamed(s: Shared, name: Name) {
    forall file <- s.states :: s.states[file].Directory() != Some(name)
  }

  predicate OnlyCurrentPointers(s: Shared, files: set<StateFile>) {
    forall file <- s.states :: file !in files ==> CurrentPointer(file, s.states[file])
  }

  predicate OwnSlot(job: Job, slot: Name) { SlotMatches(job.Family(), slot) }

  /** Everything collected so far is really protected from the sweep. */
  predicate Collected(s: Shared, files: set<StateFile>, current: set<Name>) {
    forall file <- s.states :: file !in files ==>
      s.states[file].Directory().Some? && s.states[file].Directory().value in current
  }

  ghost predicate Sweepable(s: Shared, name: Name) {
    name.Managed() && Free(s, name) && Unnamed(s, name)
  }

  /** A frozen installation fixes its inputs when it is validated. */
  predicate BasisFits(job: Job, basis: Option<Fingerprint>) {
    (basis.Some? <==> job.frozen) && (basis.Some? ==> basis.value.profile == job.profile)
  }

  /** A lease kept by a process is on disk; a selected one protects a complete install. */
  ghost predicate RestHolds(s: Shared, after: Rest) {
    match after
    case Done => true
    case Keep(lease, target, selected) => LeaseHolds(s, lease, target, selected)
  }

  ghost predicate LeaseHolds(s: Shared, lease: Lease, target: Name, selected: bool) {
    && lease in LeaseFiles(s.leases, target) && lease in s.grants
    && (selected ==> s.grants[lease].held.Some? && s.grants[lease].held.value.Directory? &&
                     s.grants[lease].held.value.contents.Complete?)
  }

  /** What a process may rely on at each stage. */
  ghost predicate Local(s: Shared, c: Stage) {
    match c
    case Idle | Ready(_) | WantLease(_) | WantPrune => true
    case Released(_) | Crashed(_) => true
    case Selecting(_) | Staging(_) => true
    case Validating(job, slot) => OwnSlot(job, slot)
    case Listing(job, slot, basis) => OwnSlot(job, slot) && BasisFits(job, basis)
    case Checking(job, slot, basis, todo) =>
      OwnSlot(job, slot) && BasisFits(job, basis) && (slot !in todo ==> Free(s, slot))
    case Invalidating(job, slot, basis) => OwnSlot(job, slot) && BasisFits(job, basis) && Free(s, slot)
    case Clearing(job, slot, basis) =>
      OwnSlot(job, slot) && BasisFits(job, basis) && Free(s, slot) && Unpublished(s, slot)
    case Resolving(job, slot, basis) =>
      OwnSlot(job, slot) && BasisFits(job, basis) && Free(s, slot) && Unpublished(s, slot)
    case Installing(job, slot, resolved) =>
      OwnSlot(job, slot) && Free(s, slot) && Unpublished(s, slot)
    case Verifying(job, slot, resolved) =>
      OwnSlot(job, slot) && Built(s, slot, resolved)
    case Sealing(job, slot, resolved) =>
      OwnSlot(job, slot) && Built(s, slot, resolved)
    case Publishing(job, slot, resolved, final) =>
      OwnSlot(job, slot) && Built(s, slot, resolved)
    case Following(job, slot) => slot.Slot? && Installed(s, slot)
    case Dropping(job, slot, files) => slot.Slot? && Installed(s, slot) && OnlyCurrentPointers(s, files)
    case Migrating(job, slot, todo) => slot.Slot? && Installed(s, slot) && OnlyCurrentPointers(s, {})
    case Retiring(job, slot, todo, victim) =>
      slot.Slot? && Installed(s, slot) && OnlyCurrentPointers(s, {}) && victim.Legacy? && Free(s, victim)
    case EnsuringLease(target, selected) => selected ==> Installed(s, target)
    case InspectingLease(target, selected) => selected ==> Installed(s, target)
    case CreatingLease(target, selected) => selected ==> Installed(s, target)
    case ReadingPointers(files, current, after) => RestHolds(s, after) && Collected(s, files, current)
    case ReadingLink(current, after) => RestHolds(s, after) && Collected(s, {}, current)
    case ListingStale(current, after) => RestHolds(s, after) && Collected(s, {}, current)
    case Scanning(current, todo, stale, after) =>
      RestHolds(s, after) && Collected(s, {}, current) && forall name <- stale :: Sweepable(s, name)
    case Sweeping(stale, after) => RestHolds(s, after) && forall name <- stale :: Sweepable(s, name)
    case SweepingOne(stale, victim, after) =>
      RestHolds(s, after) && Sweepable(s, victim) && forall name <- stale :: Sweepable(s, name)
    case Unlocking(after) => RestHolds(s, after)
    case Holding(lease, target, selected) => LeaseHolds(s, lease, target, selected)
  }

  predicate Built(s: Shared, slot: Name, resolved: Fingerprint) {
    slot in s.entries && s.entries[slot] == Directory(Complete(resolved))
  }

  /** The lease a process is responsible for. */
  function OwnedLease(c: Stage): Option<Lease> {
    match c
    case Holding(lease, _, _) => Some(lease)
    case ReadingPointers(_, _, Keep(lease, _, _)) => Some(lease)
    case ReadingLink(_, Keep(lease, _, _)) => Some(lease)
    case ListingStale(_, Keep(lease, _, _)) => Some(lease)
    case Scanning(_, _, _, Keep(lease, _, _)) => Some(lease)
    case Sweeping(_, Keep(lease, _, _)) => Some(lease)
    case SweepingOne(_, _, Keep(lease, _, _)) => Some(lease)
    case Unlocking(Keep(lease, _, _)) => Some(lease)
    case _ => None
  }

  ghost predicate Exclusive(w: World) {
    && (forall p <- w.stages | InSection(w.stages[p]) :: w.shared.lock)
    && (forall p <- w.stages, q <- w.stages | InSection(w.stages[p]) && InSection(w.stages[q]) :: p == q)
  }

  ghost predicate DistinctLeases(w: World) {
    forall p <- w.stages, q <- w.stages | p != q && OwnedLease(w.stages[p]).Some? ::
      OwnedLease(w.stages[p]) != OwnedLease(w.stages[q])
  }

  ghost predicate Inv(w: World) {
    && Global(w.shared)
    && Exclusive(w)
    && DistinctLeases(w)
    && (forall p <- w.stages :: Local(w.shared, w.stages[p]))
  }

  // ---------------------------------------------------------------- one process's own step

  /** What a step must re-establish for the process that takes it. */
  ghost predicate Keeps(t: Shared, d: Stage) {
    Global(t) && Local(t, d)
  }

  lemma AllStates(file: StateFile)
    ensures file in ALL_STATES
  {
    match file
    case AgentState =>
    case CompileState =>
    case DevelopmentState =>
    case EvalState =>
  }

  /** Only the entry at one name differs. */
  ghost predicate EntryDiffers(s: Shared, t: Shared, name: Name) {
    t == s.(entries := t.entries) && forall other :: other != name ==> Held(t, other) == Held(s, other)
  }

  /** Changing a free, unpublished directory disturbs no lease and no pointer. */
  lemma EntryChangeIsSafe(s: Shared, t: Shared, name: Name)
    requires Global(s) && EntryDiffers(s, t, name) && Free(s, name) && Unpublished(s, name)
    requires name in t.entries ==> t.entries[name].Directory?
    ensures Global(t) && Free(t, name) && Unpublished(t, name)
    ensures forall other :: Free(s, other) ==> Free(t, other)
    ensures forall other :: other != name && Installed(s, other) ==> Installed(t, other)
  {
    forall other, lease | other in t.leases && lease in LeaseFiles(t.leases, other)
      ensures t.grants[lease].held.Some? ==> Held(t, other) == t.grants[lease].held
    {
      assert Held(s, other) == Held(t, other) || other == name;
    }
    forall file <- t.states | CurrentPointer(file, t.states[file])
      ensures Serves(t, t.states[file])
    {
      var target := t.states[file].directory;
      assert Serves(s, s.states[file]) && Held(t, target) == Held(s, target);
    }
    forall other | Free(s, other)
      ensures Free(t, other)
    {
      assert Held(t, other) == Held(s, other) || other == name;
    }
    forall other | other != name && Installed(s, other)
      ensures Installed(t, other)
    {
      assert Held(t, other) == Held(s, other);
    }
  }

  lemma DisturbanceDiffers(s: Shared, t: Shared, name: Name)
    requires Disturbs(s, t, name)
    ensures EntryDiffers(s, t, name)
    ensures name in s.entries && s.entries[name].Directory? && name in t.entries ==> t.entries[name].Directory?
    ensures name !in s.entries && name in t.entries ==> t.entries[name].Directory?
  {
  }

  lemma SelectKeeps(s: Shared, c: Stage, t: Shared, d: Stage)
    requires Chooses(c)
    requires Keeps(s, c) && SelectAct(s, c, t, d)
    ensures Keeps(t, d)
  {
    if c.Selecting? && d.Following? {
      assert CurrentPointer(StateOf(c.job.Family()), s.states[StateOf(c.job.Family())]);
    }
  }

  lemma FillKeeps(s: Shared, c: Stage, t: Shared, d: Stage)
    requires c.Clearing? || c.Installing?
    requires Keeps(s, c) && InstallAct(s, c, t, d)
    ensures Keeps(t, d)
  {
    if c.Clearing? || !d.Verifying? {
      DisturbanceDiffers(s, t, c.slot);
    }
    EntryChangeIsSafe(s, t, c.slot);
  }

  lemma ResolveKeeps(s: Shared, c: Stage, t: Shared, d: Stage)
    requires c.Resolving?
    requires Keeps(s, c) && InstallAct(s, c, t, d)
    ensures Keeps(t, d)
  {
  }

  lemma PublishKeeps(s: Shared, c: Stage, t: Shared, d: Stage)
    requires c.Verifying? || c.Sealing? || c.Publishing?
    requires Keeps(s, c) && InstallAct(s, c, t, d)
    ensures Keeps(t, d)
  {
  }

  lemma InstallKeeps(s: Shared, c: Stage, t: Shared, d: Stage)
    requires Installs(c)
    requires Keeps(s, c) && InstallAct(s, c, t, d)
    ensures Keeps(t, d)
  {
    hide Keeps;
    hide InstallAct;
    if c.Clearing? || c.Installing? {
      FillKeeps(s, c, t, d);
    } else if c.Resolving? {
      ResolveKeeps(s, c, t, d);
    } else {
      PublishKeeps(s, c, t, d);
    }
  }

  lemma FollowKeeps(s: Shared, c: Stage, t: Shared, d: Stage)
    requires c.Following?
    requires Keeps(s, c) && MigrateAct(s, c, t, d)
    ensures Keeps(t, d)
  {
    forall file ensures file in ALL_STATES { AllStates(file); }
    if LinkFollows(s.link, c.slot) {
      assert t.entries == s.entries && t.states == s.states && t.leases == s.leases && t.grants == s.grants;
    }
  }

  lemma DropKeeps(s: Shared, c: Stage, t: Shared, d: Stage)
    requires c.Dropping?
    requires Keeps(s, c) && MigrateAct(s, c, t, d)
    ensures Keeps(t, d)
  {
  }

  lemma RetireKeeps(s: Shared, c: Stage, t: Shared, d: Stage)
    requires c.Migrating? || c.Retiring?
    requires Keeps(s, c) && MigrateAct(s, c, t, d)
    ensures Keeps(t, d)
  {
    if c.Retiring? {
      if d.Migrating? { assert EntryDiffers(s, t, c.victim); } else { DisturbanceDiffers(s, t, c.victim); }
      assert Unpublished(s, c.victim);
      EntryChangeIsSafe(s, t, c.victim);
    }
  }

  lemma MigrateKeeps(s: Shared, c: Stage, t: Shared, d: Stage)
    requires Migrates(c)
    requires Keeps(s, c) && MigrateAct(s, c, t, d)
    ensures Keeps(t, d)
  {
    if c.Following? {
      FollowKeeps(s, c, t, d);
    } else if c.Dropping? {
      DropKeeps(s, c, t, d);
    } else {
      RetireKeeps(s, c, t, d);
    }
  }

  lemma EnsureLeaseKeeps(s: Shared, c: Stage, t: Shared, d: Stage)
    requires c.EnsuringLease? || c.InspectingLease?
    requires Keeps(s, c) && LeaseAct(s, c, t, d)
    ensures Keeps(t, d)
  {
  }

  lemma CreateLeaseKeeps(s: Shared, c: Stage, t: Shared, d: Stage)
    requires c.CreatingLease?
    requires Keeps(s, c) && LeaseAct(s, c, t, d)
    ensures Keeps(t, d)
  {
    forall file ensures file in ALL_STATES { AllStates(file); }
  }

  lemma LeaseKeeps(s: Shared, c: Stage, t: Shared, d: Stage)
    requires Leases(c)
    requires Keeps(s, c) && LeaseAct(s, c, t, d)
    ensures Keeps(t, d)
  {
    if c.CreatingLease? {
      CreateLeaseKeeps(s, c, t, d);
    } else {
      EnsureLeaseKeeps(s, c, t, d);
    }
  }

  lemma PruneReadKeeps(s: Shared, c: Stage, t: Shared, d: Stage)
    requires c.ReadingPointers? || c.ReadingLink? || c.ListingStale?
    requires Keeps(s, c) && PruneAct(s, c, t, d)
    ensures Keeps(t, d)
  {
  }

  lemma PruneScanKeeps(s: Shared, c: Stage, t: Shared, d: Stage)
    requires c.Scanning?
    requires Keeps(s, c) && PruneAct(s, c, t, d)
    ensures Keeps(t, d)
  {
  }

  lemma PruneSweepKeeps(s: Shared, c: Stage, t: Shared, d: Stage)
    requires c.Sweeping? || c.SweepingOne?
    requires Keeps(s, c) && PruneAct(s, c, t, d)
    ensures Keeps(t, d)
  {
    if c.SweepingOne? {
      DisturbanceDiffers(s, t, c.victim);
      assert Unpublished(s, c.victim);
      EntryChangeIsSafe(s, t, c.victim);
    }
  }

  lemma PruneKeeps(s: Shared, c: Stage, t: Shared, d: Stage)
    requires Prunes(c)
    requires Keeps(s, c) && PruneAct(s, c, t, d)
    ensures Keeps(t, d)
  {
    if c.Scanning? {
      PruneScanKeeps(s, c, t, d);
    } else if c.Sweeping? || c.SweepingOne? {
      PruneSweepKeeps(s, c, t, d);
    } else {
      PruneReadKeeps(s, c, t, d);
    }
  }

  lemma OutsideKeeps(s: Shared, c: Stage, t: Shared, d: Stage)
    requires !InSection(c) && !c.Crashed?
    requires Keeps(s, c) && OutsideAct(s, c, t, d)
    ensures Keeps(t, d)
  {
    forall file ensures file in ALL_STATES { AllStates(file); }
  }

  lemma ActKeeps(s: Shared, c: Stage, t: Shared, d: Stage)
    requires Keeps(s, c) && Act(s, c, t, d)
    ensures Keeps(t, d)
  {
    if ProgramAct(s, c, t, d) {
      if Chooses(c) {
        SelectKeeps(s, c, t, d);
      } else if Installs(c) {
        InstallKeeps(s, c, t, d);
      } else if Migrates(c) {
        MigrateKeeps(s, c, t, d);
      } else if Leases(c) {
        LeaseKeeps(s, c, t, d);
      } else if Prunes(c) {
        PruneKeeps(s, c, t, d);
      } else if !c.Unlocking? {
        OutsideKeeps(s, c, t, d);
      }
    }
  }

  // ---------------------------------------------------------------- what a step leaves for the others

  /** Steps outside the lock only take the stepping process's own lease away. */
  ghost predicate Loosens(s: Shared, t: Shared, gone: Option<Lease>) {
    && t == s.(lock := t.lock, leases := t.leases)
    && (s.lock ==> t.lock)
    && (forall name :: LeaseFiles(t.leases, name) <= LeaseFiles(s.leases, name))
    && (forall name, lease | lease in LeaseFiles(s.leases, name) && Some(lease) != gone ::
          lease in LeaseFiles(t.leases, name))
  }

  /** Steps inside the lock never take a lease away. */
  ghost predicate Advances(s: Shared, t: Shared) {
    && (forall name :: LeaseFiles(s.leases, name) <= LeaseFiles(t.leases, name))
    && (forall lease <- s.grants :: lease in t.grants && t.grants[lease] == s.grants[lease])
  }

  lemma OutsideLoosens(s: Shared, c: Stage, t: Shared, d: Stage)
    requires !InSection(c) && Act(s, c, t, d)
    ensures Loosens(s, t, OwnedLease(c))
  {
    hide SelectAct;
    hide InstallAct;
    hide MigrateAct;
    hide LeaseAct;
    hide PruneAct;
  }

  /** Only publishing a lease touches lease files, and no stage before the unlock touches the lock. */
  lemma ChoosingFootprint(s: Shared, c: Stage, t: Shared, d: Stage)
    requires Chooses(c) && SelectAct(s, c, t, d)
    ensures InSection(d) && t.lock == s.lock
    ensures t.leases == s.leases && t.grants == s.grants
    ensures OwnedLease(d) == OwnedLease(c)
  {
  }

  lemma InstallingFootprint(s: Shared, c: Stage, t: Shared, d: Stage)
    requires Installs(c) && InstallAct(s, c, t, d)
    ensures InSection(d) && t.lock == s.lock
    ensures t.leases == s.leases && t.grants == s.grants
    ensures OwnedLease(d) == OwnedLease(c)
  {
  }

  lemma MigratingFootprint(s: Shared, c: Stage, t: Shared, d: Stage)
    requires Migrates(c) && MigrateAct(s, c, t, d)
    ensures InSection(d) && t.lock == s.lock
    ensures t.leases == s.leases && t.grants == s.grants
    ensures OwnedLease(d) == OwnedLease(c)
  {
  }

  lemma SweepingFootprint(s: Shared, c: Stage, t: Shared, d: Stage)
    requires (c.Sweeping? || c.SweepingOne?) && PruneAct(s, c, t, d)
    ensures InSection(d) && t.lock == s.lock
    ensures t.leases == s.leases && t.grants == s.grants
    ensures OwnedLease(d) == OwnedLease(c)
  {
  }

  lemma PruningFootprint(s: Shared, c: Stage, t: Shared, d: Stage)
    requires Prunes(c) && PruneAct(s, c, t, d)
    ensures InSection(d) && t.lock == s.lock
    ensures t.leases == s.leases && t.grants == s.grants
    ensures OwnedLease(d) == OwnedLease(c)
  {
    if c.Sweeping? || c.SweepingOne? {
      SweepingFootprint(s, c, t, d);
    }
  }

  lemma LeasingFootprint(s: Shared, c: Stage, t: Shared, d: Stage)
    requires Leases(c) && LeaseAct(s, c, t, d)
    ensures InSection(d) && t.lock == s.lock
    ensures Advances(s, t)
    ensures OwnedLease(d).Some? ==> OwnedLease(d).value !in s.grants
  {
  }

  lemma InsideAdvances(s: Shared, c: Stage, t: Shared, d: Stage)
    requires InSection(c) && Act(s, c, t, d)
    ensures Advances(s, t)
  {
    if ProgramAct(s, c, t, d) {
      if Chooses(c) {
        ChoosingFootprint(s, c, t, d);
      } else if Installs(c) {
        InstallingFootprint(s, c, t, d);
      } else if Migrates(c) {
        MigratingFootprint(s, c, t, d);
      } else if Leases(c) {
        LeasingFootprint(s, c, t, d);
      } else if Prunes(c) {
        PruningFootprint(s, c, t, d);
      }
    }
  }

  /** The stability fact: a process in the section keeps everything it relies on
      while the others start, give up, or release their leases. */
  lemma LoosenKeepsLocal(s: Shared, t: Shared, gone: Option<Lease>, c: Stage)
    requires Local(s, c) && Loosens(s, t, gone)
    requires OwnedLease(c).None? || OwnedLease(c) != gone
    ensures Local(t, c)
  {
    forall name | Free(s, name) ensures Free(t, name) {
    }
  }

  lemma AdvanceKeepsLocal(s: Shared, t: Shared, c: Stage)
    requires Local(s, c) && Advances(s, t) && !InSection(c)
    ensures Local(t, c)
  {
  }

  /** Where an act leaves the lock, the section and the process's own lease. */
  ghost predicate MovesLock(s: Shared, c: Stage, t: Shared, d: Stage) {
    && (InSection(c) && InSection(d) ==> t.lock == s.lock)
    && (!InSection(c) && InSection(d) ==> !s.lock && t.lock)
    && (!InSection(c) && !InSection(d) ==> t.lock == s.lock)
  }

  lemma OutsideMovesLock(s: Shared, c: Stage, t: Shared, d: Stage)
    requires !InSection(c) && !c.Crashed? && OutsideAct(s, c, t, d)
    ensures MovesLock(s, c, t, d)
  {
  }

  lemma StayingMovesNothing(s: Shared, c: Stage, t: Shared, d: Stage)
    requires InSection(c) && InSection(d) && t.lock == s.lock
    ensures MovesLock(s, c, t, d)
  {
  }

  lemma LeavingMovesLock(s: Shared, c: Stage, t: Shared, d: Stage)
    requires (t == s && !c.Crashed? && d == Crashed(InSection(c))) || (c.Unlocking? && d == Resume(c.after))
    ensures MovesLock(s, c, t, d)
  {
  }

  lemma ActMovesLock(s: Shared, c: Stage, t: Shared, d: Stage)
    requires Act(s, c, t, d)
    ensures MovesLock(s, c, t, d)
  {
    hide SelectAct;
    hide InstallAct;
    hide MigrateAct;
    hide LeaseAct;
    hide PruneAct;
    hide OutsideAct;
    hide MovesLock;
    if !ProgramAct(s, c, t, d) || c.Unlocking? {
      LeavingMovesLock(s, c, t, d);
    } else if InSection(c) {
      SectionFootprint(s, c, t, d);
      StayingMovesNothing(s, c, t, d);
    } else {
      OutsideMovesLock(s, c, t, d);
    }
  }

  lemma SectionFootprint(s: Shared, c: Stage, t: Shared, d: Stage)
    requires ProgramAct(s, c, t, d) && InSection(c) && !c.Unlocking?
    ensures InSection(d) && t.lock == s.lock
  {
    hide SelectAct;
    hide InstallAct;
    hide MigrateAct;
    hide LeaseAct;
    hide PruneAct;
    if Chooses(c) {
      ChoosingFootprint(s, c, t, d);
    } else if Installs(c) {
      InstallingFootprint(s, c, t, d);
    } else if Migrates(c) {
      MigratingFootprint(s, c, t, d);
    } else if Leases(c) {
      LeasingFootprint(s, c, t, d);
    } else {
      PruningFootprint(s, c, t, d);
    }
  }

  lemma ActMovesLease(s: Shared, c: Stage, t: Shared, d: Stage)
    requires Act(s, c, t, d)
    ensures OwnedLease(d).None? || OwnedLease(d) == OwnedLease(c) || OwnedLease(d).value !in s.grants
  {
    hide SelectAct;
    hide InstallAct;
    hide MigrateAct;
    hide LeaseAct;
    hide PruneAct;
    if ProgramAct(s, c, t, d) {
      if Chooses(c) {
        ChoosingFootprint(s, c, t, d);
      } else if Installs(c) {
        InstallingFootprint(s, c, t, d);
      } else if Migrates(c) {
        MigratingFootprint(s, c, t, d);
      } else if Leases(c) {
        LeasingFootprint(s, c, t, d);
      } else if Prunes(c) {
        PruningFootprint(s, c, t, d);
      }
    }
  }

  // ---------------------------------------------------------------- one step of the whole world

  lemma UserStepKeepsInv(w: World, v: World)
    requires Inv(w) && UserStep(w, v)
    ensures Inv(v)
  {
    forall p <- v.stages ensures Local(v.shared, v.stages[p]) {
      UserKeepsLocal(w.shared, v.shared, w.stages[p]);
    }
  }

  lemma UserKeepsLocal(s: Shared, t: Shared, c: Stage)
    requires Local(s, c) && UserAct(s, t)
    ensures Local(t, c)
  {
    if Chooses(c) {
      ChoosingIgnoresUser(s, t, c);
    } else if Installs(c) {
      InstallingIgnoresUser(s, t, c);
    } else if Prunes(c) {
      PruningIgnoresUser(s, t, c);
    }
  }

  lemma ChoosingIgnoresUser(s: Shared, t: Shared, c: Stage)
    requires Chooses(c) && Local(s, c) && UserAct(s, t)
    ensures Local(t, c)
  {
  }

  lemma InstallingIgnoresUser(s: Shared, t: Shared, c: Stage)
    requires Installs(c) && Local(s, c) && UserAct(s, t)
    ensures Local(t, c)
  {
  }

  lemma PruningIgnoresUser(s: Shared, t: Shared, c: Stage)
    requires Prunes(c) && Local(s, c) && UserAct(s, t)
    ensures Local(t, c)
  {
    if c.Scanning? || c.Sweeping? || c.SweepingOne? {
      SweepingIgnoresUser(s, t, c);
    } else {
      ReadingIgnoresUser(s, t, c);
    }
  }

  lemma ReadingIgnoresUser(s: Shared, t: Shared, c: Stage)
    requires c.ReadingPointers? || c.ReadingLink? || c.ListingStale?
    requires Local(s, c) && UserAct(s, t)
    ensures Local(t, c)
  {
  }

  lemma SweepingIgnoresUser(s: Shared, t: Shared, c: Stage)
    requires c.Scanning? || c.Sweeping? || c.SweepingOne?
    requires Local(s, c) && UserAct(s, t)
    ensures Local(t, c)
  {
    hide Sweepable;
    hide RestHolds;
    hide Collected;
    forall name | Sweepable(s, name) ensures Sweepable(t, name) {
      SweepableIgnoresUser(s, t, name);
    }
    RestIgnoresUser(s, t, c);
    if c.Scanning? {
      CollectedIgnoresUser(s, t, c);
    }
  }

  lemma SweepableIgnoresUser(s: Shared, t: Shared, name: Name)
    requires Sweepable(s, name) && UserAct(s, t)
    ensures Sweepable(t, name)
  {
  }

  lemma RestIgnoresUser(s: Shared, t: Shared, c: Stage)
    requires c.Scanning? || c.Sweeping? || c.SweepingOne?
    requires RestHolds(s, c.after) && UserAct(s, t)
    ensures RestHolds(t, c.after)
  {
  }

  lemma CollectedIgnoresUser(s: Shared, t: Shared, c: Stage)
    requires c.Scanning? && Collected(s, {}, c.current) && UserAct(s, t)
    ensures Collected(t, {}, c.current)
  {
  }

  lemma ProcessStepKeepsOthers(w: World, p: Process, v: World, q: Process)
    requires Inv(w) && ProcessStep(w, p, v) && q in w.stages && q != p
    ensures Local(v.shared, w.stages[q])
  {
    var s, t, c := w.shared, v.shared, w.stages[p];
    if InSection(c) {
      InsideAdvances(s, c, t, v.stages[p]);
      AdvanceKeepsLocal(s, t, w.stages[q]);
    } else {
      OutsideLoosens(s, c, t, v.stages[p]);
      LoosenKeepsLocal(s, t, OwnedLease(c), w.stages[q]);
    }
  }

  lemma ProcessStepKeepsInv(w: World, p: Process, v: World)
    requires Inv(w) && ProcessStep(w, p, v)
    ensures Inv(v)
  {
    var s, t, c, d := w.shared, v.shared, w.stages[p], v.stages[p];
    assert Keeps(s, c);
    ActKeeps(s, c, t, d);
    forall q <- v.stages ensures Local(v.shared, v.stages[q]) {
      if q != p { ProcessStepKeepsOthers(w, p, v, q); }
    }
    ProcessStepKeepsExclusive(w, p, v);
    ProcessStepKeepsDistinct(w, p, v);
  }

  lemma ProcessStepKeepsExclusive(w: World, p: Process, v: World)
    requires Exclusive(w) && ProcessStep(w, p, v)
    ensures Exclusive(v)
  {
    var s, t, c, d := w.shared, v.shared, w.stages[p], v.stages[p];
    ActMovesLock(s, c, t, d);
    if !InSection(c) { OutsideLoosens(s, c, t, d); }
  }

  lemma ProcessStepKeepsDistinct(w: World, p: Process, v: World)
    requires Inv(w) && ProcessStep(w, p, v)
    ensures DistinctLeases(v)
  {
    ActMovesLease(w.shared, w.stages[p], v.shared, v.stages[p]);
    forall q <- w.stages | OwnedLease(w.stages[q]).Some?
      ensures OwnedLease(w.stages[q]).value in w.shared.grants
    {
      assert Local(w.shared, w.stages[q]);
      OwnedLeaseRecorded(w.shared, w.stages[q]);
    }
  }

  lemma OwnedLeaseRecorded(s: Shared, c: Stage)
    requires Local(s, c) && OwnedLease(c).Some?
    ensures OwnedLease(c).value in s.grants
  {
  }

  lemma StepKeepsInv(w: World, v: World)
    requires Inv(w) && Step(w, v)
    ensures Inv(v)
  {
    if UserStep(w, v) {
      UserStepKeepsInv(w, v);
    } else {
      var p :| ProcessStep(w, p, v);
      ProcessStepKeepsInv(w, p, v);
    }
  }
}
