/** What a command decides with the lock held, over whole runs: which of the two slots it
    installs into, which environment it reuses, what stops it and which pointers it leaves
    alone. */
module EnvironmentChoices {
  import opened Basics
  import opened EnvironmentModel
  import opened EnvironmentProtocol
  import opened EnvironmentSafety
  import opened EnvironmentTheorems

  predicate At(w: World, p: Process, c: Stage) {
    p in w.stages && w.stages[p] == c
  }

  /** A step that moves a process is its own. */
  lemma OwnStep(run: seq<World>, i: nat, p: Process)
    requires Run(run) && i + 1 < |run| && p in run[i].stages && p in run[i + 1].stages
    requires run[i].stages[p] != run[i + 1].stages[p]
    ensures ProcessStep(run[i], p, run[i + 1])
  {
    hide Act;
    assert StepAt(run, i);
    var q :| ProcessStep(run[i], q, run[i + 1]);
    assert q == p;
  }

  // ---------------------------------------------------------------- the slot

  /** Somebody's lease file stands in the way of the primary slot. */
  predicate PrimaryLeased(s: Shared, family: Family) {
    LeaseFiles(s.leases, Slot(family, false)) != {}
  }

  predicate PrimaryReadable(s: Shared, family: Family) {
    Slot(family, false) in s.leases ==> s.leases[Slot(family, false)].LeaseDirectory?
  }

  /** Serving and compiling share one environment, developing and evaluating the other. */
  function OwnFamily(p: Profile): Family {
    match p
    case Runtime => AgentFamily
    case Compile => AgentFamily
    case Development => EvalFamily
    case Eval => EvalFamily
  }

  /** In every run an installation goes to the alternate slot exactly when a command leases
      the primary one; leases that cannot be read end it. */
  lemma AlternateIffLeased(run: seq<World>, i: nat, p: Process, job: Job, slot: Name)
    requires Run(run) && i + 1 < |run| && At(run[i], p, Staging(job)) && At(run[i + 1], p, Validating(job, slot))
    ensures slot == Slot(OwnFamily(job.profile), PrimaryLeased(run[i].shared, OwnFamily(job.profile)))
    ensures PrimaryReadable(run[i].shared, OwnFamily(job.profile))
  {
    OwnStep(run, i, p);
  }

  /** And that choice is open to it in every state it can be made in. */
  lemma ChoiceIsOpen(w: World, p: Process, job: Job)
    requires At(w, p, Staging(job)) && PrimaryReadable(w.shared, FamilyOf(job.profile))
    ensures var slot := Slot(FamilyOf(job.profile), PrimaryLeased(w.shared, FamilyOf(job.profile)));
            Step(w, w.(stages := w.stages[p := Validating(job, slot)]))
  {
    var slot := Slot(FamilyOf(job.profile), PrimaryLeased(w.shared, FamilyOf(job.profile)));
    var v := w.(stages := w.stages[p := Validating(job, slot)]);
    assert ProcessStep(w, p, v);
  }

  // ---------------------------------------------------------------- the environment that is reused

  /** What a process wants was computed from the inputs at some earlier moment. */
  lemma {:induction false} WantedWasRead(run: seq<World>, i: nat, p: Process)
    requires Run(run) && i < |run| && p in run[i].stages && Begins(run[i].stages[p])
    ensures exists k | 0 <= k <= i ::
              run[i].stages[p].job.wanted == run[k].shared.inputs.Of(run[i].stages[p].job.profile)
  {
    var job := run[i].stages[p].job;
    var before := run[i - 1];
    assert StepAt(run, i - 1);
    StagesStay(before, run[i], p);
    if before.stages[p] == run[i].stages[p] {
      WantedWasRead(run, i - 1, p);
    } else {
      OwnStep(run, i - 1, p);
      ArrivesWanting(before.shared, before.stages[p], run[i].shared, run[i].stages[p]);
      if before.stages[p].Ready? {
        WantedWasRead(run, i - 1, p);
      } else {
        assert job.wanted == run[i - 1].shared.inputs.Of(job.profile);
      }
    }
  }

  lemma StagesStay(w: World, v: World, p: Process)
    requires Step(w, v) && p in v.stages
    ensures p in w.stages
  {
    if !UserStep(w, v) {
      var q :| ProcessStep(w, q, v);
    }
  }

  predicate Begins(d: Stage) { d.Ready? || d.Selecting? }

  lemma ChoosingGoesOn(s: Shared, c: Stage, t: Shared, d: Stage)
    requires Chooses(c) && !c.Selecting? && SelectAct(s, c, t, d)
    ensures !Begins(d)
  {
  }

  lemma SelectingGoesOn(s: Shared, c: Stage, t: Shared, d: Stage)
    requires c.Selecting? && SelectAct(s, c, t, d)
    ensures !Begins(d) && !d.Checking? && !d.Invalidating?
  {
  }

  lemma InstallingGoesOn(s: Shared, c: Stage, t: Shared, d: Stage)
    requires Installs(c) && InstallAct(s, c, t, d)
    ensures !Begins(d) && !d.Checking? && !d.Invalidating?
  {
  }

  lemma MigratingGoesOn(s: Shared, c: Stage, t: Shared, d: Stage)
    requires Migrates(c) && MigrateAct(s, c, t, d)
    ensures !Begins(d) && !d.Checking? && !d.Invalidating?
  {
  }

  lemma LeasingGoesOn(s: Shared, c: Stage, t: Shared, d: Stage)
    requires Leases(c) && LeaseAct(s, c, t, d)
    ensures !Begins(d) && !d.Checking? && !d.Invalidating?
  {
  }

  lemma PruningGoesOn(s: Shared, c: Stage, t: Shared, d: Stage)
    requires Prunes(c) && PruneAct(s, c, t, d)
    ensures !Begins(d) && !d.Checking? && !d.Invalidating?
  {
  }

  lemma ArrivesWanting(s: Shared, c: Stage, t: Shared, d: Stage)
    requires Act(s, c, t, d) && c != d && Begins(d)
    ensures c.Ready? || c.Idle?
    ensures c.Ready? ==> d.Selecting? && d.job == c.job
    ensures c.Idle? ==> d.job.wanted == s.inputs.Of(d.job.profile)
  {
    hide SelectAct, InstallAct, MigrateAct, LeaseAct, PruneAct;
    if c.Selecting? {
      SelectingGoesOn(s, c, t, d);
    } else if Chooses(c) {
      ChoosingGoesOn(s, c, t, d);
    } else if Installs(c) {
      InstallingGoesOn(s, c, t, d);
    } else if Migrates(c) {
      MigratingGoesOn(s, c, t, d);
    } else if Leases(c) {
      LeasingGoesOn(s, c, t, d);
    } else if Prunes(c) {
      PruningGoesOn(s, c, t, d);
    }
  }

  /** In every run an environment that is reused without an installation is the published one of
      the process's own family, complete, and recorded for exactly the inputs it wanted. */
  lemma ReuseServesWanted(run: seq<World>, i: nat, p: Process, job: Job, slot: Name)
    requires Run(run) && i + 1 < |run| && At(run[i], p, Selecting(job)) && At(run[i + 1], p, Following(job, slot))
    ensures Installed(run[i].shared, slot) && SlotMatches(OwnFamily(job.profile), slot)
    ensures exists file <- run[i].shared.states :: run[i].shared.states[file] == Published(job.wanted, slot)
    ensures exists k | 0 <= k <= i :: job.wanted == run[k].shared.inputs.Of(job.profile)
  {
    OwnStep(run, i, p);
    WantedWasRead(run, i, p);
    RunKeepsInv(run, i);
    ReuseHits(run[i].shared, job, slot, run[i + 1].shared);
    PointerServes(run[i], StateOf(FamilyOf(job.profile)));
  }

  lemma ReuseHits(s: Shared, job: Job, slot: Name, t: Shared)
    requires Act(s, Selecting(job), t, Following(job, slot))
    ensures var file := StateOf(FamilyOf(job.profile));
            && file in s.states && s.states[file] == Published(job.wanted, slot)
            && SlotMatches(FamilyOf(job.profile), slot) && CurrentPointer(file, s.states[file])
  {
  }

  lemma PointerServes(w: World, file: StateFile)
    requires Inv(w) && file in w.shared.states && CurrentPointer(file, w.shared.states[file])
    ensures Serves(w.shared, w.shared.states[file])
  {
  }

  /** And such an environment can be reused in every state in which it is there. */
  lemma ReuseIsOpen(w: World, p: Process, job: Job, slot: Name)
    requires At(w, p, Selecting(job)) && Installed(w.shared, slot)
    requires StateOf(OwnFamily(job.profile)) in w.shared.states && SlotMatches(OwnFamily(job.profile), slot)
    requires w.shared.states[StateOf(OwnFamily(job.profile))] == Published(job.wanted, slot)
    ensures Step(w, w.(stages := w.stages[p := Following(job, slot)]))
  {
    assert ProcessStep(w, p, w.(stages := w.stages[p := Following(job, slot)]));
  }

  /** An environment that was found but does not work is restored from its committed lock, and
      only such a one is. */
  lemma RestoreIffFound(run: seq<World>, i: nat, p: Process, job: Job, again: Job)
    requires Run(run) && i + 1 < |run| && At(run[i], p, Selecting(job)) && At(run[i + 1], p, Staging(again))
    ensures again == job
              || (again == job.(frozen := true)
                  && exists slot :: Installed(run[i].shared, slot) && SlotMatches(OwnFamily(job.profile), slot))
  {
    OwnStep(run, i, p);
    if again != job {
      RunKeepsInv(run, i);
      var slot :| CacheHit(run[i].shared, job, slot);
      PointerServes(run[i], StateOf(FamilyOf(job.profile)));
    }
  }

  lemma RestoreIsOpen(w: World, p: Process, job: Job, slot: Name)
    requires At(w, p, Selecting(job)) && Installed(w.shared, slot)
    requires StateOf(OwnFamily(job.profile)) in w.shared.states && SlotMatches(OwnFamily(job.profile), slot)
    requires w.shared.states[StateOf(OwnFamily(job.profile))] == Published(job.wanted, slot)
    ensures Step(w, w.(stages := w.stages[p := Staging(job.(frozen := true))]))
  {
    assert CacheHit(w.shared, job, slot);
    assert ProcessStep(w, p, w.(stages := w.stages[p := Staging(job.(frozen := true))]));
  }

  // ---------------------------------------------------------------- what stands in the way

  /** A directory that an installation into the slot must not find leased. */
  predicate Concerns(name: Name, slot: Name) {
    name == slot || name.Legacy?
  }

  /** What has been looked at so far is no link and no file, and nobody leases it. */
  predicate Vacant(s: Shared, slot: Name, todo: set<Name>) {
    forall name <- s.entries | Concerns(name, slot) && name !in todo :: Unleased(s.entries, s.leases, name)
  }

  predicate VacantSoFar(s: Shared, c: Stage) {
    match c
    case Checking(_, slot, _, todo) => Vacant(s, slot, todo)
    case Invalidating(_, slot, _) => Vacant(s, slot, {})
    case _ => true
  }

  lemma OutsideKeepsVacant(s: Shared, c: Stage, t: Shared, d: Stage, name: Name)
    requires !InSection(c) && !c.Crashed? && OutsideAct(s, c, t, d)
    ensures t.entries == s.entries && (NoLeases(s.leases, name) ==> NoLeases(t.leases, name))
  {
  }

  /** While one process looks, the others can only take leases away. */
  lemma OthersKeepVacant(w: World, v: World, p: Process)
    requires Inv(w) && Step(w, v) && p in w.stages && p in v.stages && v.stages[p] == w.stages[p]
    requires Chooses(w.stages[p]) && VacantSoFar(w.shared, w.stages[p])
    ensures VacantSoFar(v.shared, w.stages[p])
  {
    if !UserStep(w, v) {
      var q :| ProcessStep(w, q, v);
      var s, c, t, d := w.shared, w.stages[q], v.shared, v.stages[q];
      if t != s {
        NotItsOwn(w, v, p, q);
        forall name: Name ensures t.entries == s.entries && (NoLeases(s.leases, name) ==> NoLeases(t.leases, name)) {
          OutsideKeepsVacant(s, c, t, d, name);
        }
      }
    }
  }

  lemma ChoosingMovesOn(s: Shared, c: Stage, t: Shared, d: Stage)
    requires Chooses(c) && Act(s, c, t, d)
    ensures c == d ==> t == s
  {
  }

  /** Another process that changes something while this one looks is not in the section. */
  lemma NotItsOwn(w: World, v: World, p: Process, q: Process)
    requires Inv(w) && ProcessStep(w, q, v) && p in w.stages && Chooses(w.stages[p]) && v.shared != w.shared
    requires p in v.stages && v.stages[p] == w.stages[p]
    ensures !InSection(w.stages[q]) && !w.stages[q].Crashed?
    ensures OutsideAct(w.shared, w.stages[q], v.shared, v.stages[q])
  {
    hide SelectAct, InstallAct, MigrateAct, LeaseAct, PruneAct, OutsideAct;
    if q == p {
      ChoosingMovesOn(w.shared, w.stages[p], v.shared, v.stages[p]);
    }
    assert InSection(w.stages[p]);
    assert InSection(w.stages[q]) ==> q == p;
  }

  lemma LooksOn(s: Shared, c: Stage, t: Shared, d: Stage)
    requires (c.Listing? || c.Checking?) && SelectAct(s, c, t, d) && VacantSoFar(s, c)
    ensures VacantSoFar(t, d)
  {
  }

  lemma NotYetLooking(s: Shared, c: Stage, t: Shared, d: Stage)
    requires Chooses(c) && !c.Listing? && !c.Checking? && SelectAct(s, c, t, d)
    ensures !d.Checking? && !d.Invalidating?
  {
  }

  lemma OutsideLooksNot(s: Shared, c: Stage, t: Shared, d: Stage)
    requires !InSection(c) && !c.Crashed? && OutsideAct(s, c, t, d)
    ensures !d.Checking? && !d.Invalidating?
  {
  }

  lemma ComesToCheck(s: Shared, c: Stage, t: Shared, d: Stage)
    requires Act(s, c, t, d) && c != d && (d.Checking? || d.Invalidating?) && VacantSoFar(s, c)
    ensures VacantSoFar(t, d)
  {
    hide SelectAct, InstallAct, MigrateAct, LeaseAct, PruneAct, OutsideAct, VacantSoFar;
    assert ProgramAct(s, c, t, d);
    if c.Listing? || c.Checking? {
      LooksOn(s, c, t, d);
    } else if Chooses(c) {
      NotYetLooking(s, c, t, d);
    } else if Installs(c) {
      InstallingGoesOn(s, c, t, d);
    } else if Migrates(c) {
      MigratingGoesOn(s, c, t, d);
    } else if Leases(c) {
      LeasingGoesOn(s, c, t, d);
    } else if Prunes(c) {
      PruningGoesOn(s, c, t, d);
    } else if !InSection(c) {
      OutsideLooksNot(s, c, t, d);
    }
  }

  /** In every run an installation goes on to replace its slot only while neither the slot nor
      any legacy directory is leased or stands for something of the user's. */
  lemma {:induction false} NothingInUseIsReplaced(run: seq<World>, i: nat, p: Process)
    requires Run(run) && i < |run| && p in run[i].stages
    ensures VacantSoFar(run[i].shared, run[i].stages[p])
  {
    hide Inv, Step, Act;
    if i > 0 && Chooses(run[i].stages[p]) {
      assert StepAt(run, i - 1);
      StagesStay(run[i - 1], run[i], p);
      NothingInUseIsReplaced(run, i - 1, p);
      RunKeepsInv(run, i - 1);
      if run[i - 1].stages[p] == run[i].stages[p] {
        OthersKeepVacant(run[i - 1], run[i], p);
      } else {
        OwnStep(run, i - 1, p);
        if run[i].stages[p].Checking? || run[i].stages[p].Invalidating? {
          ComesToCheck(run[i - 1].shared, run[i - 1].stages[p], run[i].shared, run[i].stages[p]);
        }
      }
    }
  }

  /** And it gives up at this point only if something does stand in its way. */
  lemma BusyMeansObstructed(run: seq<World>, i: nat, p: Process, job: Job, slot: Name, basis: Option<Fingerprint>,
        todo: set<Name>)
    requires Run(run) && i + 1 < |run| && At(run[i], p, Checking(job, slot, basis, todo))
    requires At(run[i + 1], p, Unlocking(Done))
    ensures exists name <- todo ::
              Concerns(name, slot) && !Unleased(run[i].shared.entries, run[i].shared.leases, name)
  {
    OwnStep(run, i, p);
  }

  // ---------------------------------------------------------------- the serving pointers

  /** The steps of an installation for the profiles behind a pointer file that can change it:
      withdrawing the pointer of the very slot it replaces, and publishing. */
  predicate Replaces(s: Shared, c: Stage, file: StateFile) {
    || (c.Invalidating? && file == OwnState(c.job.profile)
        && file in s.states && s.states[file].Published? && s.states[file].directory == c.slot)
    || (c.Publishing? && file == OwnState(c.job.profile))
  }

  function OwnState(p: Profile): StateFile {
    match OwnFamily(p) case AgentFamily => AgentState case EvalFamily => EvalState
  }

  /** When an installation starts to clear its slot, its family's pointer is gone, or can be read
      and does not name the slot. */
  lemma ClearedSlotIsUnpublished(run: seq<World>, i: nat, p: Process, job: Job, slot: Name, basis: Option<Fingerprint>)
    requires Run(run) && i + 1 < |run| && At(run[i], p, Invalidating(job, slot, basis))
    requires At(run[i + 1], p, Clearing(job, slot, basis))
    ensures var file, states := OwnState(job.profile), run[i + 1].shared.states;
            file in states ==> !states[file].Unreadable? && !(states[file].Published? && states[file].directory == slot)
  {
    OwnStep(run, i, p);
    RunKeepsInv(run, i);
    assert Local(run[i].shared, run[i].stages[p]);
  }

  lemma InvalidatingChanges(s: Shared, c: Stage, t: Shared, d: Stage, file: StateFile)
    requires c.Invalidating? && SelectAct(s, c, t, d) && file in s.states && CurrentPointer(file, s.states[file])
    ensures StateKept(s, t, file) || Replaces(s, c, file)
  {
  }

  lemma PublishingChanges(s: Shared, c: Stage, t: Shared, d: Stage, file: StateFile)
    requires c.Publishing? && InstallAct(s, c, t, d) && file in s.states
    ensures StateKept(s, t, file) || Replaces(s, c, file)
  {
  }

  lemma DroppingKeeps(s: Shared, c: Stage, t: Shared, d: Stage, file: StateFile)
    requires c.Dropping? && MigrateAct(s, c, t, d) && file in s.states && CurrentPointer(file, s.states[file])
    ensures StateKept(s, t, file)
  {
  }

  /** In every run a pointer that serves a slot stays as it is, also through migrations and
      prunes, until an installation of its own family withdraws or rewrites it. */
  lemma ServingPointerStays(run: seq<World>, i: nat, file: StateFile)
    requires Run(run) && i + 1 < |run|
    requires file in run[i].shared.states && CurrentPointer(file, run[i].shared.states[file])
    ensures StateKept(run[i].shared, run[i + 1].shared, file)
              || exists p <- run[i].stages :: Replaces(run[i].shared, run[i].stages[p], file)
  {
    hide SelectAct, InstallAct, MigrateAct;
    assert StepAt(run, i);
    if !UserStep(run[i], run[i + 1]) {
      var p :| ProcessStep(run[i], p, run[i + 1]);
      var s, c, t, d := run[i].shared, run[i].stages[p], run[i + 1].shared, run[i + 1].stages[p];
      ActWritesOwn(s, c, t, d);
      if c.Invalidating? && ProgramAct(s, c, t, d) {
        InvalidatingChanges(s, c, t, d, file);
      } else if c.Publishing? && ProgramAct(s, c, t, d) {
        PublishingChanges(s, c, t, d, file);
      } else if c.Dropping? && ProgramAct(s, c, t, d) {
        DroppingKeeps(s, c, t, d, file);
      }
    }
  }

  // ---------------------------------------------------------------- giving up a lease

  /** A holder can give up its lease in every state it is in, and takes no other with it. */
  lemma ReleaseIsOpen(w: World, p: Process, lease: Lease, target: Name, selected: bool)
    requires Inv(w) && At(w, p, Holding(lease, target, selected))
    ensures exists v ::
              && Step(w, v) && v.stages == w.stages[p := Released(target)]
              && LeaseFiles(v.shared.leases, target) == LeaseFiles(w.shared.leases, target) - {lease}
              && forall name | name != target :: LeaseFiles(v.shared.leases, name) == LeaseFiles(w.shared.leases, name)
  {
    assert Local(w.shared, w.stages[p]);
    var shared := w.shared.(leases := WithoutLease(w.shared.leases, target, lease));
    var v := World(shared, w.stages[p := Released(target)]);
    assert ProcessStep(w, p, v);
  }
}
