/** Safety of the environment protocol over whole runs: any number of processes,
    any interleaving, any failing step, any crash, and leases released at any time. */
module EnvironmentTheorems {
  import opened Basics
  import opened EnvironmentModel
  import opened EnvironmentProtocol
  import opened EnvironmentSafety

  lemma {:induction false} RunKeepsInv(run: seq<World>, i: nat)
    requires Run(run) && i < |run|
    ensures Inv(run[i])
  {
    if i > 0 {
      RunKeepsInv(run, i - 1);
      assert StepAt(run, i - 1);
      StepKeepsInv(run[i - 1], run[i]);
    }
  }

  /** At most one process is between taking and dropping the lock. */
  lemma SectionIsExclusive(run: seq<World>, i: nat, p: Process, q: Process)
    requires Run(run) && i < |run|
    requires p in run[i].stages && InSection(run[i].stages[p])
    requires q in run[i].stages && InSection(run[i].stages[q])
    ensures p == q && run[i].shared.lock
  {
    RunKeepsInv(run, i);
  }

  // ---------------------------------------------------------------- publications

  /** A step changes at most the directory its stage names, and only three stages
      write publication pointers. */
  ghost predicate WritesOwn(s: Shared, c: Stage, t: Shared) {
    && (t.states == s.states || c.Invalidating? || c.Publishing? || c.Dropping?)
    && (forall name :: !Mutates(c, name) ==> Held(t, name) == Held(s, name))
    && (forall file <- t.states :: StateKept(s, t, file) || StateWritten(c, t, file))
  }

  predicate StateKept(s: Shared, t: Shared, file: StateFile) {
    file in s.states && file in t.states && t.states[file] == s.states[file]
  }

  /** Only a publication writes a pointer, and it names the slot being installed. */
  predicate StateWritten(c: Stage, t: Shared, file: StateFile) {
    c.Publishing? && file in t.states && t.states[file].Published? && t.states[file].directory == c.slot
  }

  lemma ChoosingWrites(s: Shared, c: Stage, t: Shared, d: Stage)
    requires Chooses(c) && SelectAct(s, c, t, d)
    ensures WritesOwn(s, c, t)
  {
  }

  lemma InstallingWrites(s: Shared, c: Stage, t: Shared, d: Stage)
    requires Installs(c) && InstallAct(s, c, t, d)
    ensures WritesOwn(s, c, t)
  {
  }

  lemma MigratingWrites(s: Shared, c: Stage, t: Shared, d: Stage)
    requires Migrates(c) && MigrateAct(s, c, t, d)
    ensures WritesOwn(s, c, t)
  {
  }

  lemma LeasingWrites(s: Shared, c: Stage, t: Shared, d: Stage)
    requires Leases(c) && LeaseAct(s, c, t, d)
    ensures WritesOwn(s, c, t)
  {
  }

  lemma PruningWrites(s: Shared, c: Stage, t: Shared, d: Stage)
    requires Prunes(c) && PruneAct(s, c, t, d)
    ensures WritesOwn(s, c, t)
  {
  }

  lemma OutsideWrites(s: Shared, c: Stage, t: Shared, d: Stage)
    requires !InSection(c) && !c.Crashed? && OutsideAct(s, c, t, d)
    ensures WritesOwn(s, c, t)
  {
  }

  lemma ActWritesOwn(s: Shared, c: Stage, t: Shared, d: Stage)
    requires Act(s, c, t, d)
    ensures WritesOwn(s, c, t)
  {
    if ProgramAct(s, c, t, d) {
      if Chooses(c) {
        ChoosingWrites(s, c, t, d);
      } else if Installs(c) {
        InstallingWrites(s, c, t, d);
      } else if Migrates(c) {
        MigratingWrites(s, c, t, d);
      } else if Leases(c) {
        LeasingWrites(s, c, t, d);
      } else if Prunes(c) {
        PruningWrites(s, c, t, d);
      } else if !c.Unlocking? {
        OutsideWrites(s, c, t, d);
      }
    }
  }

  /** The slot an installation works on. */
  predicate WorksOn(c: Stage, slot: Name) {
    (Chooses(c) && !c.Selecting? && !c.Staging? && c.slot == slot) || (Installs(c) && c.slot == slot)
  }

  /** One step of an installation into another slot cannot drop the serving pointer. */
  lemma OtherSlotStepKeepsPointer(w: World, v: World, p: Process, file: StateFile, slot: Name)
    requires Inv(w) && Step(w, v)
    requires p in w.stages && WorksOn(w.stages[p], slot) && p in v.stages
    requires !v.stages[p].Following?
    requires file in w.shared.states && CurrentPointer(file, w.shared.states[file])
    requires w.shared.states[file].directory != slot
    ensures file in v.shared.states && v.shared.states[file] == w.shared.states[file]
  {
    if !UserStep(w, v) {
      var q :| ProcessStep(w, q, v);
      var s, c, t, d := w.shared, w.stages[q], v.shared, v.stages[q];
      ActWritesOwn(s, c, t, d);
      if t.states != s.states {
        assert InSection(c) && InSection(w.stages[p]);
        assert q == p;
      }
    }
  }

  /** An install into another slot that fails, or dies, leaves the serving pointer untouched. */
  lemma {:induction false} FailedInstallKeepsServing(
      run: seq<World>, i: nat, j: nat, p: Process, file: StateFile, slot: Name)
    requires Run(run) && i <= j < |run|
    requires forall k | i <= k < j :: p in run[k].stages && WorksOn(run[k].stages[p], slot)
    requires p in run[j].stages && !run[j].stages[p].Following?
    requires file in run[i].shared.states && CurrentPointer(file, run[i].shared.states[file])
    requires run[i].shared.states[file].directory != slot
    ensures file in run[j].shared.states && run[j].shared.states[file] == run[i].shared.states[file]
  {
    hide Inv;
    hide Step;
    if i < j {
      FailedInstallKeepsServing(run, i, j - 1, p, file, slot);
      RunKeepsInv(run, j - 1);
      assert StepAt(run, j - 1);
      OtherSlotStepKeepsPointer(run[j - 1], run[j], p, file, slot);
    }
  }

  // ---------------------------------------------------------------- directories

  predicate Mutates(c: Stage, name: Name) {
    (c.Clearing? && c.slot == name) || (c.Installing? && c.slot == name) ||
    (c.Retiring? && c.victim == name) || (c.SweepingOne? && c.victim == name)
  }

  predicate UsersOwn(s: Shared, name: Name) {
    (name in s.entries && s.entries[name].UserOwned?) || !name.Managed()
  }

  lemma StepKeepsUserEntries(w: World, v: World, name: Name)
    requires Inv(w) && Step(w, v) && UsersOwn(w.shared, name)
    ensures Held(v.shared, name) == Held(w.shared, name)
  {
    if !UserStep(w, v) {
      var p :| ProcessStep(w, p, v);
      assert Local(w.shared, w.stages[p]);
      if Mutates(w.stages[p], name) { MutatedIsFreeAndManaged(w.shared, w.stages[p], name); }
      ActWritesOwn(w.shared, w.stages[p], v.shared, v.stages[p]);
    }
  }

  lemma MutatedIsFreeAndManaged(s: Shared, c: Stage, name: Name)
    requires Local(s, c) && Mutates(c, name)
    ensures Free(s, name) && name.Managed()
  {
  }

  /** Links, files and unmanaged directories below `environments` are never touched. */
  lemma {:induction false} UserEntriesSurvive(run: seq<World>, i: nat, j: nat, name: Name)
    requires Run(run) && i <= j < |run| && UsersOwn(run[i].shared, name)
    ensures Held(run[j].shared, name) == Held(run[i].shared, name)
  {
    hide Inv;
    hide Step;
    if i < j {
      UserEntriesSurvive(run, i, j - 1, name);
      RunKeepsInv(run, j - 1);
      assert StepAt(run, j - 1);
      StepKeepsUserEntries(run[j - 1], run[j], name);
    }
  }

  /** A pointer file names a legacy directory that is not there. */
  predicate Dangles(s: Shared, file: StateFile, name: Name) {
    name.Legacy? && file in s.states && s.states[file].Directory() == Some(name) && name !in s.entries
  }

  /** Migration drops each pointer before the directory it names, so no step, and
      no crash between steps, leaves a pointer to a directory it deleted. */
  lemma StepLeavesNoDangling(w: World, v: World, file: StateFile, name: Name)
    requires Inv(w) && Step(w, v) && Dangles(v.shared, file, name)
    ensures Dangles(w.shared, file, name)
  {
    if !UserStep(w, v) {
      var p :| ProcessStep(w, p, v);
      assert Local(w.shared, w.stages[p]);
      ActLeavesNoDangling(w.shared, w.stages[p], v.shared, v.stages[p], file, name);
    }
  }

  lemma ActLeavesNoDangling(s: Shared, c: Stage, t: Shared, d: Stage, file: StateFile, name: Name)
    requires Local(s, c) && Act(s, c, t, d) && Dangles(t, file, name)
    ensures Dangles(s, file, name)
  {
    ActWritesOwn(s, c, t, d);
    PublishedIsSlot(s, c);
    if Mutates(c, name) {
      MutatedIsUnnamed(s, c, file, name);
    }
  }

  lemma PublishedIsSlot(s: Shared, c: Stage)
    requires Local(s, c)
    ensures c.Publishing? ==> c.slot.Slot?
  {
  }

  lemma MutatedIsUnnamed(s: Shared, c: Stage, file: StateFile, name: Name)
    requires Local(s, c) && Mutates(c, name) && name.Legacy?
    ensures file in s.states ==> s.states[file].Directory() != Some(name)
  {
  }

  lemma {:induction false} LegacyPointersNeverDangle(run: seq<World>, i: nat, file: StateFile, name: Name)
    requires Run(run) && i < |run| && Dangles(run[i].shared, file, name)
    ensures Dangles(run[0].shared, file, name)
  {
    hide Inv;
    hide Step;
    if i > 0 {
      RunKeepsInv(run, i - 1);
      assert StepAt(run, i - 1);
      StepLeavesNoDangling(run[i - 1], run[i], file, name);
      LegacyPointersNeverDangle(run, i - 1, file, name);
    }
  }
}
