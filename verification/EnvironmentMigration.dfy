/** What a migration does over whole runs: where the editor link leads afterwards, which legacy
    directories are left, and how it ends. */
module EnvironmentMigration {
  import opened Basics
  import opened EnvironmentModel
  import opened EnvironmentProtocol
  import opened EnvironmentSafety
  import opened EnvironmentTheorems
  import opened EnvironmentChoices

  // ---------------------------------------------------------------- the editor link

  /** The part of a migration behind the link. */
  predicate Followed(c: Stage) {
    c.Dropping? || c.Migrating? || c.Retiring?
  }

  lemma FollowingMoves(s: Shared, job: Job, slot: Name, t: Shared, d: Stage)
    requires slot.Slot? && Act(s, Following(job, slot), t, d) && d.Dropping?
    ensures LinkMoved(s.link, slot, t.link)
  {
  }

  lemma OthersKeepLink(w: World, v: World, p: Process)
    requires Inv(w) && Step(w, v) && p in w.stages && Followed(w.stages[p])
    requires UserStep(w, v) ==> v.shared.link == w.shared.link
    ensures v.shared.link == w.shared.link
  {
    if !UserStep(w, v) {
      var q :| ProcessStep(w, q, v);
      assert InSection(w.stages[p]);
      assert InSection(w.stages[q]) ==> q == p;
      OnlyFollowingMoves(w.shared, w.stages[q], v.shared, v.stages[q]);
    }
  }

  lemma ChoosingKeepsLink(s: Shared, c: Stage, t: Shared, d: Stage)
    requires Chooses(c) && SelectAct(s, c, t, d)
    ensures t.link == s.link
  {
  }

  lemma InstallingKeepsLink(s: Shared, c: Stage, t: Shared, d: Stage)
    requires Installs(c) && InstallAct(s, c, t, d)
    ensures t.link == s.link
  {
  }

  lemma MigratingKeepsLink(s: Shared, c: Stage, t: Shared, d: Stage)
    requires Migrates(c) && !c.Following? && MigrateAct(s, c, t, d)
    ensures t.link == s.link
  {
  }

  lemma LeasingKeepsLink(s: Shared, c: Stage, t: Shared, d: Stage)
    requires Leases(c) && LeaseAct(s, c, t, d)
    ensures t.link == s.link
  {
  }

  lemma PruningKeepsLink(s: Shared, c: Stage, t: Shared, d: Stage)
    requires Prunes(c) && PruneAct(s, c, t, d)
    ensures t.link == s.link
  {
  }

  lemma OutsideKeepsLink(s: Shared, c: Stage, t: Shared, d: Stage)
    requires !InSection(c) && !c.Crashed? && OutsideAct(s, c, t, d)
    ensures t.link == s.link
  {
  }

  lemma OnlyFollowingMoves(s: Shared, c: Stage, t: Shared, d: Stage)
    requires Act(s, c, t, d) && !c.Following?
    ensures t.link == s.link
  {
    hide SelectAct, InstallAct, MigrateAct, LeaseAct, PruneAct, OutsideAct;
    if ProgramAct(s, c, t, d) {
      if Chooses(c) {
        ChoosingKeepsLink(s, c, t, d);
      } else if Installs(c) {
        InstallingKeepsLink(s, c, t, d);
      } else if Migrates(c) {
        MigratingKeepsLink(s, c, t, d);
      } else if Leases(c) {
        LeasingKeepsLink(s, c, t, d);
      } else if Prunes(c) {
        PruningKeepsLink(s, c, t, d);
      } else if !c.Unlocking? {
        OutsideKeepsLink(s, c, t, d);
      }
    }
  }

  /** From the step that deals with the link to the end of the migration, and while only the
      user could repoint it: a link to the family's slots or to a legacy directory leads to the
      selected slot, every other link is as it was, and none leads to a directory that the
      migration removes. */
  lemma {:induction false} MigrationMovesLink(run: seq<World>, i: nat, j: nat, p: Process, job: Job, slot: Name)
    requires Run(run) && i < j < |run| && At(run[i], p, Following(job, slot))
    requires forall k | i < k <= j :: p in run[k].stages && Followed(run[k].stages[p])
    requires forall k | i < k < j :: UserStep(run[k], run[k + 1]) ==> run[k + 1].shared.link == run[k].shared.link
    ensures LinkMoved(run[i].shared.link, slot, run[j].shared.link)
    ensures !LinksLegacy(run[j].shared.link)
  {
    hide Act, Inv, Step;
    RunKeepsInv(run, j - 1);
    if i + 1 == j {
      OwnStep(run, i, p);
      SlotIsSlot(run[i], p);
      FirstMove(run[i], run[j], p, job, slot);
    } else {
      MigrationMovesLink(run, i, j - 1, p, job, slot);
      assert StepAt(run, j - 1);
      OthersKeepLink(run[j - 1], run[j], p);
    }
  }

  lemma SlotIsSlot(w: World, p: Process)
    requires Inv(w) && p in w.stages && w.stages[p].Following?
    ensures w.stages[p].slot.Slot?
  {
    assert Local(w.shared, w.stages[p]);
  }

  lemma FirstMove(w: World, v: World, p: Process, job: Job, slot: Name)
    requires ProcessStep(w, p, v) && At(w, p, Following(job, slot)) && slot.Slot? && Followed(v.stages[p])
    ensures LinkMoved(w.shared.link, slot, v.shared.link) && !LinksLegacy(v.shared.link)
  {
    FollowingMoves(w.shared, job, slot, v.shared, v.stages[p]);
  }

  /** A migration that is through ends in a lease on the selected slot for a command that asked
      for one, and otherwise outside the lock. */
  lemma MigrationEndsInLease(run: seq<World>, i: nat, p: Process, job: Job, slot: Name)
    requires Run(run) && i + 1 < |run| && At(run[i], p, Migrating(job, slot, {})) && p in run[i + 1].stages
    requires run[i + 1].stages[p] != run[i].stages[p] && !run[i + 1].stages[p].Crashed?
    ensures run[i + 1].stages[p] == if job.lease then EnsuringLease(slot, true) else Unlocking(Done)
  {
    OwnStep(run, i, p);
  }

  // ---------------------------------------------------------------- what a migration leaves

  /** Somebody leased the directory, or it was no directory, at some moment of the stretch. */
  predicate WasKept(run: seq<World>, i: nat, j: nat, name: Name)
    requires j < |run|
  {
    exists k | i < k <= j :: !Unleased(run[k].shared.entries, run[k].shared.leases, name)
  }

  /** A migration has still to deal with the directory. */
  predicate Pending(c: Stage, name: Name) {
    (c.Migrating? && name in c.todo) || (c.Retiring? && (name in c.todo || name == c.victim))
  }

  predicate Sweeps(c: Stage) { c.Migrating? || c.Retiring? }

  /** Legacy names that are still there are still to be dealt with, or were kept for a reason. */
  predicate SweptSoFar(run: seq<World>, i: nat, j: nat, c: Stage)
    requires j < |run|
  {
    forall name <- run[j].shared.entries | name.Legacy? :: WasKept(run, i, j, name) || Pending(c, name)
  }

  lemma SweepMoves(s: Shared, c: Stage, t: Shared, d: Stage, name: Name)
    requires Sweeps(c) && Sweeps(d) && MigrateAct(s, c, t, d) && name in t.entries && name.Legacy?
    ensures name in s.entries || Pending(c, name)
    ensures Pending(c, name) ==> Pending(d, name) || !Unleased(t.entries, t.leases, name)
  {
  }

  lemma SweepingGoesOn(w: World, v: World, p: Process, name: Name)
    requires Inv(w) && Step(w, v) && p in w.stages && p in v.stages && Sweeps(w.stages[p]) && Sweeps(v.stages[p])
    requires name in v.shared.entries && name.Legacy?
    ensures name in w.shared.entries || Pending(w.stages[p], name)
    ensures Pending(w.stages[p], name) ==>
              Pending(v.stages[p], name) || !Unleased(v.shared.entries, v.shared.leases, name)
  {
    hide SelectAct, InstallAct, MigrateAct, LeaseAct, PruneAct, OutsideAct;
    if !UserStep(w, v) {
      var q :| ProcessStep(w, q, v);
      var s, c, t, d := w.shared, w.stages[q], v.shared, v.stages[q];
      assert InSection(w.stages[p]);
      assert InSection(c) ==> q == p;
      if q == p {
        SweepMoves(s, c, t, d, name);
      } else if ProgramAct(s, c, t, d) {
        OutsideKeepsVacant(s, c, t, d, name);
      }
    }
  }

  lemma SweepBegins(s: Shared, job: Job, slot: Name, t: Shared, d: Stage)
    requires Act(s, Dropping(job, slot, {}), t, d) && Sweeps(d)
    ensures d.Migrating? && d.todo == t.entries.Keys
  {
  }

  lemma {:induction false} SweptAtEveryMoment(run: seq<World>, i: nat, j: nat, p: Process, job: Job, slot: Name)
    requires Run(run) && i < j < |run| && At(run[i], p, Dropping(job, slot, {}))
    requires forall k | i < k <= j :: p in run[k].stages && Sweeps(run[k].stages[p])
    ensures SweptSoFar(run, i, j, run[j].stages[p])
  {
    hide Act, Inv, Step, Unleased;
    if j == i + 1 {
      OwnStep(run, i, p);
      SweepBegins(run[i].shared, job, slot, run[j].shared, run[j].stages[p]);
    } else {
      SweptAtEveryMoment(run, i, j - 1, p, job, slot);
      RunKeepsInv(run, j - 1);
      assert StepAt(run, j - 1);
      forall name <- run[j].shared.entries | name.Legacy?
        ensures WasKept(run, i, j, name) || Pending(run[j].stages[p], name)
      {
        SweepingGoesOn(run[j - 1], run[j], p, name);
      }
    }
  }

  /** In every run, when a migration is through with the legacy directories, each one that is
      left was leased, or was no directory, at some moment of it. */
  lemma LegacyLeftWasKept(run: seq<World>, i: nat, j: nat, p: Process, job: Job, slot: Name, name: Name)
    requires Run(run) && i < j < |run| && At(run[i], p, Dropping(job, slot, {}))
    requires forall k | i < k <= j :: p in run[k].stages && Sweeps(run[k].stages[p])
    requires At(run[j], p, Migrating(job, slot, {})) && name in run[j].shared.entries && name.Legacy?
    ensures exists k | i < k <= j ::
              name !in run[k].shared.entries || run[k].shared.entries[name].UserOwned?
                || (name in run[k].shared.leases && run[k].shared.leases[name] != LeaseDirectory({}))
  {
    hide Run;
    SweptAtEveryMoment(run, i, j, p, job, slot);
    var k :| i < k <= j && !Unleased(run[k].shared.entries, run[k].shared.leases, name);
  }
}
