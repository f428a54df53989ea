/** What a lease protects, over whole runs: contents that were there when it was created, and
    a name that was not. */
module EnvironmentLeases {
  import opened Basics
  import opened EnvironmentModel
  import opened EnvironmentProtocol
  import opened EnvironmentSafety
  import opened EnvironmentTheorems

  // ---------------------------------------------------------------- contents that were there

  lemma StepKeepsGrants(w: World, v: World)
    requires Step(w, v)
    ensures forall lease <- w.shared.grants ::
              lease in v.shared.grants && v.shared.grants[lease] == w.shared.grants[lease]
  {
    if !UserStep(w, v) {
      var p :| ProcessStep(w, p, v);
      if InSection(w.stages[p]) {
        InsideAdvances(w.shared, w.stages[p], v.shared, v.stages[p]);
      } else {
        OutsideLoosens(w.shared, w.stages[p], v.shared, v.stages[p]);
      }
    }
  }

  lemma {:induction false} RunKeepsGrants(run: seq<World>, i: nat, j: nat, lease: Lease)
    requires Run(run) && i <= j < |run|
    requires lease in run[i].shared.grants
    ensures lease in run[j].shared.grants && run[j].shared.grants[lease] == run[i].shared.grants[lease]
  {
    if i < j {
      RunKeepsGrants(run, i, j - 1, lease);
      assert StepAt(run, j - 1);
      StepKeepsGrants(run[j - 1], run[j]);
    }
  }

  /** A lease file appears only under the lock, and records what it protects. */
  lemma LeaseAppears(w: World, v: World, name: Name, lease: Lease)
    requires Step(w, v)
    requires lease !in LeaseFiles(w.shared.leases, name) && lease in LeaseFiles(v.shared.leases, name)
    ensures lease in v.shared.grants && v.shared.grants[lease] == Grant(name, Held(w.shared, name))
  {
    var p :| ProcessStep(w, p, v);
    var s, c, t, d := w.shared, w.stages[p], v.shared, v.stages[p];
    if InSection(c) && ProgramAct(s, c, t, d) {
      if Chooses(c) {
        ChoosingFootprint(s, c, t, d);
      } else if Installs(c) {
        InstallingFootprint(s, c, t, d);
      } else if Migrates(c) {
        MigratingFootprint(s, c, t, d);
      } else if Prunes(c) {
        PruningFootprint(s, c, t, d);
      }
    } else if !InSection(c) {
      OutsideLoosens(s, c, t, d);
    }
  }

  lemma LeaseAppearsAt(run: seq<World>, k: nat, name: Name, lease: Lease)
    requires Run(run) && k + 1 < |run|
    requires lease !in LeaseFiles(run[k].shared.leases, name)
    requires lease in LeaseFiles(run[k + 1].shared.leases, name)
    ensures lease in run[k + 1].shared.grants
    ensures run[k + 1].shared.grants[lease] == Grant(name, Held(run[k].shared, name))
  {
    assert StepAt(run, k);
    LeaseAppears(run[k], run[k + 1], name, lease);
  }

  lemma RunRecordsLeases(run: seq<World>, i: nat)
    requires Run(run) && i < |run|
    ensures LeasesRecorded(run[i].shared)
  {
    RunKeepsInv(run, i);
  }

  /** A directory that has a live lease is never cleared, rebuilt, pruned or migrated
      away: from the step that creates the lease file until the file is gone, it keeps
      the very contents it had. */
  lemma LeasedContentsNeverChange(run: seq<World>, k: nat, j: nat, name: Name, lease: Lease)
    requires Run(run) && k < j < |run|
    requires lease !in LeaseFiles(run[k].shared.leases, name)
    requires lease in LeaseFiles(run[k + 1].shared.leases, name)
    requires name in run[k].shared.entries
    requires lease in LeaseFiles(run[j].shared.leases, name)
    ensures name in run[j].shared.entries && run[j].shared.entries[name] == run[k].shared.entries[name]
  {
    LeaseAppearsAt(run, k, name, lease);
    RunKeepsGrants(run, k + 1, j, lease);
    RunRecordsLeases(run, j);
  }

  /** A command that selected its interpreter keeps its lease file and runs on a
      complete install for as long as it holds the lease. */
  lemma HolderRunsCompleteInstall(run: seq<World>, i: nat, p: Process)
    requires Run(run) && i < |run|
    requires p in run[i].stages && run[i].stages[p].Holding? && run[i].stages[p].selected
    ensures run[i].stages[p].lease in LeaseFiles(run[i].shared.leases, run[i].stages[p].target)
    ensures Installed(run[i].shared, run[i].stages[p].target)
  {
    RunKeepsInv(run, i);
    assert Local(run[i].shared, run[i].stages[p]);
    assert LeasesRecorded(run[i].shared);
  }

  // ---------------------------------------------------------------- names that were not there

  /** No removal of this name is under way or decided. */
  predicate Spares(c: Stage, name: Name) {
    match c
    case Retiring(_, _, _, victim) => victim != name
    case Scanning(_, _, stale, _) => name !in stale
    case Sweeping(stale, _) => name !in stale
    case SweepingOne(stale, victim, _) => victim != name && name !in stale
    case _ => true
  }

  /** Nor has an installation into this name passed its check of the directory. */
  predicate Settled(c: Stage, name: Name) {
    && Spares(c, name)
    && (c.Checking? && c.slot == name ==> name in c.todo)
    && (c.Invalidating? || c.Clearing? || c.Resolving? || c.Installing? ==> c.slot != name)
  }

  /** What a live lease makes of one step: no removal is decided on, and a directory that is
      there and settled stays as it is. */
  predicate Protects(s: Shared, c: Stage, t: Shared, d: Stage, name: Name) {
    && (Spares(c, name) ==> Spares(d, name))
    && (Settled(c, name) && name in s.entries ==> Settled(d, name) && Held(t, name) == Held(s, name))
    && (Spares(c, name) ==> Held(t, name) == Held(s, name) || Fills(c, name))
  }

  /** An installation into this name is at work. */
  predicate Fills(c: Stage, name: Name) {
    (c.Clearing? || c.Installing?) && c.slot == name
  }

  predicate Leased(s: Shared, name: Name, lease: Lease) {
    lease in LeaseFiles(s.leases, name)
  }

  lemma ChoosingProtects(s: Shared, c: Stage, t: Shared, d: Stage, name: Name, lease: Lease)
    requires Leased(s, name, lease) && Chooses(c) && SelectAct(s, c, t, d)
    ensures Protects(s, c, t, d, name)
  {
  }

  lemma InstallingProtects(s: Shared, c: Stage, t: Shared, d: Stage, name: Name, lease: Lease)
    requires Leased(s, name, lease) && Installs(c) && InstallAct(s, c, t, d)
    ensures Protects(s, c, t, d, name)
  {
  }

  lemma MigratingProtects(s: Shared, c: Stage, t: Shared, d: Stage, name: Name, lease: Lease)
    requires Leased(s, name, lease) && Migrates(c) && MigrateAct(s, c, t, d)
    ensures Protects(s, c, t, d, name)
  {
  }

  lemma LeasingProtects(s: Shared, c: Stage, t: Shared, d: Stage, name: Name, lease: Lease)
    requires Leased(s, name, lease) && Leases(c) && LeaseAct(s, c, t, d)
    ensures Protects(s, c, t, d, name)
  {
  }

  lemma PruningProtects(s: Shared, c: Stage, t: Shared, d: Stage, name: Name, lease: Lease)
    requires Leased(s, name, lease) && Prunes(c) && PruneAct(s, c, t, d)
    ensures Protects(s, c, t, d, name)
  {
  }

  lemma OutsideProtects(s: Shared, c: Stage, t: Shared, d: Stage, name: Name)
    requires !InSection(c) && !c.Crashed? && OutsideAct(s, c, t, d)
    ensures Protects(s, c, t, d, name)
  {
  }

  lemma LeavingProtects(s: Shared, c: Stage, t: Shared, d: Stage, name: Name)
    requires t.entries == s.entries && (d.Crashed? || (c.Unlocking? && d == Resume(c.after)))
    ensures Protects(s, c, t, d, name)
  {
  }

  lemma ActProtects(s: Shared, c: Stage, t: Shared, d: Stage, name: Name, lease: Lease)
    requires Leased(s, name, lease) && Act(s, c, t, d)
    ensures Protects(s, c, t, d, name)
  {
    hide SelectAct;
    hide InstallAct;
    hide MigrateAct;
    hide LeaseAct;
    hide PruneAct;
    hide OutsideAct;
    hide Protects;
    if !ProgramAct(s, c, t, d) {
      LeavingProtects(s, c, t, d, name);
    } else if Chooses(c) {
      ChoosingProtects(s, c, t, d, name, lease);
    } else if Installs(c) {
      InstallingProtects(s, c, t, d, name, lease);
    } else if Migrates(c) {
      MigratingProtects(s, c, t, d, name, lease);
    } else if Leases(c) {
      LeasingProtects(s, c, t, d, name, lease);
    } else if Prunes(c) {
      PruningProtects(s, c, t, d, name, lease);
    } else if c.Unlocking? {
      LeavingProtects(s, c, t, d, name);
    } else {
      OutsideProtects(s, c, t, d, name);
    }
  }

  ghost predicate AllSpare(w: World, name: Name) {
    forall p <- w.stages :: Spares(w.stages[p], name)
  }

  ghost predicate AllSettled(w: World, name: Name) {
    forall p <- w.stages :: Settled(w.stages[p], name)
  }

  lemma StepProtects(w: World, v: World, name: Name, lease: Lease)
    requires Step(w, v) && Leased(w.shared, name, lease) && AllSpare(w, name)
    ensures AllSpare(v, name)
    ensures AllSettled(w, name) && name in w.shared.entries ==>
              AllSettled(v, name) && Held(v.shared, name) == Held(w.shared, name)
    ensures Held(v.shared, name) == Held(w.shared, name) || exists p <- w.stages :: Fills(w.stages[p], name)
  {
    hide Act;
    if !UserStep(w, v) {
      var p :| ProcessStep(w, p, v);
      ActProtects(w.shared, w.stages[p], v.shared, v.stages[p], name, lease);
    }
  }

  ghost predicate LeasedThroughout(run: seq<World>, m: nat, n: nat, name: Name, lease: Lease) {
    m <= n < |run| && forall i | m <= i <= n :: Leased(run[i].shared, name, lease)
  }

  /** At the moment a lease is created, nobody is about to touch its directory. */
  lemma CreationSettles(run: seq<World>, k: nat, name: Name, lease: Lease)
    requires Run(run) && k + 1 < |run|
    requires !Leased(run[k].shared, name, lease) && Leased(run[k + 1].shared, name, lease)
    ensures AllSettled(run[k + 1], name) && AllSpare(run[k + 1], name)
  {
    RunKeepsInv(run, k);
    assert StepAt(run, k);
    LeaseIsCreated(run[k], run[k + 1], name, lease);
  }

  lemma LeaseIsCreated(w: World, v: World, name: Name, lease: Lease)
    requires Exclusive(w) && Step(w, v) && !Leased(w.shared, name, lease) && Leased(v.shared, name, lease)
    ensures AllSettled(v, name) && AllSpare(v, name)
  {
    hide Act;
    var p :| ProcessStep(w, p, v);
    CreatorReadsNext(w.shared, w.stages[p], v.shared, v.stages[p], name, lease);
    forall q <- v.stages ensures Settled(v.stages[q], name) {
      if q != p {
        OutsideIsSettled(w.stages[q], name);
      }
    }
  }

  lemma OutsideIsSettled(c: Stage, name: Name)
    ensures !InSection(c) ==> Settled(c, name)
  {
  }

  lemma CreatorReadsNext(s: Shared, c: Stage, t: Shared, d: Stage, name: Name, lease: Lease)
    requires Act(s, c, t, d) && !Leased(s, name, lease) && Leased(t, name, lease)
    ensures InSection(c) && d.ReadingPointers?
  {
    hide SelectAct;
    hide InstallAct;
    hide MigrateAct;
    hide PruneAct;
    if !InSection(c) {
      OutsideLoosens(s, c, t, d);
    } else if ProgramAct(s, c, t, d) {
      if Chooses(c) {
        ChoosingFootprint(s, c, t, d);
      } else if Installs(c) {
        InstallingFootprint(s, c, t, d);
      } else if Migrates(c) {
        MigratingFootprint(s, c, t, d);
      } else if Prunes(c) {
        PruningFootprint(s, c, t, d);
      }
    }
  }

  lemma {:induction false} LeaseKeepsSpared(run: seq<World>, k: nat, m: nat, name: Name, lease: Lease)
    requires Run(run) && k < m && LeasedThroughout(run, k + 1, m, name, lease)
    requires !Leased(run[k].shared, name, lease)
    ensures AllSpare(run[m], name)
    decreases m
  {
    hide AllSpare;
    hide Step;
    if m == k + 1 {
      CreationSettles(run, k, name, lease);
    } else {
      LeaseKeepsSpared(run, k, m - 1, name, lease);
      assert StepAt(run, m - 1);
      StepProtects(run[m - 1], run[m], name, lease);
    }
  }

  /** While a lease is live its name is never pruned or migrated away, whether or not the
      directory was there when the lease was created: a step that changes what is at the name
      is one of an installation into it. */
  lemma LeasedNameIsOnlyFilled(run: seq<World>, k: nat, m: nat, name: Name, lease: Lease)
    requires Run(run) && k < m && LeasedThroughout(run, k + 1, m, name, lease) && m + 1 < |run|
    requires !Leased(run[k].shared, name, lease)
    ensures Held(run[m + 1].shared, name) == Held(run[m].shared, name) ||
            exists p <- run[m].stages :: Fills(run[m].stages[p], name)
  {
    hide AllSpare;
    hide Step;
    LeaseKeepsSpared(run, k, m, name, lease);
    assert StepAt(run, m);
    StepProtects(run[m], run[m + 1], name, lease);
  }

  /** And such an installation found the name empty: once the directory is there and no
      installation has passed its check, nothing clears, replaces or removes it while the
      lease is live. */
  lemma {:induction false} LeasedDirectoryIsFrozen(run: seq<World>, m: nat, n: nat, name: Name, lease: Lease)
    requires Run(run) && LeasedThroughout(run, m, n, name, lease)
    requires name in run[m].shared.entries && AllSettled(run[m], name)
    ensures Held(run[n].shared, name) == Held(run[m].shared, name) && AllSettled(run[n], name)
    decreases n
  {
    hide AllSettled;
    hide AllSpare;
    hide Step;
    if m < n {
      LeasedDirectoryIsFrozen(run, m, n - 1, name, lease);
      SettledSpares(run[n - 1], name);
      assert StepAt(run, n - 1);
      StepProtects(run[n - 1], run[n], name, lease);
    }
  }

  lemma SettledSpares(w: World, name: Name)
    requires AllSettled(w, name)
    ensures AllSpare(w, name)
  {
  }
}
