/** What every schedule of the deployment pool guarantees. */
module DeployPoolTheorems {
  import opened DeployPool

  // ---------------------------------------------------------------- the invariant holds in every run

  lemma StartFits(plan: Plan)
    ensures Inv(plan, Start(plan))
  {
    forall i: nat | i < plan.bundles ensures JobFits(plan, Start(plan), i) {
    }
  }

  lemma ProducerKeepsInv(plan: Plan, s: Pool, t: Pool)
    requires Inv(plan, s) && ProducerStep(plan, s, t)
    ensures Inv(plan, t)
  {
    forall i: nat | i < plan.bundles ensures JobFits(plan, t, i) && (t.fates[i].Handed? ==> Owned(t, i)) {
      assert JobFits(plan, s, i) && (s.fates[i].Handed? ==> Owned(s, i));
    }
  }

  /** A step of worker `w` changes the records of its own job only. */
  ghost predicate OnlyJob(s: Pool, w: nat, t: Pool, job: int)
  {
    && |t.workers| == |s.workers| && |t.fates| == |s.fates| && |t.errors| == |s.errors|
    && |t.calls| == |s.calls| && |t.compiled| == |s.compiled| && |t.deploys| == |s.deploys|
    && t.producer == s.producer && t.parent == s.parent
    && (s.flag ==> t.flag) && (s.cancelled ==> t.cancelled)
    && (forall v | 0 <= v < |s.workers| && v != w :: t.workers[v] == s.workers[v])
    && (forall i | 0 <= i < |s.fates| && i != job :: t.fates[i] == s.fates[i])
    && (forall i | 0 <= i < |s.deploys| && i != job :: t.deploys[i] == s.deploys[i])
    && (forall i | 0 <= i < |s.calls| && i != job :: t.calls[i] == s.calls[i])
    && (forall i | 0 <= i < |s.compiled| && i != job :: t.compiled[i] == s.compiled[i])
    && (forall i | 0 <= i < |s.errors| && i != job :: t.errors[i] == s.errors[i])
  }

  lemma WorkerIsLocal(plan: Plan, s: Pool, w: nat, t: Pool)
    requires Shaped(plan, s) && w < |s.workers| && WorkerStep(plan, s, w, t)
    ensures OnlyJob(s, w, t, Job(s.workers[w]))
  {
    if s.workers[w].Working? { WorkIsLocal(plan, s, w, t); }
  }

  lemma WorkIsLocal(plan: Plan, s: Pool, w: nat, t: Pool)
    requires Shaped(plan, s) && w < |s.workers| && WorkerStep(plan, s, w, t) && s.workers[w].Working?
    ensures OnlyJob(s, w, t, Job(s.workers[w]))
  {
    var called := Called(s, s.workers[w].index, s.workers[w].operation);
    assert OnlyJob(s, w, called.(workers := t.workers), s.workers[w].index);
  }

  /** What a step makes of the worker and of its job. */
  ghost predicate OwnJobFits(plan: Plan, s: Pool, w: nat, t: Pool)
    requires Shaped(plan, s) && w < |s.workers|
  {
    var job := Job(s.workers[w]);
    && Shaped(plan, t) && WorkerFits(plan, t, t.workers[w])
    && (Undecided(t.workers[w]) ==> Undecided(s.workers[w]) && Job(t.workers[w]) == job)
    && (t.workers[w].Exited? ==> t.producer.Closed? || t.cancelled || t.flag)
    && (0 <= job < plan.bundles ==>
          && JobFits(plan, t, job) && !t.fates[job].Unoffered? && (t.fates[job].Handed? ==> s.fates[job].Handed?)
          && (t.fates[job].Handed? && Undecided(s.workers[w]) ==> Undecided(t.workers[w])))
  }

  lemma AskingKeepsOwnJob(plan: Plan, s: Pool, w: nat, t: Pool)
    requires Inv(plan, s) && w < |s.workers| && WorkerStep(plan, s, w, t)
    requires s.workers[w].AskingContext? || s.workers[w].AskingFlag?
    ensures OwnJobFits(plan, s, w, t)
  {
    assert WorkerFits(plan, s, s.workers[w]) && JobFits(plan, s, Job(s.workers[w]));
  }

  lemma WorkingKeepsOwnJob(plan: Plan, s: Pool, w: nat, t: Pool)
    requires Inv(plan, s) && w < |s.workers| && WorkerStep(plan, s, w, t)
    requires s.workers[w].Working?
    ensures OwnJobFits(plan, s, w, t)
  {
    assert WorkerFits(plan, s, s.workers[w]) && JobFits(plan, s, Job(s.workers[w]));
  }

  lemma WorkerKeepsOwnJob(plan: Plan, s: Pool, w: nat, t: Pool)
    requires Inv(plan, s) && w < |s.workers| && WorkerStep(plan, s, w, t)
    ensures OwnJobFits(plan, s, w, t)
  {
    if s.workers[w].AskingContext? || s.workers[w].AskingFlag? {
      AskingKeepsOwnJob(plan, s, w, t);
    } else if s.workers[w].Working? {
      WorkingKeepsOwnJob(plan, s, w, t);
    } else {
      assert WorkerFits(plan, s, s.workers[w]);
      assert 0 <= Job(s.workers[w]) < plan.bundles ==> JobFits(plan, s, Job(s.workers[w]));
    }
  }

  lemma WorkerKeepsWorkers(plan: Plan, s: Pool, w: nat, t: Pool)
    requires Inv(plan, s) && w < |s.workers| && WorkerStep(plan, s, w, t)
    ensures Shaped(plan, t) && WorkersFit(plan, t)
  {
    hide WorkerStep;
    var job := Job(s.workers[w]);
    WorkerIsLocal(plan, s, w, t);
    WorkerKeepsOwnJob(plan, s, w, t);
    forall v | 0 <= v < |t.workers| && v != w ensures WorkerFits(plan, t, t.workers[v]) {
      assert WorkerFits(plan, s, s.workers[v]) && WorkerFits(plan, s, s.workers[w]);
      if Job(s.workers[v]) == job && 0 <= job {
        OtherWorkerSameJob(plan, s, v, w, t);
      }
    }
  }

  /** Two workers can share an index only once its failure is recorded, and then nothing changes. */
  lemma OtherWorkerSameJob(plan: Plan, s: Pool, v: nat, w: nat, t: Pool)
    requires Inv(plan, s) && v < |s.workers| && w < |s.workers| && v != w && WorkerStep(plan, s, w, t)
    requires Job(s.workers[v]) == Job(s.workers[w]) && 0 <= Job(s.workers[v])
    ensures Shaped(plan, t) && WorkerFits(plan, t, s.workers[v])
  {
    assert WorkerFits(plan, s, s.workers[v]) && WorkerFits(plan, s, s.workers[w]);
    assert !(Undecided(s.workers[v]) && Undecided(s.workers[w]));
  }

  lemma WorkerKeepsJobs(plan: Plan, s: Pool, w: nat, t: Pool)
    requires Inv(plan, s) && w < |s.workers| && WorkerStep(plan, s, w, t)
    ensures Shaped(plan, t) && JobsFit(plan, t) && ProducerFits(plan, t)
  {
    hide WorkerStep;
    hide GapCovered;
    hide FailureCovered;
    WorkerIsLocal(plan, s, w, t);
    WorkerKeepsOwnJob(plan, s, w, t);
    assert WorkerFits(plan, s, s.workers[w]);
    forall i: nat | i < plan.bundles ensures JobFits(plan, t, i) && (t.fates[i].Handed? ==> Owned(t, i)) {
      assert JobFits(plan, s, i) && (s.fates[i].Handed? ==> Owned(s, i));
      if i != Job(s.workers[w]) {
        OtherJobFits(plan, s, w, t, i);
      }
      if t.fates[i].Handed? {
        assert s.fates[i].Handed?;
        var v :| 0 <= v < |s.workers| && Undecided(s.workers[v]) && Job(s.workers[v]) == i;
        assert Undecided(t.workers[v]) && Job(t.workers[v]) == i;
      }
    }
  }

  lemma OtherJobFits(plan: Plan, s: Pool, w: nat, t: Pool, i: nat)
    requires Shaped(plan, s) && Shaped(plan, t) && i < plan.bundles && JobFits(plan, s, i)
    requires w < |s.workers| && OnlyJob(s, w, t, Job(s.workers[w])) && i != Job(s.workers[w])
    ensures JobFits(plan, t, i)
  {
  }

  lemma WorkerKeepsStop(plan: Plan, s: Pool, w: nat, t: Pool)
    requires Inv(plan, s) && w < |s.workers| && WorkerStep(plan, s, w, t)
    ensures Shaped(plan, t) && StopFits(plan, t)
  {
    assert WorkerFits(plan, s, s.workers[w]);
    if s.workers[w].Flagging? {
      assert t.workers[w].Cancelling?;
      assert JobFits(plan, s, s.workers[w].index);
      assert t.errors[s.workers[w].index];
    } else if s.flag {
      var i :| 0 <= i < plan.bundles && s.errors[i];
      assert t.errors[i];
      if !s.cancelled {
        var v :| 0 <= v < |s.workers| && s.workers[v].Cancelling?;
        assert v == w || t.workers[v].Cancelling?;
      }
    }
  }

  lemma WorkerKeepsFailures(plan: Plan, s: Pool, w: nat, t: Pool)
    requires Inv(plan, s) && w < |s.workers| && WorkerStep(plan, s, w, t)
    ensures Shaped(plan, t) && FailureCovered(plan, t)
  {
    WorkerIsLocal(plan, s, w, t);
    if plan.failFast && s.workers[w].Recording? {
      assert t.workers[w].Flagging?;
    } else if plan.failFast && exists i :: 0 <= i < plan.bundles && t.errors[i] {
      var i :| 0 <= i < plan.bundles && t.errors[i];
      assert s.errors[i];
      if !s.flag {
        var v :| 0 <= v < |s.workers| && s.workers[v].Flagging?;
        assert v == w || t.workers[v].Flagging?;
      }
    }
  }

  lemma OthersKeepFailures(plan: Plan, s: Pool, t: Pool)
    requires Shaped(plan, s) && FailureCovered(plan, s) && Shaped(plan, t) && t.errors == s.errors && t.flag == s.flag
    requires forall v | 0 <= v < |s.workers| && s.workers[v].Flagging? :: t.workers[v] == s.workers[v]
    ensures FailureCovered(plan, t)
  {
    if plan.failFast && (exists i :: 0 <= i < plan.bundles && s.errors[i]) && !s.flag {
      var v :| 0 <= v < |s.workers| && s.workers[v].Flagging?;
      assert t.workers[v].Flagging?;
    }
  }

  lemma HandOffKeepsWorkers(plan: Plan, s: Pool, w: nat, t: Pool)
    requires Inv(plan, s) && HandOff(plan, s, w, t)
    ensures Shaped(plan, t) && WorkersFit(plan, t)
  {
    hide JobsFit;
    hide StopFits;
    hide FailureCovered;
    var next := s.producer.next;
    NextIsUntouched(plan, s);
    forall v | 0 <= v < |t.workers| ensures WorkerFits(plan, t, t.workers[v]) {
      assert WorkerFits(plan, s, s.workers[v]);
    }
    forall v, u | 0 <= v < u < |t.workers| && Undecided(t.workers[v]) && Undecided(t.workers[u])
      ensures Job(t.workers[v]) != Job(t.workers[u])
    {
      assert WorkerFits(plan, s, s.workers[v]) && WorkerFits(plan, s, s.workers[u]);
    }
  }

  lemma NextIsUntouched(plan: Plan, s: Pool)
    requires Inv(plan, s) && s.producer.Offering?
    ensures var i := s.producer.next;
            i < plan.bundles && s.fates[i].Unoffered? && s.calls[i] == s.compiled[i] == s.deploys[i] == 0
  {
    assert JobFits(plan, s, s.producer.next);
  }

  lemma HandOffKeepsJobs(plan: Plan, s: Pool, w: nat, t: Pool)
    requires Inv(plan, s) && HandOff(plan, s, w, t)
    ensures Shaped(plan, t) && JobsFit(plan, t) && ProducerFits(plan, t)
  {
    hide StopFits;
    hide FailureCovered;
    hide WorkersFit;
    var next := s.producer.next;
    forall i: nat | i < plan.bundles ensures JobFits(plan, t, i) && (t.fates[i].Handed? ==> Owned(t, i)) {
      assert JobFits(plan, s, i) && (s.fates[i].Handed? ==> Owned(s, i));
      if i == next {
        assert Undecided(t.workers[w]) && Job(t.workers[w]) == i;
      } else if t.fates[i].Handed? {
        var v :| 0 <= v < |s.workers| && Undecided(s.workers[v]) && Job(s.workers[v]) == i;
        assert Undecided(t.workers[v]) && Job(t.workers[v]) == i;
      }
    }
  }

  lemma HandOffKeepsInv(plan: Plan, s: Pool, w: nat, t: Pool)
    requires Inv(plan, s) && HandOff(plan, s, w, t)
    ensures Inv(plan, t)
  {
    hide JobsFit;
    hide WorkersFit;
    hide ProducerFits;
    HandOffKeepsWorkers(plan, s, w, t);
    HandOffKeepsJobs(plan, s, w, t);
    if t.flag && !t.cancelled {
      var v :| 0 <= v < |s.workers| && s.workers[v].Cancelling?;
      assert t.workers[v].Cancelling?;
    }
    OthersKeepFailures(plan, s, t);
  }

  lemma ParentKeepsInv(plan: Plan, s: Pool, t: Pool)
    requires Inv(plan, s) && ParentCancels(s, t)
    ensures Inv(plan, t)
  {
    forall v | 0 <= v < |t.workers| ensures WorkerFits(plan, t, t.workers[v]) {
      assert WorkerFits(plan, s, s.workers[v]);
    }
    forall i: nat | i < plan.bundles ensures JobFits(plan, t, i) && (t.fates[i].Handed? ==> Owned(t, i)) {
      assert JobFits(plan, s, i) && (s.fates[i].Handed? ==> Owned(s, i));
    }
  }

  lemma StepKeepsInv(plan: Plan, s: Pool, t: Pool)
    requires Inv(plan, s) && Step(plan, s, t)
    ensures Inv(plan, t)
  {
    if ParentCancels(s, t) {
      ParentKeepsInv(plan, s, t);
    } else if ProducerStep(plan, s, t) {
      ProducerKeepsInv(plan, s, t);
    } else if w: nat :| w < |s.workers| && WorkerStep(plan, s, w, t) {
      WorkerKeepsWorkers(plan, s, w, t);
      WorkerKeepsJobs(plan, s, w, t);
      WorkerKeepsStop(plan, s, w, t);
      WorkerKeepsFailures(plan, s, w, t);
    } else {
      var w: nat :| w < |s.workers| && HandOff(plan, s, w, t);
      HandOffKeepsInv(plan, s, w, t);
    }
  }

  // ---------------------------------------------------------------- runs

  ghost predicate StepAt(plan: Plan, run: seq<Pool>, i: nat)
    requires i + 1 < |run|
  {
    Shaped(plan, run[i]) && Step(plan, run[i], run[i + 1])
  }

  ghost predicate Run(plan: Plan, run: seq<Pool>) {
    |run| > 0 && run[0] == Start(plan) && forall i: nat | i + 1 < |run| :: StepAt(plan, run, i)
  }

  lemma {:induction false} RunKeepsInv(plan: Plan, run: seq<Pool>, i: nat)
    requires Run(plan, run) && i < |run|
    ensures Inv(plan, run[i])
  {
    if i == 0 {
      StartFits(plan);
    } else {
      RunKeepsInv(plan, run, i - 1);
      assert StepAt(plan, run, i - 1);
      StepKeepsInv(plan, run[i - 1], run[i]);
    }
  }

  // ---------------------------------------------------------------- the result

  datatype Problem = BundleProblem(index: nat) | ContextProblem

  /** The recorded errors in discovery order. */
  function Recorded(errors: seq<bool>): seq<Problem>
  {
    if errors == [] then []
    else Recorded(errors[..|errors| - 1]) + if errors[|errors| - 1] then [BundleProblem(|errors| - 1)] else []
  }

  function Joined(s: Pool): seq<Problem> {
    Recorded(s.errors) + if s.cancelled && !s.flag then [ContextProblem] else []
  }

  method JoinErrors(errors: seq<bool>, cancelled: bool, flag: bool) returns (joined: seq<Problem>)
    ensures joined == Recorded(errors) + if cancelled && !flag then [ContextProblem] else []
  {
    joined := [];
    for i := 0 to |errors|
      invariant joined == Recorded(errors[..i])
    {
      assert errors[..i + 1][..i] == errors[..i];
      if errors[i] {
        joined := joined + [BundleProblem(i)];
      }
    }
    assert errors[..|errors|] == errors;
    if cancelled && !flag {
      joined := joined + [ContextProblem];
    }
  }

  /** Exactly the failed bundles, each once, in discovery order. */
  lemma {:induction false} RecordedExactly(errors: seq<bool>)
    ensures forall i: nat :: BundleProblem(i) in Recorded(errors) <==> i < |errors| && errors[i]
    ensures ContextProblem !in Recorded(errors)
    ensures forall j, k | 0 <= j < k < |Recorded(errors)| :: Recorded(errors)[j].index < Recorded(errors)[k].index
  {
    if errors != [] {
      RecordedExactly(errors[..|errors| - 1]);
      var earlier := Recorded(errors[..|errors| - 1]);
      forall j | 0 <= j < |earlier| ensures earlier[j].index < |errors| - 1 {
        assert earlier[j] in earlier;
      }
    }
  }

  lemma FinishedFates(plan: Plan, s: Pool, i: nat)
    requires Inv(plan, s) && Finished(s) && i < plan.bundles
    ensures s.fates[i].Deployed? || s.fates[i].Failed? ||
              ((s.fates[i].Dropped? || s.fates[i].Unoffered?) && (s.cancelled || s.flag))
    ensures JobFits(plan, s, i)
    ensures s.flag ==> s.cancelled
  {
    assert JobFits(plan, s, i) && (s.fates[i].Handed? ==> Owned(s, i));
  }

  /** The state in which `joinErrors` runs. */
  ghost predicate Ends(plan: Plan, run: seq<Pool>, s: Pool) {
    Run(plan, run) && s == run[|run| - 1] && Finished(s)
  }

  /** Every bundle was deployed once, with success, and before that compiled once, with success,
      if bundles are compiled at all. */
  predicate AllDeployed(plan: Plan, s: Pool) {
    Shaped(plan, s) && forall i | 0 <= i < plan.bundles :: DeployedWell(plan, s, i)
  }

  predicate DeployedWell(plan: Plan, s: Pool, i: nat)
    requires Shaped(plan, s) && i < plan.bundles
  {
    && s.fates[i].Deployed? && s.deploys[i] == 1
    && (plan.compiles ==> s.calls[i] == s.compiled[i] == 1)
    && (!plan.compiles ==> s.calls[i] == 0)
  }

  lemma DeployedIsWell(plan: Plan, s: Pool, i: nat)
    requires Inv(plan, s) && i < plan.bundles && s.fates[i].Deployed?
    ensures DeployedWell(plan, s, i)
  {
    assert JobFits(plan, s, i);
  }

  lemma {:induction false} NothingRecorded(errors: seq<bool>)
    ensures Recorded(errors) == [] <==> forall i | 0 <= i < |errors| :: !errors[i]
  {
    if errors != [] {
      NothingRecorded(errors[..|errors| - 1]);
    }
  }

  /** A nil result means every discovered bundle was deployed exactly once, with
      success; and it is returned whenever that happened and the context was not cancelled. */
  lemma NilMeansAllDeployed(plan: Plan, run: seq<Pool>, s: Pool)
    requires Ends(plan, run, s)
    ensures Joined(s) == [] <==> AllDeployed(plan, s) && !s.cancelled
  {
    RunKeepsInv(plan, run, |run| - 1);
    NothingRecorded(s.errors);
    forall i: nat | i < plan.bundles
      ensures DeployedWell(plan, s, i) ==> !s.errors[i]
      ensures !s.errors[i] && !s.cancelled ==> DeployedWell(plan, s, i)
    {
      FinishedFates(plan, s, i);
      if s.fates[i].Deployed? { DeployedIsWell(plan, s, i); }
    }
  }

  /** No bundle is deployed that was not compiled once before, with success, if there is a
      compiler; without one none is ever compiled. */
  lemma CompiledBeforeDeployed(plan: Plan, run: seq<Pool>, k: nat, i: nat)
    requires Run(plan, run) && k < |run| && i < plan.bundles
    ensures Shaped(plan, run[k])
    ensures plan.compiles && run[k].deploys[i] > 0 ==> run[k].calls[i] == 1 && run[k].compiled[i] == 1
    ensures !plan.compiles ==> run[k].calls[i] == 0
    ensures run[k].calls[i] <= 1
  {
    RunKeepsInv(plan, run, k);
    assert JobFits(plan, run[k], i);
  }

  /** The caller's cancellation is reported exactly if no fail-fast failure came before the end. */
  lemma CancellationIsReported(plan: Plan, run: seq<Pool>, s: Pool)
    requires Ends(plan, run, s)
    ensures Shaped(plan, s)
    ensures ContextProblem in Joined(s) <==>
              s.parent && !(plan.failFast && exists i :: 0 <= i < plan.bundles && s.errors[i])
  {
    RunKeepsInv(plan, run, |run| - 1);
    RecordedExactly(s.errors);
  }

  // ---------------------------------------------------------------- what is not started any more

  /** Nothing has been done for the bundle, and nobody will do anything once the pool is told to stop. */
  predicate Untouched(plan: Plan, s: Pool, i: nat)
    requires Shaped(plan, s) && i < plan.bundles
  {
    && (s.cancelled || (plan.failFast && s.flag)) && s.calls[i] == s.deploys[i] == 0
    && (s.fates[i].Unoffered? || s.fates[i].Handed? || s.fates[i].Dropped?)
    && forall w | 0 <= w < |s.workers| && Job(s.workers[w]) == i ::
         s.workers[w].AskingContext? || (s.workers[w].AskingFlag? && plan.failFast && s.flag)
  }

  lemma StepKeepsUntouched(plan: Plan, s: Pool, t: Pool, i: nat)
    requires Inv(plan, s) && Step(plan, s, t) && i < plan.bundles && Untouched(plan, s, i)
    ensures Shaped(plan, t) && Untouched(plan, t, i)
  {
    StepKeepsInv(plan, s, t);
    if w: nat :| w < |s.workers| && WorkerStep(plan, s, w, t) {
      WorkerKeepsUntouched(plan, s, w, t, i);
    } else if w: nat :| w < |s.workers| && HandOff(plan, s, w, t) {
      assert i != s.producer.next ==> t.fates[i] == s.fates[i];
    }
  }

  lemma WorkerKeepsUntouched(plan: Plan, s: Pool, w: nat, t: Pool, i: nat)
    requires Inv(plan, s) && w < |s.workers| && WorkerStep(plan, s, w, t) && i < plan.bundles && Untouched(plan, s, i)
    ensures Shaped(plan, t) && Untouched(plan, t, i)
  {
    hide JobsFit;
    hide ProducerFits;
    hide StopFits;
    hide FailureCovered;
    WorkerIsLocal(plan, s, w, t);
    assert WorkerFits(plan, s, s.workers[w]);
    if Job(s.workers[w]) == i {
      StoppedWorkerLeaves(plan, s, w, t, i);
    } else {
      OtherWorkerIsElsewhere(plan, s, w, t, i);
    }
  }

  lemma StoppedWorkerLeaves(plan: Plan, s: Pool, w: nat, t: Pool, i: nat)
    requires Shaped(plan, s) && w < |s.workers| && WorkerStep(plan, s, w, t) && i < plan.bundles
    requires Untouched(plan, s, i) && Job(s.workers[w]) == i
    ensures Shaped(plan, t) && Untouched(plan, t, i)
  {
  }

  lemma OtherWorkerIsElsewhere(plan: Plan, s: Pool, w: nat, t: Pool, i: nat)
    requires Shaped(plan, s) && w < |s.workers| && WorkerStep(plan, s, w, t) && i < plan.bundles
    requires Untouched(plan, s, i) && Job(s.workers[w]) != i && OnlyJob(s, w, t, Job(s.workers[w]))
    ensures Shaped(plan, t) && Untouched(plan, t, i)
  {
    assert Job(t.workers[w]) == Job(s.workers[w]) || Job(t.workers[w]) == -1;
  }

  lemma StartsUntouched(plan: Plan, s: Pool, i: nat)
    requires Inv(plan, s) && i < plan.bundles && s.fates[i].Unoffered? && (s.cancelled || (plan.failFast && s.flag))
    ensures Untouched(plan, s, i)
  {
    assert JobFits(plan, s, i);
    forall w | 0 <= w < |s.workers| && Job(s.workers[w]) == i ensures s.workers[w].AskingContext? {
      assert WorkerFits(plan, s, s.workers[w]);
    }
  }

  /** Once the context is cancelled, or with fail-fast a failure was flagged, no further bundle
      is compiled or deployed: what is still with the producer then never is. */
  lemma {:induction false} StoppedStartsNothing(plan: Plan, run: seq<Pool>, k: nat, n: nat, i: nat)
    requires Run(plan, run) && k <= n < |run| && i < plan.bundles && i < |run[k].fates|
    requires run[k].fates[i].Unoffered? && (run[k].cancelled || (plan.failFast && run[k].flag))
    ensures Shaped(plan, run[n]) && Untouched(plan, run[n], i)
    decreases n
  {
    hide Inv;
    hide Step;
    hide Untouched;
    RunKeepsInv(plan, run, k);
    if k == n {
      StartsUntouched(plan, run[k], i);
    } else {
      StoppedStartsNothing(plan, run, k, n - 1, i);
      RunKeepsInv(plan, run, n - 1);
      assert StepAt(plan, run, n - 1);
      StepKeepsUntouched(plan, run[n - 1], run[n], i);
    }
  }

  /** How many bundles the workers are compiling or deploying. */
  function InProgress(workers: seq<Worker>): nat {
    if workers == [] then 0 else (if workers[0].Working? then 1 else 0) + InProgress(workers[1..])
  }

  lemma {:induction false} AtMostAll(workers: seq<Worker>)
    ensures InProgress(workers) <= |workers|
  {
    if workers != [] { AtMostAll(workers[1..]); }
  }

  /** At most the planned number of bundles is worked on at a time, and there are as many
      workers as the plan and the bundles allow. */
  lemma ParallelismIsBounded(plan: Plan, run: seq<Pool>, k: nat)
    requires Run(plan, run) && k < |run|
    ensures InProgress(run[k].workers) <= plan.parallelism
    ensures |run[k].workers| == plan.parallelism <= plan.bundles || |run[k].workers| == plan.bundles < plan.parallelism
  {
    RunKeepsInv(plan, run, k);
    AtMostAll(run[k].workers);
  }

  // ---------------------------------------------------------------- no bundle twice

  /** A worker receives bundle `i` from the channel in this step. */
  ghost predicate Receives(plan: Plan, s: Pool, t: Pool, i: nat)
    requires Shaped(plan, s)
  {
    exists w: nat :: w < |s.workers| && HandOff(plan, s, w, t) && s.producer.next == i
  }

  lemma WorkerNeverReoffers(plan: Plan, s: Pool, w: nat, t: Pool, i: nat)
    requires Inv(plan, s) && w < |s.workers| && WorkerStep(plan, s, w, t) && i < plan.bundles
    ensures Shaped(plan, t) && (s.fates[i].Unoffered? <==> t.fates[i].Unoffered?)
  {
    WorkerIsLocal(plan, s, w, t);
    WorkerKeepsOwnJob(plan, s, w, t);
    assert WorkerFits(plan, s, s.workers[w]);
  }

  lemma StepNeverReoffers(plan: Plan, s: Pool, t: Pool, i: nat)
    requires Inv(plan, s) && Step(plan, s, t) && i < plan.bundles && !s.fates[i].Unoffered?
    ensures Shaped(plan, t) && !t.fates[i].Unoffered?
  {
    if ParentCancels(s, t) || ProducerStep(plan, s, t) {
    } else if w: nat :| w < |s.workers| && WorkerStep(plan, s, w, t) {
      WorkerNeverReoffers(plan, s, w, t, i);
    }
  }

  /** A bundle leaves the producer in a step exactly if a worker receives it in that step. */
  lemma ReceivesIff(plan: Plan, s: Pool, t: Pool, i: nat)
    requires Inv(plan, s) && Step(plan, s, t) && i < plan.bundles
    ensures Shaped(plan, t)
    ensures Receives(plan, s, t, i) <==> s.fates[i].Unoffered? && !t.fates[i].Unoffered?
  {
    StepKeepsInv(plan, s, t);
    if w: nat :| w < |s.workers| && HandOff(plan, s, w, t) {
      assert s.fates[s.producer.next].Unoffered?;
    } else if w: nat :| w < |s.workers| && WorkerStep(plan, s, w, t) {
      WorkerNeverReoffers(plan, s, w, t, i);
    }
  }

  ghost predicate ReceivesAt(plan: Plan, run: seq<Pool>, k: nat, i: nat) {
    k + 1 < |run| && Shaped(plan, run[k]) && Receives(plan, run[k], run[k + 1], i)
  }

  /** In a run of any length a bundle has left the producer if and only if some worker has
      received it. */
  lemma {:induction false} ReceivedIff(plan: Plan, run: seq<Pool>, n: nat, i: nat)
    requires Run(plan, run) && n < |run| && i < plan.bundles
    ensures Shaped(plan, run[n])
    ensures !run[n].fates[i].Unoffered? <==> exists k: nat :: k < n && ReceivesAt(plan, run, k, i)
  {
    hide Inv;
    hide Receives;
    hide Step;
    RunIsShaped(plan, run, n);
    if n > 0 {
      ReceivedIff(plan, run, n - 1, i);
      RunKeepsInv(plan, run, n - 1);
      assert StepAt(plan, run, n - 1);
      ReceivesIff(plan, run[n - 1], run[n], i);
      if !run[n - 1].fates[i].Unoffered? {
        StepNeverReoffers(plan, run[n - 1], run[n], i);
      } else if !run[n].fates[i].Unoffered? {
        assert ReceivesAt(plan, run, n - 1, i);
      }
    }
  }

  lemma RunIsShaped(plan: Plan, run: seq<Pool>, n: nat)
    requires Run(plan, run) && n < |run|
    ensures Shaped(plan, run[n]) && (n == 0 ==> forall i | 0 <= i < plan.bundles :: run[n].fates[i].Unoffered?)
  {
    RunKeepsInv(plan, run, n);
  }

  /** No bundle is received twice, and the deployer is called for it at most once. */
  lemma HandedOutOnce(plan: Plan, run: seq<Pool>, j: nat, k: nat, i: nat)
    requires Run(plan, run) && j < k < |run| && i < plan.bundles && ReceivesAt(plan, run, j, i)
    ensures !ReceivesAt(plan, run, k, i)
    ensures Shaped(plan, run[k]) && run[k].deploys[i] <= 1
  {
    RunKeepsInv(plan, run, k);
    ReceivedIff(plan, run, k, i);
    assert JobFits(plan, run[k], i);
    if k + 1 < |run| {
      assert StepAt(plan, run, k);
      ReceivesIff(plan, run[k], run[k + 1], i);
    }
  }

  // ---------------------------------------------------------------- no deadlock, and an end

  /** If every worker has left while the producer still holds jobs, the context is cancelled. */
  lemma AllGoneMeansCancelled(plan: Plan, s: Pool)
    requires Inv(plan, s) && |s.workers| > 0 && !s.producer.Closed?
    requires forall w | 0 <= w < |s.workers| :: s.workers[w].Exited?
    ensures s.cancelled
  {
    assert s.workers[0].Exited?;
  }

  lemma BusyWorkerCanStep(plan: Plan, s: Pool, w: nat) returns (t: Pool)
    requires Inv(plan, s) && w < |s.workers| && !s.workers[w].Receiving? && !s.workers[w].Exited?
    ensures WorkerStep(plan, s, w, t)
  {
    assert WorkerFits(plan, s, s.workers[w]);
    match s.workers[w]
    case AskingContext(site) =>
      t := if s.cancelled then s.(workers := s.workers[w := Exited], fates := LeaveFate(site, s.fates))
           else s.(workers := s.workers[w := AskingFlag(site)]);
    case AskingFlag(site) =>
      t := if plan.failFast && s.flag then s.(workers := s.workers[w := Exited], fates := LeaveFate(site, s.fates))
           else s.(workers := s.workers[w := Resume(plan, site)]);
    case Working(index, operation) =>
      var called := Called(s, index, operation);
      t := called.(workers := s.workers[w := Recording(index, operation)]);
    case Recording(index, operation) =>
      t := s.(errors := s.errors[index := true], fates := s.fates[index := Failed(operation)],
              workers := s.workers[w := if plan.failFast then Flagging(index) else AskingContext(AfterFailure(index))]);
    case Flagging(index) => t := s.(flag := true, workers := s.workers[w := Cancelling(index)]);
    case Cancelling(index) => t := s.(cancelled := true, workers := s.workers[w := AskingContext(AfterFailure(index))]);
  }

  /** In every reachable state the pool has finished or can take a step of its own. */
  lemma NeverDeadlocks(plan: Plan, run: seq<Pool>, i: nat) returns (t: Pool)
    requires Run(plan, run) && i < |run| && plan.parallelism >= 1
    requires !Finished(run[i])
    ensures Shaped(plan, run[i]) && PoolStep(plan, run[i], t)
  {
    var s := run[i];
    RunKeepsInv(plan, run, i);
    t := s;
    if w: nat :| w < |s.workers| && !s.workers[w].Receiving? && !s.workers[w].Exited? {
      t := BusyWorkerCanStep(plan, s, w);
    } else {
      match s.producer
      case ProducerAskingContext(next) =>
        t := if next == plan.bundles || s.cancelled then s.(producer := Closed)
             else s.(producer := ProducerAskingFlag(next));
        assert ProducerStep(plan, s, t);
      case ProducerAskingFlag(next) =>
        t := s.(producer := if plan.failFast && s.flag then Closed else Offering(next));
        assert ProducerStep(plan, s, t);
      case Offering(next) =>
        if w: nat :| w < |s.workers| && s.workers[w].Receiving? {
          t := s.(producer := ProducerAskingContext(next + 1),
                  workers := s.workers[w := AskingContext(BeforeWork(next))],
                  fates := s.fates[next := Handed]);
          assert HandOff(plan, s, w, t);
        } else {
          AllGoneMeansCancelled(plan, s);
          t := s.(producer := Closed);
          assert ProducerStep(plan, s, t);
        }
      case Closed =>
        var w: nat :| w < |s.workers| && !s.workers[w].Exited?;
        t := s.(workers := s.workers[w := Exited]);
        assert WorkerStep(plan, s, w, t);
    }
  }

  function WorkerRank(w: Worker): nat {
    match w
    case Exited => 0
    case Receiving => 1
    case AskingFlag(site) => if site.BeforeWork? then 9 else 2
    case AskingContext(site) => if site.BeforeWork? then 10 else 3
    case Cancelling(_) => 4
    case Flagging(_) => 5
    case Recording(_, _) => 6
    case Working(_, operation) => if operation.Deploying? then 7 else 8
  }

  function WorkerRanks(workers: seq<Worker>): nat {
    if workers == [] then 0 else WorkerRank(workers[0]) + WorkerRanks(workers[1..])
  }

  function ProducerRank(plan: Plan, p: Producer): int {
    match p
    case ProducerAskingContext(next) => (plan.bundles - next) * 13 + 3
    case ProducerAskingFlag(next) => (plan.bundles - next) * 13 + 2
    case Offering(next) => (plan.bundles - next) * 13 + 1
    case Closed => 0
  }

  /** The work left: it bounds how many steps can still follow. */
  function WorkLeft(plan: Plan, s: Pool): int {
    ProducerRank(plan, s.producer) + WorkerRanks(s.workers) + if s.parent then 0 else 1
  }

  lemma {:induction false} RanksAfterUpdate(workers: seq<Worker>, w: nat, x: Worker)
    requires w < |workers|
    ensures WorkerRanks(workers[w := x]) == WorkerRanks(workers) - WorkerRank(workers[w]) + WorkerRank(x)
  {
    if w == 0 {
      assert workers[w := x][1..] == workers[1..];
    } else {
      RanksAfterUpdate(workers[1..], w - 1, x);
      assert workers[w := x][1..] == workers[1..][w - 1 := x];
    }
  }

  lemma WorkerShrinksWork(plan: Plan, s: Pool, w: nat, t: Pool)
    requires Inv(plan, s) && w < |s.workers| && WorkerStep(plan, s, w, t)
    ensures WorkLeft(plan, t) < WorkLeft(plan, s)
  {
    hide WorkerStep;
    WorkerIsLocal(plan, s, w, t);
    assert t.workers == s.workers[w := t.workers[w]];
    RanksAfterUpdate(s.workers, w, t.workers[w]);
    RankShrinks(plan, s, w, t);
  }

  lemma RankShrinks(plan: Plan, s: Pool, w: nat, t: Pool)
    requires Shaped(plan, s) && w < |s.workers| && WorkerStep(plan, s, w, t) && w < |t.workers|
    ensures WorkerRank(t.workers[w]) < WorkerRank(s.workers[w])
  {
  }

  lemma StepShrinksWork(plan: Plan, s: Pool, t: Pool)
    requires Inv(plan, s) && Step(plan, s, t)
    ensures 0 <= WorkLeft(plan, t) < WorkLeft(plan, s)
  {
    StepKeepsInv(plan, s, t);
    if ParentCancels(s, t) || ProducerStep(plan, s, t) {
    } else if w: nat :| w < |s.workers| && WorkerStep(plan, s, w, t) {
      WorkerShrinksWork(plan, s, w, t);
    } else {
      var w: nat :| w < |s.workers| && HandOff(plan, s, w, t);
      RanksAfterUpdate(s.workers, w, t.workers[w]);
    }
  }

  /** Every schedule ends: no run is longer than the work it starts with, provided the
      compiler and the deployer return. */
  lemma {:induction false} EveryRunEnds(plan: Plan, run: seq<Pool>, i: nat)
    requires Run(plan, run) && i < |run|
    ensures 0 <= WorkLeft(plan, run[i]) <= WorkLeft(plan, Start(plan)) - i
  {
    hide Inv;
    hide Step;
    RunKeepsInv(plan, run, i);
    if i > 0 {
      EveryRunEnds(plan, run, i - 1);
      RunKeepsInv(plan, run, i - 1);
      assert StepAt(plan, run, i - 1);
      StepShrinksWork(plan, run[i - 1], run[i]);
    }
  }
}
