/** The deployment worker pool: a producer, an unbuffered channel, workers that
    compile and deploy, a fail-fast flag that is set before cancellation is issued,
    and an error slot per bundle. */
module DeployPool {

  datatype Operation = Compiling | Deploying

  /** Where a worker stops to ask `stopped()`. */
  datatype Site = BeforeWork(index: nat) | AfterFailure(index: nat)

  /** One worker goroutine. `stopped()` reads the context first and the flag second;
      `record` stores the error, sets the flag and only then cancels. */
  datatype Worker =
    | Receiving
    | AskingContext(site: Site)
    | AskingFlag(site: Site)
    | Working(index: nat, operation: Operation)
    | Recording(index: nat, operation: Operation)
    | Flagging(index: nat)
    | Cancelling(index: nat)
    | Exited

  datatype Producer =
    | ProducerAskingContext(next: nat)
    | ProducerAskingFlag(next: nat)
    | Offering(next: nat)
    | Closed

  /** What has happened to one bundle. */
  datatype Fate = Unoffered | Handed | Dropped | Failed(operation: Operation) | Deployed

  datatype Plan = Plan(bundles: nat, parallelism: nat, failFast: bool, compiles: bool)

  /** `calls` and `deploys` count the calls of the compiler and of the deployer per bundle, and
      `compiled` the compilations that succeeded; `parent` tells whether the caller's own
      context was cancelled. */
  datatype Pool = Pool(
    producer: Producer,
    workers: seq<Worker>,
    cancelled: bool,
    parent: bool,
    flag: bool,
    errors: seq<bool>,
    fates: seq<Fate>,
    calls: seq<nat>,
    compiled: seq<nat>,
    deploys: seq<nat>)

  function WorkerCount(plan: Plan): nat {
    if plan.parallelism < plan.bundles then plan.parallelism else plan.bundles
  }

  function Start(plan: Plan): Pool {
    Pool(ProducerAskingContext(0), seq(WorkerCount(plan), _ => Receiving), false, false, false,
         seq(plan.bundles, _ => false), seq(plan.bundles, _ => Unoffered),
         seq(plan.bundles, _ => 0), seq(plan.bundles, _ => 0), seq(plan.bundles, _ => 0))
  }

  predicate Shaped(plan: Plan, s: Pool) {
    && |s.errors| == |s.fates| == |s.calls| == |s.compiled| == |s.deploys| == plan.bundles
    && |s.workers| == WorkerCount(plan)
  }

  function FirstWork(plan: Plan, index: nat): Worker {
    Working(index, if plan.compiles then Compiling else Deploying)
  }

  /** A worker that is told to stop drops a job it has not started. */
  function LeaveFate(site: Site, fates: seq<Fate>): seq<Fate> {
    if site.BeforeWork? && site.index < |fates| then fates[site.index := Dropped] else fates
  }

  /** One more call of the compiler or the deployer. */
  function Called(s: Pool, index: nat, operation: Operation): Pool
    requires index < |s.calls| && index < |s.deploys|
  {
    match operation
    case Compiling => s.(calls := s.calls[index := s.calls[index] + 1])
    case Deploying => s.(deploys := s.deploys[index := s.deploys[index] + 1])
  }

  function Resume(plan: Plan, site: Site): Worker {
    match site
    case BeforeWork(index) => FirstWork(plan, index)
    case AfterFailure(_) => Receiving
  }

  // ---------------------------------------------------------------- steps

  predicate ProducerStep(plan: Plan, s: Pool, t: Pool) {
    match s.producer
    case ProducerAskingContext(next) =>
      if next == plan.bundles || s.cancelled then t == s.(producer := Closed)
      else t == s.(producer := ProducerAskingFlag(next))
    case ProducerAskingFlag(next) =>
      t == s.(producer := if plan.failFast && s.flag then Closed else Offering(next))
    case Offering(next) => s.cancelled && t == s.(producer := Closed)
    case Closed => false
  }

  /** The rendezvous of the unbuffered channel. */
  predicate HandOff(plan: Plan, s: Pool, w: nat, t: Pool)
    requires Shaped(plan, s)
  {
    && s.producer.Offering? && s.producer.next < plan.bundles
    && w < |s.workers| && s.workers[w].Receiving?
    && t == s.(producer := ProducerAskingContext(s.producer.next + 1),
               workers := s.workers[w := AskingContext(BeforeWork(s.producer.next))],
               fates := s.fates[s.producer.next := Handed])
  }

  predicate WorkerStep(plan: Plan, s: Pool, w: nat, t: Pool)
    requires Shaped(plan, s) && w < |s.workers|
  {
    match s.workers[w]
    case Receiving => s.producer.Closed? && t == s.(workers := s.workers[w := Exited])
    case AskingContext(site) =>
      if s.cancelled
      then t == s.(workers := s.workers[w := Exited], fates := LeaveFate(site, s.fates))
      else t == s.(workers := s.workers[w := AskingFlag(site)])
    case AskingFlag(site) =>
      if plan.failFast && s.flag
      then t == s.(workers := s.workers[w := Exited], fates := LeaveFate(site, s.fates))
      else t == s.(workers := s.workers[w := Resume(plan, site)])
    case Working(index, operation) =>
      && index < plan.bundles
      && var called := Called(s, index, operation);
         || t == called.(workers := s.workers[w := Recording(index, operation)])
         || t == (match operation
                  case Compiling => called.(workers := s.workers[w := Working(index, Deploying)],
                                            compiled := s.compiled[index := s.compiled[index] + 1])
                  case Deploying => called.(workers := s.workers[w := Receiving], fates := s.fates[index := Deployed]))
    case Recording(index, operation) =>
      && index < plan.bundles
      && t == s.(errors := s.errors[index := true],
                 fates := s.fates[index := Failed(operation)],
                 workers := s.workers[w :=
                   if plan.failFast then Flagging(index) else AskingContext(AfterFailure(index))])
    case Flagging(index) => t == s.(flag := true, workers := s.workers[w := Cancelling(index)])
    case Cancelling(index) =>
      t == s.(cancelled := true, workers := s.workers[w := AskingContext(AfterFailure(index))])
    case Exited => false
  }

  /** The caller cancels its context. */
  predicate ParentCancels(s: Pool, t: Pool) {
    !s.parent && t == s.(parent := true, cancelled := true)
  }

  /** A step the pool itself takes. */
  ghost predicate PoolStep(plan: Plan, s: Pool, t: Pool)
    requires Shaped(plan, s)
  {
    || ProducerStep(plan, s, t)
    || (exists w: nat | w < |s.workers| :: WorkerStep(plan, s, w, t))
    || (exists w: nat | w < |s.workers| :: HandOff(plan, s, w, t))
  }

  ghost predicate Step(plan: Plan, s: Pool, t: Pool)
    requires Shaped(plan, s)
  {
    PoolStep(plan, s, t) || ParentCancels(s, t)
  }

  predicate Finished(s: Pool) {
    s.producer.Closed? && forall w | 0 <= w < |s.workers| :: s.workers[w].Exited?
  }

  // ---------------------------------------------------------------- invariant

  /** The job in a worker's hands. */
  function Job(w: Worker): int {
    match w
    case AskingContext(site) => site.index
    case AskingFlag(site) => site.index
    case Working(index, _) => index
    case Recording(index, _) => index
    case Flagging(index) => index
    case Cancelling(index) => index
    case _ => -1
  }

  function Next(plan: Plan, p: Producer): nat {
    match p
    case ProducerAskingContext(next) => next
    case ProducerAskingFlag(next) => next
    case Offering(next) => next
    case Closed => plan.bundles
  }

  /** A worker that still owes the outcome of its job. */
  predicate Undecided(w: Worker) {
    w.Working? || w.Recording? || ((w.AskingContext? || w.AskingFlag?) && w.site.BeforeWork?)
  }

  /** What one worker and one job look like together. */
  predicate WorkerFits(plan: Plan, s: Pool, w: Worker)
    requires Shaped(plan, s)
  {
    && (!w.Receiving? && !w.Exited? ==> 0 <= Job(w) < plan.bundles)
    && (Undecided(w) ==> s.fates[Job(w)].Handed?)
    && (Undecided(w) && !w.Recording? ==> s.deploys[Job(w)] == 0)
    && (w.Recording? ==> s.deploys[w.index] == if w.operation.Deploying? then 1 else 0)
    && (Undecided(w) && !w.Working? && !w.Recording? ==> s.calls[Job(w)] == s.compiled[Job(w)] == 0)
    && (w.Working? && w.operation.Compiling? ==> plan.compiles && s.calls[w.index] == s.compiled[w.index] == 0)
    && (w.Recording? && w.operation.Compiling? ==>
          plan.compiles && s.calls[w.index] == 1 && s.compiled[w.index] == 0)
    && ((w.Working? || w.Recording?) && w.operation.Deploying? ==> CompiledOnce(plan, s, w.index))
    && (!w.Receiving? && !w.Exited? && !Undecided(w) ==> s.fates[Job(w)].Failed?)
    && (w.Flagging? || w.Cancelling? ==> plan.failFast)
    && (w.Cancelling? ==> s.flag)
  }

  predicate JobFits(plan: Plan, s: Pool, i: nat)
    requires Shaped(plan, s) && i < plan.bundles
  {
    && (s.errors[i] <==> s.fates[i].Failed?)
    && (s.fates[i].Deployed? ==> s.deploys[i] == 1)
    && (s.fates[i].Unoffered? || s.fates[i].Dropped? ==> s.deploys[i] == 0)
    && (s.fates[i].Failed? ==> s.deploys[i] == if s.fates[i].operation.Deploying? then 1 else 0)
    && (s.fates[i].Dropped? ==> s.cancelled || s.flag)
    && (s.fates[i].Unoffered? && s.producer.Closed? ==> s.cancelled || s.flag)
    && (s.deploys[i] <= 1)
    && s.compiled[i] <= s.calls[i] <= 1 && (!plan.compiles ==> s.calls[i] == 0)
    && (s.deploys[i] > 0 ==> CompiledOnce(plan, s, i))
    && (s.fates[i].Unoffered? || s.fates[i].Dropped? ==> s.calls[i] == 0)
    && (s.fates[i].Failed? && s.fates[i].operation.Compiling? ==> s.calls[i] == 1 && s.compiled[i] == 0)
  }

  /** The bundle was compiled once with success, if bundles are compiled at all. */
  predicate CompiledOnce(plan: Plan, s: Pool, i: nat)
    requires Shaped(plan, s) && i < plan.bundles
  {
    s.calls[i] == s.compiled[i] == if plan.compiles then 1 else 0
  }

  ghost predicate Owned(s: Pool, i: nat) {
    exists w :: 0 <= w < |s.workers| && Undecided(s.workers[w]) && Job(s.workers[w]) == i
  }

  /** The fail-fast gap: once the flag is up, the context is cancelled or a live
      worker is just about to cancel it. */
  ghost predicate GapCovered(s: Pool) {
    s.flag ==> s.cancelled || exists w :: 0 <= w < |s.workers| && s.workers[w].Cancelling?
  }

  ghost predicate WorkersFit(plan: Plan, s: Pool)
    requires Shaped(plan, s)
  {
    && (forall w | 0 <= w < |s.workers| :: WorkerFits(plan, s, s.workers[w]))
    && (forall v, w | 0 <= v < w < |s.workers| && Undecided(s.workers[v]) && Undecided(s.workers[w]) ::
          Job(s.workers[v]) != Job(s.workers[w]))
    && (forall w | 0 <= w < |s.workers| && s.workers[w].Exited? :: s.producer.Closed? || s.cancelled || s.flag)
  }

  ghost predicate JobsFit(plan: Plan, s: Pool)
    requires Shaped(plan, s)
  {
    && (forall i: nat | i < plan.bundles :: JobFits(plan, s, i))
    && (forall i: nat | i < plan.bundles && s.fates[i].Handed? :: Owned(s, i))
  }

  predicate ProducerFits(plan: Plan, s: Pool)
    requires Shaped(plan, s)
  {
    && Next(plan, s.producer) <= plan.bundles
    && (s.producer.ProducerAskingFlag? || s.producer.Offering? ==> s.producer.next < plan.bundles)
    && (!s.producer.Closed? ==>
          forall i | 0 <= i < plan.bundles :: s.fates[i].Unoffered? <==> s.producer.next <= i)
  }

  ghost predicate StopFits(plan: Plan, s: Pool)
    requires Shaped(plan, s)
  {
    && (s.flag ==> plan.failFast && exists i :: 0 <= i < plan.bundles && s.errors[i])
    && (s.parent ==> s.cancelled)
    && (s.cancelled ==> s.parent || s.flag)
    && GapCovered(s)
  }

  /** With fail-fast a recorded error raises the flag. */
  ghost predicate FailureCovered(plan: Plan, s: Pool)
    requires Shaped(plan, s)
  {
    plan.failFast && (exists i :: 0 <= i < plan.bundles && s.errors[i]) ==>
      s.flag || exists w :: 0 <= w < |s.workers| && s.workers[w].Flagging?
  }

  ghost predicate Inv(plan: Plan, s: Pool) {
    && Shaped(plan, s) && WorkersFit(plan, s) && JobsFit(plan, s) && ProducerFits(plan, s) && StopFits(plan, s)
    && FailureCovered(plan, s)
  }
}
