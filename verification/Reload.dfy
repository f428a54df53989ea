/** The development reload supervisor: who holds which environment lease, when a
    generation may be started, and when a rebuild begins. What the operating system and
    the foreign tools answer is given to each method as an outcome. */
module Reload {
  import opened Basics

  const DEBOUNCE := 300

  type Lease = nat

  /** A selected interpreter; only a managed one comes with a lease. */
  datatype Selection = Selection(executable: string, lease: Option<Lease>)

  datatype Generation = Generation(number: nat, digest: string, python: Selection)

  datatype Compiler = Compiler(identity: string, lease: Lease)

  datatype Watch = Watch(baseline: string, candidate: string, since: int)

  // ---------------------------------------------------------------- outcomes of foreign calls

  datatype Python = Missing | Managed(executable: string) | Custom(executable: string)

  datatype Loads = Loads(
    first: Option<string>, python: Python, second: Option<string>, again: Python, third: Option<string>)

  /** `identity` is that of the wanted compiler; a new one may fail to get its lease or to
      start; an exchange may damage the protocol or reject the bundle. */
  datatype Compiling = Compiling(identity: string, leased: bool, started: bool, usable: bool, accepted: bool)

  datatype Preparing = Preparing(loads: Loads, compiling: Compiling, launcher: bool)

  datatype Startup = Alive | Died | Interrupted

  /** `cancelled`: the command's context is done when the error is looked at. `stopped` and
      `withdrawn`: stopping the old and the failed new process made sure that it is gone. */
  datatype Replacing = Replacing(
    stopped: bool, started: bool, startup: Startup, withdrawn: bool, cancelled: bool, restored: bool)

  datatype Event = Cancel | Exit | Tick(digest: Option<string>, now: int, preparing: Preparing, replacing: Replacing)

  // ---------------------------------------------------------------- debouncing

  /** `ready` */
  function Observed(w: Watch, digest: string, now: int): Watch {
    if digest == w.baseline then w.(candidate := "")
    else if digest != w.candidate then w.(candidate := digest, since := now)
    else w
  }

  predicate Ready(w: Watch, digest: string, now: int) {
    digest != w.baseline && digest == w.candidate && now - w.since >= DEBOUNCE
  }

  /** One poll: the digest, if it could be computed, and the time. */
  datatype Sight = Sight(digest: Option<string>, now: int)

  datatype Attempt = Attempt(digest: string, succeeded: bool)

  /** From one poll on, every successful poll saw this digest. */
  ghost predicate Steady(history: seq<Sight>, from: nat, digest: string) {
    && from < |history| && history[from].digest == Some(digest)
    && forall i | from <= i < |history| :: history[i].digest.Some? ==> history[i].digest.value == digest
  }

  /** The earliest poll since the last attempt from which every successful poll saw this digest. */
  ghost predicate Began(history: seq<Sight>, reset: nat, from: nat, digest: string) {
    reset <= from && Steady(history, from, digest) && forall e: nat | reset <= e < from :: !Steady(history, e, digest)
  }

  /** What the candidate stands for: the digest that the last successful polls since the
      last attempt saw and the time of the first of them, or nothing if that is the baseline
      or there were none. */
  ghost predicate CandidateFits(w: Watch, history: seq<Sight>, reset: nat) {
    if w.candidate == "" then forall from: nat, digest | reset <= from && Steady(history, from, digest) ::
        digest == w.baseline
    else w.candidate != w.baseline
         && exists from: nat | from < |history| ::
               Began(history, reset, from, w.candidate) && history[from].now == w.since
  }

  /** For at least three hundred milliseconds, and since the last attempt, all successful
      polls saw one digest that is not the baseline. */
  ghost predicate Debounced(baseline: string, history: seq<Sight>, reset: nat, digest: string) {
    && history != [] && digest != baseline
    && exists from: nat ::
         Began(history, reset, from, digest) && history[|history| - 1].now - history[from].now >= 300
  }

  lemma BeganOnce(history: seq<Sight>, reset: nat, a: nat, b: nat, digest: string)
    requires Began(history, reset, a, digest) && Began(history, reset, b, digest)
    ensures a == b
  {
  }

  /** A poll ends every steady stretch but that of the digest it saw. */
  lemma SteadyLater(history: seq<Sight>, sight: Sight, from: nat, digest: string)
    requires from < |history|
    ensures Steady(history + [sight], from, digest) <==>
            Steady(history, from, digest) && (sight.digest.Some? ==> sight.digest.value == digest)
  {
    var h := history + [sight];
    assert h[|history|] == sight;
    assert forall i | 0 <= i < |history| :: h[i] == history[i];
  }

  lemma BeganLater(history: seq<Sight>, sight: Sight, reset: nat, from: nat, digest: string)
    requires Began(history, reset, from, digest) && (sight.digest.Some? ==> sight.digest.value == digest)
    ensures Began(history + [sight], reset, from, digest)
  {
    hide Steady;
    assert from < |history| by {
      SteadyInside(history, from, digest);
    }
    SteadyLater(history, sight, from, digest);
    forall e: nat | reset <= e < from ensures !Steady(history + [sight], e, digest) {
      SteadyLater(history, sight, e, digest);
    }
  }

  lemma SteadyInside(history: seq<Sight>, from: nat, digest: string)
    requires Steady(history, from, digest)
    ensures from < |history|
  {
  }

  lemma OneSteady(history: seq<Sight>, a: nat, b: nat, x: string, y: string)
    ensures Steady(history, a, x) && Steady(history, b, y) ==> x == y
  {
    if Steady(history, a, x) && Steady(history, b, y) {
      var last := if a < b then b else a;
      assert history[last].digest.Some?;
    }
  }

  lemma BeganNow(w: Watch, history: seq<Sight>, reset: nat, digest: string, now: int)
    requires CandidateFits(w, history, reset) && reset <= |history| && digest != w.baseline && digest != w.candidate
    ensures Began(history + [Sight(Some(digest), now)], reset, |history|, digest)
  {
    var h := history + [Sight(Some(digest), now)];
    var first: nat := 0;
    if w.candidate != "" {
      first :| first < |history| && Began(history, reset, first, w.candidate) && history[first].now == w.since;
    }
    forall e: nat | reset <= e < |history| ensures !Steady(h, e, digest) {
      SteadyLater(history, Sight(Some(digest), now), e, digest);
      OneSteady(history, e, first, digest, w.candidate);
    }
  }

  /** A rebuild is due exactly when the digest was steady for the debounce period. */
  lemma ObservedFits(w: Watch, history: seq<Sight>, reset: nat, digest: string, now: int)
    requires CandidateFits(w, history, reset) && digest != "" && reset <= |history|
    ensures CandidateFits(Observed(w, digest, now), history + [Sight(Some(digest), now)], reset)
    ensures Ready(w, digest, now) <==> Debounced(w.baseline, history + [Sight(Some(digest), now)], reset, digest)
  {
    hide Steady, Began;
    var sight := Sight(Some(digest), now);
    var h := history + [sight];
    if digest == w.baseline {
      forall from: nat, other | reset <= from && Steady(h, from, other) ensures other == w.baseline {
        LastIsSteady(h, from, other);
      }
    } else {
      var from: nat := |history|;
      if digest == w.candidate {
        from :| from < |history| && Began(history, reset, from, digest) && history[from].now == w.since;
        BeganLater(history, sight, reset, from, digest);
        assert h[from] == history[from];
      } else {
        BeganNow(w, history, reset, digest, now);
      }
      forall other: nat | Began(h, reset, other, digest) ensures other == from {
        BeganOnce(h, reset, from, other, digest);
      }
    }
  }

  lemma LastIsSteady(h: seq<Sight>, from: nat, digest: string)
    requires Steady(h, from, digest) && h[|h| - 1].digest.Some?
    ensures h[|h| - 1].digest.value == digest
  {
  }

  lemma MissedFits(w: Watch, history: seq<Sight>, reset: nat, now: int)
    requires CandidateFits(w, history, reset)
    ensures CandidateFits(w, history + [Sight(None, now)], reset)
  {
    var h := history + [Sight(None, now)];
    if w.candidate != "" {
      var from: nat :| from < |history| && Began(history, reset, from, w.candidate)
        && history[from].now == w.since;
      BeganLater(history, Sight(None, now), reset, from, w.candidate);
      assert h[from] == history[from];
    } else {
      forall from: nat, digest | reset <= from && Steady(h, from, digest) ensures digest == w.baseline {
        SteadyLater(history, Sight(None, now), from, digest);
      }
    }
  }

  /** A digest whose build failed is not attempted again before another one. */
  ghost predicate NeverRepeats(attempts: seq<Attempt>) {
    forall k | 0 <= k && k + 1 < |attempts| :: !attempts[k].succeeded ==> attempts[k + 1].digest != attempts[k].digest
  }

  /** Nothing forbids attempting this digest next. */
  ghost predicate MayFollow(attempts: seq<Attempt>, digest: string) {
    && NeverRepeats(attempts)
    && (attempts != [] && !attempts[|attempts| - 1].succeeded ==> digest != attempts[|attempts| - 1].digest)
  }

  lemma AttemptAdded(attempts: seq<Attempt>, digest: string, succeeded: bool)
    requires MayFollow(attempts, digest)
    ensures NeverRepeats(attempts + [Attempt(digest, succeeded)])
  {
  }

  // ---------------------------------------------------------------- one resolution

  /** The bundle that is compiled: the one loaded last, so that it and the interpreter
      have the same dependencies. */
  function FinalDigest(loads: Loads): Option<string> {
    if loads.first.None? || loads.python.Missing? || loads.second.None? then None
    else if loads.second == loads.first then loads.second
    else if loads.again.Missing? then None
    else loads.third
  }

  function FinalPython(loads: Loads): Python {
    if loads.second == loads.first then loads.python else loads.again
  }

  predicate Selects(python: Python, selection: Selection) {
    match python
    case Missing => false
    case Managed(executable) => selection.executable == executable && selection.lease.Some?
    case Custom(executable) => selection == Selection(executable, None)
  }

  /** The replacement was started and survived its first moments. */
  predicate Commits(o: Replacing) { o.started && o.startup.Alive? }

  /** The replacement failed and its process may still be there. */
  predicate Lingers(o: Replacing) { o.started && !o.startup.Alive? && !o.startup.Died? && !o.withdrawn }

  predicate StopsSucceed(o: Replacing) { o.stopped && !Lingers(o) }

  /** Every stop of every replacement succeeds. */
  predicate AllStop(events: seq<Event>) {
    forall e <- events :: e.Tick? ==> StopsSucceed(e.replacing)
  }

  // ---------------------------------------------------------------- server processes

  /** The processes not known to have ended, the leases they were started under, and which
      one is the current generation's. */
  datatype Fleet = Fleet(server: nat, count: nat, running: set<nat>, uses: map<nat, Option<Lease>>)
  {
    predicate Serves(lease: Option<Lease>) {
      && server < count && server in uses && uses[server] == lease
      && forall p <- running :: p < count && p in uses
    }

    /** Every earlier process is gone. */
    predicate Sole() { running <= {server} }

    /** No process outlives its lease. */
    predicate Protected(held: set<Lease>) {
      forall p <- running :: p in uses && LeaseSet(uses[p]) <= held
    }

    /** Processes use leases that were acquired before, and none of these. */
    predicate Dated(acquired: nat, others: set<Lease>) {
      forall p <- running :: p in uses && forall l <- LeaseSet(uses[p]) :: l < acquired && l !in others
    }

    /** A process under this lease is left after the server was, or could not be, stopped;
        it can be one that an earlier failed stop has left. */
    predicate Outlasts(lease: Option<Lease>, stopped: bool) {
      lease.Some? && exists p <- running :: p in uses && uses[p] == lease && !(p == server && stopped)
    }

    /** The replacement gives up the lease of a process that is left. */
    predicate Exposes(previous: Option<Lease>, o: Replacing, cancelled: bool) {
      KeepsNext(o, cancelled) && Outlasts(previous, o.stopped)
    }

    function Started(lease: Option<Lease>): Fleet {
      Fleet(server, count + 1, running + {count}, uses[count := lease])
    }

    /** Stopping can fail and leave the process running. */
    function Stopped(process: nat, gone: bool): Fleet {
      if gone then this.(running := running - {process}) else this
    }

    /** What a replacement does to the processes. */
    function Replaced(previous: Option<Lease>, next: Option<Lease>, o: Replacing, cancelled: bool): Fleet {
      var stopped := Stopped(server, o.stopped);
      if !o.started then
        if cancelled || !o.restored then stopped else stopped.Started(previous).(server := count)
      else
        var started := stopped.Started(next);
        if Commits(o) then started.(server := count)
        else
          var withdrawn := started.Stopped(count, !Lingers(o));
          if cancelled then withdrawn.(server := count)
          else if o.restored then withdrawn.Started(previous).(server := count + 1)
          else withdrawn
    }
  }

  /** The replacement keeps its own lease: it is committed, or its failure fell into the
      shutdown of the supervisor. */
  predicate KeepsNext(o: Replacing, cancelled: bool) {
    o.started && (o.startup.Alive? || cancelled)
  }

  /** `replace` goes on after a failed stop. Whatever processes earlier replacements have left,
      every process runs under a held lease afterwards exactly if it did before and no process
      is left under a lease that is given up. */
  lemma ReplacementExposesIff(
      fleet: Fleet, previous: Option<Lease>, next: Option<Lease>, o: Replacing, cancelled: bool,
      before: set<Lease>, held: set<Lease>)
    requires fleet.Serves(previous) && LeaseSet(previous) <= before && LeaseSet(next) !! before
    requires forall p <- fleet.running :: LeaseSet(fleet.uses[p]) !! LeaseSet(next)
    requires o.started && o.startup.Interrupted? ==> cancelled
    requires held == if KeepsNext(o, cancelled) then before - LeaseSet(previous) + LeaseSet(next) else before
    ensures fleet.Replaced(previous, next, o, cancelled).Protected(held) <==>
              fleet.Protected(before) && !fleet.Exposes(previous, o, cancelled)
  {
    var after := fleet.Replaced(previous, next, o, cancelled);
    forall p <- fleet.running
      ensures p in after.uses && after.uses[p] == fleet.uses[p]
      ensures p in after.running <==> !(p == fleet.server && o.stopped)
      ensures LeaseSet(fleet.uses[p]) <= held <==>
                LeaseSet(fleet.uses[p]) <= before &&
                !(KeepsNext(o, cancelled) && previous.Some? && fleet.uses[p] == previous)
    {
      LeaseIn(fleet.uses[p], before);
      LeaseIn(fleet.uses[p], held);
      LeaseIn(fleet.uses[p], LeaseSet(previous));
    }
    NewProcesses(fleet, previous, next, o, cancelled, held);
  }

  lemma LeaseIn(lease: Option<Lease>, leases: set<Lease>)
    ensures LeaseSet(lease) <= leases <==> lease.Some? ==> lease.value in leases
  {
  }

  /** What a replacement starts runs under a lease that is kept. */
  lemma NewProcesses(
      fleet: Fleet, previous: Option<Lease>, next: Option<Lease>, o: Replacing, cancelled: bool, held: set<Lease>)
    requires fleet.Serves(previous) && (o.started && o.startup.Interrupted? ==> cancelled)
    requires LeaseSet(if KeepsNext(o, cancelled) then next else previous) <= held
    ensures var after := fleet.Replaced(previous, next, o, cancelled);
            forall p <- after.running :: p in fleet.running || (p in after.uses && LeaseSet(after.uses[p]) <= held)
  {
  }

  /** A successful stop of the process whose lease is given up is not enough. The first stop
      fails, the replacement dies and the rollback is started beside the old process; the next
      replacement stops the rollback and is committed, and the old process runs on. */
  lemma EarlierProcessOutlives(fleet: Fleet, old_: Lease, failed: Lease, next: Lease)
    requires fleet.Serves(Some(old_)) && fleet.running == {fleet.server} && next != old_
    ensures var first := Replacing(false, true, Died, true, false, true);
            var second := Replacing(true, true, Alive, true, false, true);
            var between := fleet.Replaced(Some(old_), Some(failed), first, false);
            var after := between.Replaced(Some(old_), Some(next), second, false);
            && between.Serves(Some(old_)) && between.Protected({old_}) && !between.Sole()
            && StopsSucceed(second) && after.Serves(Some(next)) && !after.Protected({next})
  {
    var first := Replacing(false, true, Died, true, false, true);
    var second := Replacing(true, true, Alive, true, false, true);
    var between := fleet.Replaced(Some(old_), Some(failed), first, false);
    var after := between.Replaced(Some(old_), Some(next), second, false);
    assert between.running == {fleet.server, fleet.count + 1};
    assert fleet.server in after.running && old_ in LeaseSet(after.uses[fleet.server]);
  }

  lemma ReplacementServes(fleet: Fleet, previous: Option<Lease>, next: Option<Lease>, o: Replacing)
    requires fleet.Serves(previous)
    ensures forall cancelled ::
              fleet.Replaced(previous, next, o, cancelled).Serves(if KeepsNext(o, cancelled) then next else previous)
  {
  }

  /** Later leases change nothing for the processes there are. */
  lemma StaysDated(fleet: Fleet, then_: nat, before: set<Lease>, now: nat, others: set<Lease>, next: Option<Lease>)
    requires fleet.Dated(then_, before) && then_ <= now && Since(next, then_)
    requires forall l <- others :: l in before || l >= then_
    ensures fleet.Dated(now, others)
    ensures forall p <- fleet.running :: p in fleet.uses && LeaseSet(fleet.uses[p]) !! LeaseSet(next)
  {
  }

  lemma OthersProtectNothing(fleet: Fleet, acquired: nat, others: set<Lease>, leases: set<Lease>)
    requires fleet.Dated(acquired, others)
    ensures fleet.Protected(others + leases) <==> fleet.Protected(leases)
  {
    forall p <- fleet.running
      ensures LeaseSet(fleet.uses[p]) <= others + leases <==> LeaseSet(fleet.uses[p]) <= leases
    {
      LeaseIn(fleet.uses[p], others + leases);
      LeaseIn(fleet.uses[p], leases);
      LeaseIn(fleet.uses[p], LeaseSet(fleet.uses[p]));
    }
  }

  lemma ReplacementIsDated(
      fleet: Fleet, previous: Option<Lease>, next: Option<Lease>, o: Replacing, acquired: nat, others: set<Lease>)
    requires fleet.Serves(previous) && fleet.Dated(acquired, others)
    requires forall l <- LeaseSet(previous) + LeaseSet(next) :: l < acquired && l !in others
    ensures forall cancelled :: fleet.Replaced(previous, next, o, cancelled).Dated(acquired, others)
  {
    forall cancelled ensures fleet.Replaced(previous, next, o, cancelled).Dated(acquired, others) {
      var after := fleet.Replaced(previous, next, o, cancelled);
      forall p <- after.running
        ensures p in after.uses && forall l <- LeaseSet(after.uses[p]) :: l < acquired && l !in others
      {
        assert p in fleet.running || LeaseSet(after.uses[p]) <= LeaseSet(previous) + LeaseSet(next);
      }
    }
  }

  /** If every stop succeeds there is never more than the observed process. */
  lemma ReplacementIsSole(
      fleet: Fleet, previous: Option<Lease>, next: Option<Lease>, o: Replacing, cancelled: bool)
    requires fleet.Serves(previous) && fleet.Sole() && StopsSucceed(o)
    ensures fleet.Replaced(previous, next, o, cancelled).Sole()
  {
  }

  // ---------------------------------------------------------------- the supervisor

  predicate Since(lease: Option<Lease>, bound: nat) {
    lease.Some? ==> lease.value >= bound
  }

  function LeaseSet(lease: Option<Lease>): set<Lease> {
    if lease.Some? then {lease.value} else {}
  }

  class Supervisor {
    var held: set<Lease>
    var acquired: nat
    ghost var released: multiset<Lease>
    var artifacts: set<nat>
    var compiler: Option<Compiler>
    var current: Option<Generation>
    var next: nat
    var watch: Watch
    var cancelled: bool
    var fleet: Fleet
    ghost var history: seq<Sight>
    ghost var attempts: seq<Attempt>
    ghost var reset: nat

    /** Every lease ever acquired is held or has been released exactly once. */
    ghost predicate Accounted()
      reads this`held, this`acquired, this`released
    {
      forall l: Lease :: (l in held ==> l < acquired) && released[l] == if l < acquired && l !in held then 1 else 0
    }

    function CompilerLeases(): set<Lease>
      reads this`compiler
    {
      if compiler.Some? then {compiler.value.lease} else {}
    }

    /** Exactly these leases are held besides the warm compiler's. */
    ghost predicate Holding(leases: set<Lease>)
      reads this`held, this`acquired, this`released, this`compiler
    {
      Accounted() && held == CompilerLeases() + leases && CompilerLeases() !! leases
    }

    /** Exactly the current generation's lease is held, and its artifact is there as long as
        a rollback could still need it. */
    ghost predicate Keeps()
      reads this`held, this`acquired, this`released, this`compiler, this`current, this`artifacts, this`next,
          this`cancelled
    {
      && current.Some? && Holding(LeaseSet(current.value.python.lease))
      && (!cancelled ==> current.value.number in artifacts)
      && current.value.number < next && (forall a <- artifacts :: a < next)
    }

    /** The observed process is the current generation's. */
    predicate Observes()
      reads this`current, this`fleet
    {
      current.Some? && fleet.Serves(current.value.python.lease)
    }

    /** The loop head; no process uses the compiler's lease. */
    ghost predicate Settled()
      reads this
    {
      Keeps() && Observes() && fleet.Dated(acquired, CompilerLeases())
    }

    /** The only process runs under a lease that is held. */
    lemma SoleIsProtected()
      requires Settled() && fleet.Sole()
      ensures fleet.Protected(held)
    {
    }

    ghost predicate Watching()
      reads this`reset, this`history, this`watch, this`attempts
    {
      && reset <= |history| && CandidateFits(watch, history, reset)
      && NeverRepeats(attempts)
      && (attempts != [] && !attempts[|attempts| - 1].succeeded ==> watch.baseline == attempts[|attempts| - 1].digest)
    }

    constructor ()
      ensures Holding({}) && held == {} && acquired == 0 && artifacts == {} && current.None? && !cancelled
      ensures history == [] && attempts == [] && reset == 0 && fleet.running == {}
    {
      fleet := Fleet(0, 0, {}, map[]);
      held, acquired, released, artifacts := {}, 0, multiset{}, {};
      compiler, current, next, watch, cancelled := None, None, 1, Watch("", "", 0), false;
      history, attempts, reset := [], [], 0;
    }

    /** A fresh lease file, protected from pruning while it is held. */
    method Acquire() returns (lease: Lease)
      requires Accounted()
      modifies this`held, this`acquired
      ensures Accounted() && lease !in old(held) && held == old(held) + {lease}
      ensures lease == old(acquired) && acquired == old(acquired) + 1
    {
      lease := acquired;
      acquired := acquired + 1;
      held := held + {lease};
    }

    method Release(lease: Option<Lease>)
      requires Accounted() && (lease.Some? ==> lease.value in held)
      modifies this`held, this`released
      ensures Accounted() && held == old(held) - LeaseSet(lease)
    {
      if lease.Some? {
        held := held - {lease.value};
        released := released + multiset{lease.value};
      }
    }

    /** `servePython` */
    method ServePython(python: Python, ghost others: set<Lease>) returns (r: Option<Selection>)
      requires Holding(others)
      modifies this`held, this`acquired
      ensures r.Some? <==> !python.Missing?
      ensures r.Some? ==> Selects(python, r.value)
      ensures python.Managed? ==> r.Some? && r.value.executable == python.executable && r.value.lease.Some?
      ensures python.Custom? ==> r == Some(Selection(python.executable, None))
      ensures r.Some? ==> Holding(others + LeaseSet(r.value.lease)) && LeaseSet(r.value.lease) !! others
      ensures r.None? ==> Holding(others)
      ensures acquired >= old(acquired) && (r.Some? ==> Since(r.value.lease, old(acquired)))
    {
      match python {
        case Missing => return None;
        case Custom(executable) => return Some(Selection(executable, None));
        case Managed(executable) =>
          var lease := Acquire();
          return Some(Selection(executable, Some(lease)));
      }
    }

    /** `reloadBundleAndPython`: a second resolution if synchronisation changed the bundle. */
    method BundleAndPython(loads: Loads, ghost others: set<Lease>) returns (r: Option<(string, Selection)>)
      requires Holding(others)
      modifies this`held, this`acquired, this`released
      ensures r.Some? <==> FinalDigest(loads).Some?
      ensures r.Some? ==> Some(r.value.0) == FinalDigest(loads) && Selects(FinalPython(loads), r.value.1)
      ensures r.Some? && loads.second == loads.first ==>
                !loads.python.Missing? && r.value.1.executable == loads.python.executable
      ensures r.Some? && loads.second != loads.first ==>
                && !loads.again.Missing? && r.value.1.executable == loads.again.executable
                && loads.third == Some(r.value.0)
      ensures r.Some? ==> Holding(others + LeaseSet(r.value.1.lease)) && LeaseSet(r.value.1.lease) !! others
      ensures r.None? ==> Holding(others)
      ensures acquired >= old(acquired) && (r.Some? ==> Since(r.value.1.lease, old(acquired)))
    {
      hide Accounted;
      if loads.first.None? {
        return None;
      }
      var python := ServePython(loads.python, others);
      if python.None? {
        return None;
      }
      if loads.second.None? {
        Release(python.value.lease);
        return None;
      }
      if loads.second == loads.first {
        return Some((loads.second.value, python.value));
      }
      Release(python.value.lease);
      python := ServePython(loads.again, others);
      if python.None? {
        return None;
      }
      if loads.third.None? {
        Release(python.value.lease);
        return None;
      }
      return Some((loads.third.value, python.value));
    }

    /** `close` of the warm compiler */
    method CloseCompiler(ghost others: set<Lease>)
      requires Holding(others)
      modifies this`held, this`released, this`compiler
      ensures Holding(others) && compiler.None?
    {
      if compiler.Some? {
        Release(Some(compiler.value.lease));
        compiler := None;
      }
    }

    predicate Fits(identity: string)
      reads this`compiler
    {
      compiler.Some? && compiler.value.identity == identity
    }

    /** `compilerFor` and `start` */
    method CompilerFor(o: Compiling, ghost others: set<Lease>) returns (ok: bool)
      requires Holding(others)
      modifies this`held, this`acquired, this`released, this`compiler
      ensures Holding(others)
      ensures ok <==> old(Fits(o.identity)) || (o.leased && o.started)
      ensures ok ==> Fits(o.identity)
      ensures !ok ==> compiler.None?
      ensures old(Fits(o.identity)) ==> compiler == old(compiler)
      ensures acquired >= old(acquired)
      ensures compiler == old(compiler) || compiler.None? || Since(Some(compiler.value.lease), old(acquired))
    {
      if Fits(o.identity) {
        return true;
      }
      CloseCompiler(others);
      if !o.leased {
        return false;
      }
      var lease := Acquire();
      if !o.started {
        Release(Some(lease));
        return false;
      }
      compiler := Some(Compiler(o.identity, lease));
      return true;
    }

    /** The pool's `compile` */
    method Compile(python: Selection, o: Compiling, ghost others: set<Lease>) returns (ok: bool)
      requires Holding(others)
      modifies this`held, this`acquired, this`released, this`compiler
      ensures Holding(others)
      ensures python.lease.None? ==> ok == o.accepted && compiler == old(compiler)
      ensures python.lease.Some? ==>
                (ok <==> (old(Fits(o.identity)) || (o.leased && o.started)) && o.usable && o.accepted)
      ensures python.lease.Some? && !o.usable ==> compiler.None?
      ensures python.lease.Some? && ok ==> Fits(o.identity)
      ensures acquired >= old(acquired)
      ensures compiler == old(compiler) || compiler.None? || Since(Some(compiler.value.lease), old(acquired))
    {
      if python.lease.None? {
        return o.accepted;
      }
      var found := CompilerFor(o, others);
      if !found {
        return false;
      }
      if !o.usable {
        CloseCompiler(others);
        return false;
      }
      return o.accepted;
    }

    /** `prepareReloadGeneration` */
    method Prepare(number: nat, o: Preparing, ghost others: set<Lease>) returns (r: Option<Generation>)
      requires Holding(others) && number !in artifacts
      modifies this`held, this`acquired, this`released, this`compiler, this`artifacts
      ensures r.Some? ==> r.value.number == number && artifacts == old(artifacts) + {number}
      ensures r.Some? ==> Some(r.value.digest) == FinalDigest(o.loads) && Selects(FinalPython(o.loads), r.value.python)
      ensures r.Some? ==> Holding(others + LeaseSet(r.value.python.lease)) && LeaseSet(r.value.python.lease) !! others
      ensures r.None? ==> Holding(others) && artifacts == old(artifacts)
      ensures acquired >= old(acquired) && (r.Some? ==> Since(r.value.python.lease, old(acquired)))
      ensures compiler == old(compiler) || compiler.None? || Since(Some(compiler.value.lease), old(acquired))
    {
      hide Accounted;
      var found := BundleAndPython(o.loads, others);
      if found.None? {
        return None;
      }
      var (digest, python) := found.value;
      artifacts := artifacts + {number};
      var compiled := Compile(python, o.compiling, others + LeaseSet(python.lease));
      if !compiled || !o.launcher {
        Release(python.lease);
        artifacts := artifacts - {number};
        return None;
      }
      return Some(Generation(number, digest, python));
    }

    /** `startReloadGeneration`: only ever called for a generation whose environment is
        leased and whose artifact is there. */
    method Start(generation: Generation, succeeds: bool) returns (started: bool)
      requires LeaseSet(generation.python.lease) <= held && generation.number in artifacts
      modifies this`fleet
      ensures started <==> succeeds
      ensures fleet == if succeeds then old(fleet).Started(generation.python.lease) else old(fleet)
    {
      if succeeds {
        fleet := fleet.Started(generation.python.lease);
      }
      return succeeds;
    }

    /** Two generations are leased: the current one and its would-be replacement. */
    ghost predicate Replaceable(generation: Generation)
      reads this`held, this`acquired, this`released, this`compiler, this`current, this`artifacts, this`next,
          this`cancelled
    {
      && current.Some? && current.value.number != generation.number
      && Holding(LeaseSet(current.value.python.lease) + LeaseSet(generation.python.lease))
      && LeaseSet(current.value.python.lease) !! LeaseSet(generation.python.lease)
      && generation.number in artifacts && (!cancelled ==> current.value.number in artifacts)
      && current.value.number < next && (forall a <- artifacts :: a < next)
    }

    lemma LeasesAreDated(generation: Generation)
      requires Replaceable(generation)
      ensures forall l <- LeaseSet(current.value.python.lease) + LeaseSet(generation.python.lease) ::
                l < acquired && l !in CompilerLeases()
    {
    }

    lemma HeldIsDated(leases: set<Lease>)
      requires Holding(leases)
      ensures forall l <- leases :: l < acquired && l !in CompilerLeases()
    {
    }

    /** The replacement becomes the current generation. */
    method Commit(generation: Generation)
      requires Replaceable(generation)
      modifies this`held, this`released, this`artifacts, this`current
      ensures Keeps() && current == Some(generation) && artifacts == old(artifacts) - {old(current).value.number}
    {
      hide Accounted;
      artifacts := artifacts - {current.value.number};
      Release(current.value.python.lease);
      current := Some(generation);
    }

    /** A failed replacement is given up. */
    method Withdraw(generation: Generation)
      requires Replaceable(generation)
      modifies this`held, this`released, this`artifacts
      ensures Keeps() && artifacts == old(artifacts) - {generation.number}
    {
      hide Accounted;
      artifacts := artifacts - {generation.number};
      Release(generation.python.lease);
    }

    /** A replacement that failed during the shutdown is kept in place of the old one. */
    method Adopt(generation: Generation)
      requires Replaceable(generation) && cancelled
      modifies this`held, this`released, this`artifacts, this`current
      ensures Keeps() && current == Some(generation) && artifacts == old(artifacts) - {generation.number}
    {
      hide Accounted;
      artifacts := artifacts - {generation.number};
      Release(current.value.python.lease);
      current := Some(generation);
    }

    /** `replace` and `restore`: the old lease and artifact survive until the replacement is
        committed, so a rollback starts a protected generation. A failed stop does not hold
        the replacement up; what it leaves of the processes is `Fleet.Replaced`. */
    method Replace(generation: Generation, o: Replacing) returns (ok: bool)
      requires Replaceable(generation) && Observes()
      modifies this`held, this`released, this`artifacts, this`current, this`cancelled
      modifies this`fleet
      ensures fleet == old(fleet).Replaced(old(current).value.python.lease, generation.python.lease, o, cancelled)
      ensures Keeps() && Observes() && (old(cancelled) ==> cancelled)
      ensures Commits(o) ==> ok && current == Some(generation)
      ensures Commits(o) ==> artifacts == old(artifacts) - {old(current).value.number}
      ensures !Commits(o) ==> artifacts == old(artifacts) - {generation.number}
      ensures !Commits(o) && !cancelled ==> current == old(current) && (ok <==> o.restored)
      ensures !Commits(o) && cancelled ==>
                ok && current == if o.started then Some(generation) else old(current)
      ensures cancelled <==>
                (old(cancelled) || (!Commits(o) && (o.cancelled || (o.started && o.startup.Interrupted?))))
    {
      hide Accounted;
      hide Fleet.Serves;
      var previous := current.value;
      ReplacementServes(fleet, previous.python.lease, generation.python.lease, o);
      fleet := fleet.Stopped(fleet.server, o.stopped);
      var replacement := fleet.count;
      var started := Start(generation, o.started);
      if started && o.startup.Alive? {
        fleet := fleet.(server := replacement);
        Commit(generation);
        return true;
      }
      if started {
        fleet := fleet.Stopped(replacement, !Lingers(o));
      }
      cancelled := cancelled || o.cancelled || (started && o.startup.Interrupted?);
      if cancelled {
        if started {
          fleet := fleet.(server := replacement);
          Adopt(generation);
        } else {
          Withdraw(generation);
        }
        return true;
      }
      Withdraw(generation);
      var rollback := fleet.count;
      ok := Start(previous, o.restored);
      if ok {
        fleet := fleet.(server := rollback);
      }
    }

    /** `replace`, by what it means for the processes. */
    method Exchange(generation: Generation, o: Replacing) returns (ok: bool)
      requires Replaceable(generation) && Observes() && fleet.Dated(acquired, CompilerLeases())
      requires forall p <- fleet.running ::
                 p in fleet.uses && LeaseSet(fleet.uses[p]) !! LeaseSet(generation.python.lease)
      modifies this`held, this`released, this`artifacts, this`current, this`cancelled, this`fleet
      ensures Settled() && (old(cancelled) ==> cancelled)
      ensures old(fleet).Sole() && StopsSucceed(o) ==> fleet.Sole()
      ensures fleet.Protected(held) <==>
                old(fleet).Protected(LeaseSet(old(current).value.python.lease)) &&
                !old(fleet).Exposes(old(current).value.python.lease, o, cancelled)
    {
      hide Accounted;
      hide Fleet.Replaced;
      hide Fleet.Dated;
      hide Fleet.Protected;
      hide Fleet.Exposes;
      var before, previous := fleet, current.value.python.lease;
      ghost var kept := CompilerLeases() + LeaseSet(previous);
      OthersProtectNothing(fleet, acquired, CompilerLeases(), LeaseSet(previous));
      LeasesAreDated(generation);
      ReplacementIsDated(fleet, previous, generation.python.lease, o, acquired, CompilerLeases());
      ok := Replace(generation, o);
      ReplacementExposesIff(before, previous, generation.python.lease, o, cancelled, kept, held);
      if before.Sole() && StopsSucceed(o) {
        ReplacementIsSole(before, previous, generation.python.lease, o, cancelled);
      }
    }

    /** What an attempt leaves in the watch: a digest that failed becomes the baseline too. */
    method NoteAttempt(candidate: string, generation: Option<Generation>)
      requires MayFollow(attempts, candidate)
      modifies this`next, this`attempts, this`reset, this`watch
      ensures Watching() && next == old(next) + 1
      ensures attempts == old(attempts) + [Attempt(candidate, generation.Some?)]
    {
      next := next + 1;
      AttemptAdded(attempts, candidate, generation.Some?);
      attempts := attempts + [Attempt(candidate, generation.Some?)];
      reset := |history|;
      watch := Watch(if generation.Some? then generation.value.digest else candidate, "", 0);
    }

    /** The part of `poll` behind the debouncing. */
    method Rebuild(preparing: Preparing, replacing: Replacing) returns (ok: bool)
      requires Settled() && MayFollow(attempts, watch.candidate)
      modifies this
      ensures Settled() && Watching() && (old(cancelled) ==> cancelled) && history == old(history)
      ensures old(fleet).Sole() && StopsSucceed(replacing) ==> fleet.Sole()
      ensures exists succeeded :: attempts == old(attempts) + [Attempt(old(watch.candidate), succeeded)]
                && (!succeeded ==> ok && current == old(current) && artifacts == old(artifacts))
                && (fleet.Protected(held) <==>
                      old(fleet.Protected(held)) &&
                      !(succeeded && old(fleet).Exposes(old(current).value.python.lease, replacing, cancelled)))
    {
      hide Accounted;
      hide MayFollow;
      hide Watching;
      hide Fleet.Replaced;
      hide Fleet.Serves;
      hide Fleet.Dated;
      hide Fleet.Protected;
      hide Fleet.Exposes;
      var candidate, previous := watch.candidate, current.value.python.lease;
      ghost var then_, others := acquired, CompilerLeases();
      var generation := Prepare(next, preparing, LeaseSet(previous));
      ghost var lease := if generation.Some? then generation.value.python.lease else None;
      StaysDated(fleet, then_, others, acquired, CompilerLeases(), lease);
      OthersProtectNothing(fleet, then_, others, LeaseSet(previous));
      OthersProtectNothing(fleet, acquired, CompilerLeases(), LeaseSet(previous));
      hide LeaseSet;
      NoteAttempt(candidate, generation);
      if generation.None? {
        return true;
      }
      ok := Exchange(generation.value, replacing);
    }

    /** `poll`: a rebuild is attempted only for a debounced digest, and never again for one
        that just failed. */
    method Poll(digest: Option<string>, now: int, preparing: Preparing, replacing: Replacing) returns (ok: bool)
      requires Settled() && Watching() && digest != Some("")
      modifies this
      ensures Settled() && Watching() && (old(cancelled) ==> cancelled)
      ensures history == old(history) + [Sight(digest, now)]
      ensures old(fleet).Sole() && StopsSucceed(replacing) ==> fleet.Sole() && fleet.Protected(held)
      ensures fleet.Protected(held) <==>
                old(fleet.Protected(held)) &&
                !(|attempts| > |old(attempts)| && attempts[|attempts| - 1].succeeded
                  && old(fleet).Exposes(old(current).value.python.lease, replacing, cancelled))
      ensures |attempts| == |old(attempts)| +
                if digest.Some? && Debounced(old(watch.baseline), history, old(reset), digest.value) then 1 else 0
      ensures attempts == old(attempts) ==> ok && current == old(current) && artifacts == old(artifacts)
      ensures attempts == old(attempts) ==>
                watch == if digest.None? then old(watch) else Observed(old(watch), digest.value, now)
      ensures attempts == old(attempts)
                || (digest.Some? && Debounced(old(watch.baseline), history, old(reset), digest.value)
                    && exists succeeded :: attempts == old(attempts) + [Attempt(digest.value, succeeded)]
                         && (!succeeded ==> ok && current == old(current) && artifacts == old(artifacts)))
    {
      hide Accounted;
      hide Fleet.Serves;
      hide Fleet.Protected;
      hide Fleet.Sole;
      hide Fleet.Exposes;
      hide Fleet.Dated;
      if fleet.Sole() { SoleIsProtected(); }
      history := history + [Sight(digest, now)];
      if digest.None? {
        MissedFits(watch, old(history), reset, now);
        return true;
      }
      ObservedFits(watch, old(history), reset, digest.value, now);
      var ready := Ready(watch, digest.value, now);
      watch := Observed(watch, digest.value, now);
      if !ready {
        return true;
      }
      ok := Rebuild(preparing, replacing);
      if fleet.Sole() { SoleIsProtected(); }
    }

    /** The last process is stopped and then its lease is released. */
    method Finish(stopped: bool)
      requires Settled()
      modifies this`held, this`released, this`fleet
      ensures Holding({})
      ensures old(fleet).Sole() && stopped ==> fleet.running == {}
      ensures fleet.Protected(held) <==>
                old(fleet.Protected(held)) && !old(fleet).Outlasts(old(current).value.python.lease, stopped)
    {
      hide Accounted;
      fleet := fleet.Stopped(fleet.server, stopped);
      Release(current.value.python.lease);
    }

    /** `run`: the current generation's lease is the one released at the end. `stopped` says
        whether the last process could be stopped; if every stop succeeds none is left. */
    method Run(events: seq<Event>, stopped: bool) returns (ok: bool)
      requires Settled() && Watching() && forall e <- events :: e.Tick? ==> e.digest != Some("")
      modifies this
      ensures Holding({}) && Watching()
      ensures old(fleet).Sole() && stopped && AllStop(events) ==> fleet.running == {}
    {
      hide Accounted;
      hide Keeps;
      hide Observes;
      var i := 0;
      while i < |events|
        invariant 0 <= i <= |events| && Settled() && Watching()
        invariant old(fleet).Sole() && AllStop(events) ==> fleet.Sole()
      {
        match events[i] {
          case Cancel =>
            Finish(stopped);
            return true;
          case Exit =>
            ok := cancelled;
            Finish(true);
            return;
          case Tick(digest, now, preparing, replacing) =>
            assert events[i] in events;
            ok := Poll(digest, now, preparing, replacing);
            if !ok {
              Finish(stopped);
              return;
            }
        }
        i := i + 1;
      }
      Finish(stopped);
      return true;
    }

    /** The first generation becomes the current one. */
    method Take(generation: Generation, process: nat)
      requires Holding(LeaseSet(generation.python.lease)) && artifacts == {1} && generation.number == 1
      requires history == [] && attempts == [] && reset == 0
      requires fleet.(server := process).Serves(generation.python.lease)
      requires fleet.Dated(acquired, CompilerLeases())
      modifies this`current, this`next, this`fleet, this`watch
      ensures Settled() && Watching() && fleet == old(fleet).(server := process)
    {
      hide Accounted;
      current, next, fleet := Some(generation), 2, fleet.(server := process);
      watch := Watch(generation.digest, "", 0);
    }

    /** The first generation. */
    method Begin(preparing: Preparing, started: bool) returns (ok: bool)
      requires Holding({}) && compiler.None? && artifacts == {} && history == [] && attempts == [] && reset == 0
      requires fleet.running == {}
      modifies this
      ensures ok ==> Settled() && Watching() && fleet.Sole()
      ensures !ok ==> fleet.running == {}
      ensures !ok ==> Holding({}) && attempts == []
    {
      hide Accounted;
      var generation := Prepare(1, preparing, {});
      if generation.None? {
        return false;
      }
      HeldIsDated(LeaseSet(generation.value.python.lease));
      var process := fleet.count;
      var running := Start(generation.value, started);
      if !running {
        Release(generation.value.python.lease);
        return false;
      }
      Take(generation.value, process);
      return true;
    }

    /** `serveReload`, from the first generation to the closing of the compiler: in the end
        every lease ever acquired has been released exactly once. */
    method Serve(preparing: Preparing, started: bool, events: seq<Event>, stopped: bool) returns (ok: bool)
      requires Holding({}) && compiler.None? && artifacts == {} && history == [] && attempts == [] && reset == 0
      requires fleet.running == {}
      requires forall e <- events :: e.Tick? ==> e.digest != Some("")
      modifies this
      ensures held == {} && forall l: Lease :: l < acquired ==> released[l] == 1
      ensures NeverRepeats(attempts)
      ensures stopped && AllStop(events) ==> fleet.running == {}
    {
      ok := Begin(preparing, started);
      if ok {
        ok := Run(events, stopped);
      }
      CloseCompiler({});
    }
  }
}
