/** Which fingerprint a publication records: over whole runs, exactly when it is the one the
    install was made from. */
module EnvironmentPublications {
  import opened Basics
  import opened EnvironmentModel
  import opened EnvironmentProtocol
  import opened EnvironmentSafety
  import opened EnvironmentTheorems

  // ---------------------------------------------------------------- when a process reads the inputs

  /** What an installation is made from is read in two parts. */
  datatype Part = Authored | Committed

  function PartOf(part: Part, fingerprint: Fingerprint): (Profile, int) {
    (fingerprint.profile, if part.Authored? then fingerprint.reading.authored else fingerprint.reading.committed)
  }

  /** The profile an installation is for. */
  function ProfileOf(c: Stage): Profile {
    match c
    case Listing(job, _, _) => job.profile
    case Checking(job, _, _, _) => job.profile
    case Invalidating(job, _, _) => job.profile
    case Clearing(job, _, _) => job.profile
    case Resolving(job, _, _) => job.profile
    case Installing(job, _, _) => job.profile
    case Verifying(job, _, _) => job.profile
    case Sealing(job, _, _) => job.profile
    case Publishing(job, _, _, _) => job.profile
    case _ => Runtime
  }

  /** What one profile depended on in a state of a run. */
  function InputsAt(run: seq<World>, i: nat, profile: Profile): Reading
    requires i < |run|
  {
    run[i].shared.inputs.Of(profile).reading
  }

  /** The authored inputs are read when a frozen lock is validated, or else when the packages
      are resolved; the committed lock is read when it is rendered, in any run. */
  predicate Reads(part: Part, c: Stage, d: Stage) {
    match part
    case Authored => (c.Validating? && c.job.frozen && d.Listing?) || (c.Resolving? && !c.job.frozen && d.Installing?)
    case Committed => c.Resolving? && d.Installing?
  }

  /** What was read, as the process carries it on. */
  function ReadValue(part: Part, c: Stage): Option<(Profile, int)> {
    match c
    case Listing(_, _, basis) => BasisValue(part, basis)
    case Checking(_, _, basis, _) => BasisValue(part, basis)
    case Invalidating(_, _, basis) => BasisValue(part, basis)
    case Clearing(_, _, basis) => BasisValue(part, basis)
    case Resolving(_, _, basis) => BasisValue(part, basis)
    case Installing(_, _, resolved) => Some(PartOf(part, resolved))
    case Verifying(_, _, resolved) => Some(PartOf(part, resolved))
    case Sealing(_, _, resolved) => Some(PartOf(part, resolved))
    case Publishing(_, _, resolved, _) => Some(PartOf(part, resolved))
    case _ => None
  }

  /** Of the inputs that were validated only the authored ones are used. */
  function BasisValue(part: Part, basis: Option<Fingerprint>): Option<(Profile, int)> {
    if part.Authored? && basis.Some? then Some(PartOf(part, basis.value)) else None
  }

  /** The step from one state of a run to the next is this process's, from one stage to another. */
  ghost predicate Moved(run: seq<World>, i: nat, p: Process) {
    i + 1 < |run| && p in run[i].stages && p in run[i + 1].stages
  }

  ghost predicate ReadsAt(run: seq<World>, part: Part, i: nat, p: Process) {
    Moved(run, i, p) && Reads(part, run[i].stages[p], run[i + 1].stages[p])
  }

  /** The fingerprint to be recorded is computed. */
  ghost predicate SealsAt(run: seq<World>, k: nat, p: Process) {
    Moved(run, k, p) && run[k].stages[p].Sealing? && run[k + 1].stages[p].Publishing?
  }

  /** The pointer is renamed into place. */
  ghost predicate PublishesAt(run: seq<World>, j: nat, p: Process) {
    Moved(run, j, p) && run[j].stages[p].Publishing? && run[j + 1].stages[p].Following?
  }

  /** What a process carries on, it has just read or already carried; what it is about to
      record, it has just computed. */
  ghost predicate CarriesOn(s: Shared, c: Stage, t: Shared, d: Stage) {
    && (forall part | ReadValue(part, d).Some? ::
          if Reads(part, c, d) then ReadValue(part, d) == Some(PartOf(part, t.inputs.Of(ProfileOf(d))))
          else ReadValue(part, d) == ReadValue(part, c) && ProfileOf(d) == ProfileOf(c))
    && (d.Publishing? ==>
          d == c || (c.Sealing? && d.job == c.job && d.final == s.inputs.Of(c.job.profile) && d.resolved == c.resolved))
  }

  lemma ChoosingReads(s: Shared, c: Stage, t: Shared, d: Stage)
    requires Chooses(c) && Local(s, c) && SelectAct(s, c, t, d)
    ensures CarriesOn(s, c, t, d)
  {
  }

  lemma InstallingReads(s: Shared, c: Stage, t: Shared, d: Stage)
    requires Installs(c) && Local(s, c) && InstallAct(s, c, t, d)
    ensures CarriesOn(s, c, t, d)
  {
  }

  lemma MigratingReads(s: Shared, c: Stage, t: Shared, d: Stage)
    requires Migrates(c) && MigrateAct(s, c, t, d)
    ensures CarriesOn(s, c, t, d)
  {
  }

  lemma LeasingReads(s: Shared, c: Stage, t: Shared, d: Stage)
    requires Leases(c) && LeaseAct(s, c, t, d)
    ensures CarriesOn(s, c, t, d)
  {
  }

  lemma PruningReads(s: Shared, c: Stage, t: Shared, d: Stage)
    requires Prunes(c) && PruneAct(s, c, t, d)
    ensures CarriesOn(s, c, t, d)
  {
  }

  lemma OutsideReads(s: Shared, c: Stage, t: Shared, d: Stage)
    requires !InSection(c) && !c.Crashed? && OutsideAct(s, c, t, d)
    ensures CarriesOn(s, c, t, d)
  {
  }

  lemma LeavingReads(s: Shared, c: Stage, t: Shared, d: Stage)
    requires d.Crashed? || (c.Unlocking? && d == Resume(c.after))
    ensures CarriesOn(s, c, t, d)
  {
  }

  lemma ActReads(s: Shared, c: Stage, t: Shared, d: Stage)
    requires Local(s, c) && Act(s, c, t, d)
    ensures CarriesOn(s, c, t, d)
  {
    hide SelectAct;
    hide InstallAct;
    hide MigrateAct;
    hide LeaseAct;
    hide PruneAct;
    hide OutsideAct;
    hide Local;
    hide CarriesOn;
    if !ProgramAct(s, c, t, d) {
      LeavingReads(s, c, t, d);
    } else if Chooses(c) {
      ChoosingReads(s, c, t, d);
    } else if Installs(c) {
      InstallingReads(s, c, t, d);
    } else if Migrates(c) {
      MigratingReads(s, c, t, d);
    } else if Leases(c) {
      LeasingReads(s, c, t, d);
    } else if Prunes(c) {
      PruningReads(s, c, t, d);
    } else if c.Unlocking? {
      LeavingReads(s, c, t, d);
    } else {
      OutsideReads(s, c, t, d);
    }
  }

  /** The same along a run, where most steps are not this process's. */
  lemma RunReads(run: seq<World>, part: Part, n: nat, p: Process)
    requires Run(run) && n + 1 < |run| && p in run[n + 1].stages && ReadValue(part, run[n + 1].stages[p]).Some?
    ensures p in run[n].stages
    ensures var c, d := run[n].stages[p], run[n + 1].stages[p];
            if ReadsAt(run, part, n, p)
            then ReadValue(part, d) == Some(PartOf(part, run[n + 1].shared.inputs.Of(ProfileOf(d))))
            else ReadValue(part, d) == ReadValue(part, c) && ProfileOf(d) == ProfileOf(c)
    ensures run[n + 1].stages[p].Publishing? ==>
              run[n + 1].stages[p] == run[n].stages[p] || Seals(run, n, p)
  {
    hide Act;
    RunKeepsInv(run, n);
    assert StepAt(run, n);
    if !UserStep(run[n], run[n + 1]) {
      var q :| ProcessStep(run[n], q, run[n + 1]);
      if q == p {
        assert Local(run[n].shared, run[n].stages[p]);
        ActReads(run[n].shared, run[n].stages[p], run[n + 1].shared, run[n + 1].stages[p]);
      }
    }
  }

  ghost predicate Seals(run: seq<World>, k: nat, p: Process) {
    && SealsAt(run, k, p) && run[k + 1].stages[p].job == run[k].stages[p].job
    && run[k + 1].stages[p].final == run[k].shared.inputs.Of(run[k].stages[p].job.profile)
    && run[k + 1].stages[p].resolved == run[k].stages[p].resolved
  }

  /** From behind one state on, and up to another, the process carries what it read there. */
  ghost predicate Carries(run: seq<World>, part: Part, i: nat, n: nat, p: Process) {
    i < n < |run| && forall m | i < m <= n :: CarriesAt(run, part, i, m, p)
  }

  ghost predicate CarriesAt(run: seq<World>, part: Part, i: nat, m: nat, p: Process)
    requires i < m < |run|
  {
    && p in run[i + 1].stages && p in run[m].stages
    && ProfileOf(run[m].stages[p]) == ProfileOf(run[i + 1].stages[p])
    && ReadValue(part, run[m].stages[p]) == Some(PartOf(part, run[i + 1].shared.inputs.Of(ProfileOf(run[m].stages[p]))))
  }

  /** The last read before a state is where the process got what it carries. */
  lemma {:induction false} LastRead(run: seq<World>, part: Part, n: nat, p: Process) returns (i: nat)
    requires Run(run) && n < |run| && p in run[n].stages && ReadValue(part, run[n].stages[p]).Some?
    ensures i < n && ReadsAt(run, part, i, p) && Carries(run, part, i, n, p)
    ensures forall m: nat | i < m < n :: !ReadsAt(run, part, m, p)
    decreases n
  {
    StartIsIdle(run, p);
    RunReads(run, part, n - 1, p);
    if ReadsAt(run, part, n - 1, p) {
      i := n - 1;
    } else {
      i := LastRead(run, part, n - 1, p);
      assert CarriesAt(run, part, i, n - 1, p);
    }
  }

  lemma StartIsIdle(run: seq<World>, p: Process)
    requires Run(run)
    ensures p in run[0].stages ==>
              (forall part :: ReadValue(part, run[0].stages[p]).None?) && !run[0].stages[p].Publishing?
  {
  }

  /** The last seal before a state in which the process is publishing. */
  lemma {:induction false} LastSeal(run: seq<World>, n: nat, p: Process) returns (k: nat)
    requires Run(run) && n < |run| && p in run[n].stages && run[n].stages[p].Publishing?
    ensures k < n && Seals(run, k, p)
    ensures forall m | k < m <= n :: p in run[m].stages && run[m].stages[p] == run[n].stages[p]
    decreases n
  {
    StartIsIdle(run, p);
    RunReads(run, Authored, n - 1, p);
    if Seals(run, n - 1, p) {
      k := n - 1;
    } else {
      k := LastSeal(run, n - 1, p);
    }
  }

  // ---------------------------------------------------------------- while the document stands

  /** The pointer has held the same document since a state. */
  ghost predicate Stands(run: seq<World>, j: nat, n: nat, file: StateFile) {
    j <= n < |run| && forall m | j <= m <= n :: SameDocument(run[j].shared, run[m].shared, file)
  }

  predicate SameDocument(s: Shared, t: Shared, file: StateFile) {
    file in s.states && file in t.states && t.states[file] == s.states[file]
  }

  /** A step leaves the directory alone that a current pointer names. */
  lemma StepKeepsPublished(w: World, v: World, file: StateFile)
    requires Inv(w) && Step(w, v)
    requires file in w.shared.states && CurrentPointer(file, w.shared.states[file])
    ensures Held(v.shared, w.shared.states[file].directory) == Held(w.shared, w.shared.states[file].directory)
  {
    hide Act;
    if !UserStep(w, v) {
      var p :| ProcessStep(w, p, v);
      assert Local(w.shared, w.stages[p]);
      ActWritesOwn(w.shared, w.stages[p], v.shared, v.stages[p]);
      PublishedIsNotMutated(w.shared, w.stages[p], file);
    }
  }

  lemma PublishedIsNotMutated(s: Shared, c: Stage, file: StateFile)
    requires Local(s, c) && file in s.states && CurrentPointer(file, s.states[file])
    ensures !Mutates(c, s.states[file].directory)
  {
  }

  lemma {:induction false} StandingIsKept(run: seq<World>, j: nat, n: nat, file: StateFile)
    requires Run(run) && Stands(run, j, n, file) && CurrentPointer(file, run[j].shared.states[file])
    ensures Held(run[n].shared, run[j].shared.states[file].directory) ==
              Held(run[j].shared, run[j].shared.states[file].directory)
    decreases n
  {
    hide Inv;
    hide Step;
    if j < n {
      StandingIsKept(run, j, n - 1, file);
      Behind(run, n - 1);
      assert SameDocument(run[j].shared, run[n - 1].shared, file);
      StepKeepsPublished(run[n - 1], run[n], file);
    }
  }

  lemma ExactIff(s: Shared, document: Document, slot: Name, built: Fingerprint)
    requires document.Published? && document.directory == slot && Held(s, slot) == Some(Directory(Complete(built)))
    ensures Exact(s, document) <==> document.fingerprint == built
  {
  }

  /** What one publication step leaves behind. */
  lemma PublicationWrites(w: World, v: World, p: Process)
    requires Inv(w) && Step(w, v)
    requires p in w.stages && p in v.stages && w.stages[p].Publishing? && v.stages[p].Following?
    ensures var c := w.stages[p];
            && StateOf(c.job.Family()) in v.shared.states
            && v.shared.states[StateOf(c.job.Family())] == Published(c.final, c.slot)
            && CurrentPointer(StateOf(c.job.Family()), Published(c.final, c.slot))
            && Held(v.shared, c.slot) == Some(Directory(Complete(c.resolved)))
  {
    assert Local(w.shared, w.stages[p]);
    assert !UserStep(w, v);
    var q :| ProcessStep(w, q, v);
    assert q == p;
  }

  // ---------------------------------------------------------------- results

  /** One installation of a process: where it last read the authored inputs and the lock it
      was made from, where it computed the fingerprint to record, and where it published. */
  ghost predicate Installation(run: seq<World>, i: nat, r: nat, k: nat, j: nat, p: Process) {
    && i <= r < k < j && SealsAt(run, k, p) && PublishesAt(run, j, p)
    && LastReadAt(run, Authored, i, j, p) && LastReadAt(run, Committed, r, j, p)
    && (forall m: nat | k < m <= j :: p in run[m].stages && run[m].stages[p].Publishing?)
  }

  ghost predicate LastReadAt(run: seq<World>, part: Part, i: nat, j: nat, p: Process) {
    && ReadsAt(run, part, i, p) && Carries(run, part, i, j, p)
    && forall m: nat | i < m < j :: !ReadsAt(run, part, m, p)
  }

  /** What was read for the profile is what was sealed. */
  predicate SameInputs(run: seq<World>, i: nat, r: nat, k: nat, profile: Profile)
    requires i + 1 < |run| && r + 1 < |run| && k < |run|
  {
    && InputsAt(run, i + 1, profile).authored == InputsAt(run, k, profile).authored
    && InputsAt(run, r + 1, profile).committed == InputsAt(run, k, profile).committed
  }

  lemma InstallationBehind(run: seq<World>, j: nat, p: Process) returns (i: nat, r: nat, k: nat)
    requires Run(run) && PublishesAt(run, j, p)
    ensures Installation(run, i, r, k, j, p)
    ensures var c := run[j].stages[p];
            && c.final == Fingerprint(c.job.profile, InputsAt(run, k, c.job.profile))
            && c.resolved == Fingerprint(c.job.profile, Reading(
                 InputsAt(run, i + 1, c.job.profile).authored, InputsAt(run, r + 1, c.job.profile).committed))
  {
    hide Run;
    k := LastSeal(run, j, p);
    i := LastRead(run, Authored, j, p);
    r := LastRead(run, Committed, j, p);
    assert run[k + 1].stages[p] == run[j].stages[p];
    assert CarriesAt(run, Authored, i, j, p) && CarriesAt(run, Committed, r, j, p);
    ReaderIsNotPublishing(run[r].stages[p], run[r + 1].stages[p]);
    AuthoredComesFirst(run, i, r, j, p);
  }

  lemma ReaderIsNotPublishing(c: Stage, d: Stage)
    requires Reads(Committed, c, d)
    ensures !c.Publishing? && !c.Sealing? && !d.Publishing?
  {
  }

  lemma AuthoredComesFirst(run: seq<World>, i: nat, r: nat, j: nat, p: Process)
    requires LastReadAt(run, Authored, i, j, p) && LastReadAt(run, Committed, r, j, p)
    ensures i <= r
  {
    assert r < i ==> CarriesAt(run, Committed, r, i + 1, p) && !ReadsAt(run, Committed, i, p);
  }

  lemma Behind(run: seq<World>, j: nat)
    requires Run(run) && j + 1 < |run|
    ensures Inv(run[j]) && Step(run[j], run[j + 1])
  {
    RunKeepsInv(run, j);
    assert StepAt(run, j);
  }

  /** Every publication records the fingerprint of the inputs as they were when it was sealed,
      for an install made from the authored inputs and the lock as they were when they were
      read; so the document is exact if and only if those agree, and that stays so for as long
      as the document stands. */
  lemma PublicationExactIff(run: seq<World>, j: nat, n: nat, p: Process) returns (i: nat, r: nat, k: nat)
    requires Run(run) && PublishesAt(run, j, p)
    requires Stands(run, j + 1, n, StateOf(run[j].stages[p].job.Family()))
    ensures Installation(run, i, r, k, j, p)
    ensures Exact(run[n].shared, run[n].shared.states[StateOf(run[j].stages[p].job.Family())]) <==>
              SameInputs(run, i, r, k, run[j].stages[p].job.profile)
  {
    hide Run;
    hide Inv;
    hide Step;
    hide Exact;
    i, r, k := InstallationBehind(run, j, p);
    Behind(run, j);
    PublicationWrites(run[j], run[j + 1], p);
    var c := run[j].stages[p];
    StandingIsKept(run, j + 1, n, StateOf(c.job.Family()));
    ExactIff(run[n].shared, Published(c.final, c.slot), c.slot, c.resolved);
  }

  /** Where a document that stands comes from. */
  datatype Origin = FromStart | FromPublication(p: Process, i: nat, r: nat, k: nat, j: nat)

  lemma {:induction false} OriginOf(run: seq<World>, n: nat, file: StateFile) returns (from: nat, p: Process)
    requires Run(run) && n < |run|
    requires file in run[n].shared.states && CurrentPointer(file, run[n].shared.states[file])
    ensures Stands(run, from, n, file)
    ensures from > 0 ==> PublishesAt(run, from - 1, p) && StateOf(run[from - 1].stages[p].job.Family()) == file
    decreases n
  {
    hide Inv;
    hide Step;
    hide Run;
    if n == 0 {
      return 0, 0;
    }
    Behind(run, n - 1);
    if SameDocument(run[n - 1].shared, run[n].shared, file) {
      from, p := OriginOf(run, n - 1, file);
    } else {
      from := n;
      p := WriterOf(run[n - 1], run[n], file);
    }
  }

  lemma WriterOf(w: World, v: World, file: StateFile) returns (p: Process)
    requires Inv(w) && Step(w, v) && file in v.shared.states && !SameDocument(w.shared, v.shared, file)
    ensures p in w.stages && p in v.stages && w.stages[p].Publishing? && v.stages[p].Following?
    ensures StateOf(w.stages[p].job.Family()) == file
  {
    p :| ProcessStep(w, p, v);
    assert Local(w.shared, w.stages[p]);
    ActWritesOwn(w.shared, w.stages[p], v.shared, v.stages[p]);
  }

  /** The pointers a run starts with were exact. */
  ghost predicate ExactAtStart(run: seq<World>, file: StateFile) {
    |run| > 0 && file in run[0].shared.states && Exact(run[0].shared, run[0].shared.states[file])
  }

  /** In any state of any run, a current pointer is exact if and only if it was published by
      an installation that read and sealed the same inputs, or stands since the start and was
      exact then. */
  lemma PublishedSlotMatchesFingerprint(run: seq<World>, n: nat, file: StateFile) returns (origin: Origin)
    requires Run(run) && n < |run|
    requires file in run[n].shared.states && CurrentPointer(file, run[n].shared.states[file])
    ensures match origin
            case FromStart =>
              && Stands(run, 0, n, file)
              && (Exact(run[n].shared, run[n].shared.states[file]) <==> ExactAtStart(run, file))
            case FromPublication(p, i, r, k, j) =>
              && Installation(run, i, r, k, j, p) && Stands(run, j + 1, n, file)
              && (Exact(run[n].shared, run[n].shared.states[file]) <==>
                    SameInputs(run, i, r, k, run[j].stages[p].job.profile))
  {
    hide Run;
    hide Installation;
    var from, p := OriginOf(run, n, file);
    if from == 0 {
      assert SameDocument(run[0].shared, run[n].shared, file);
      StandingIsKept(run, 0, n, file);
      origin := FromStart;
    } else {
      var i, r, k := PublicationExactIff(run, from - 1, n, p);
      origin := FromPublication(p, i, r, k, from - 1);
    }
  }

  /** Whatever step fails or crashes, a current pointer names a slot with a complete install. */
  lemma PublishedSlotIsComplete(run: seq<World>, i: nat, file: StateFile)
    requires Run(run) && i < |run|
    requires file in run[i].shared.states && CurrentPointer(file, run[i].shared.states[file])
    ensures Installed(run[i].shared, run[i].shared.states[file].directory)
  {
    RunKeepsInv(run, i);
    assert Serves(run[i].shared, run[i].shared.states[file]);
  }

  // ---------------------------------------------------------------- runs without an edit under an installation

  /** The step does not change the inputs while a process carries what it read. */
  ghost predicate Calm(w: World, v: World) {
    w.shared.inputs != v.shared.inputs ==> forall p <- w.stages, part :: ReadValue(part, w.stages[p]).None?
  }

  ghost predicate CalmAt(run: seq<World>, i: nat)
    requires i + 1 < |run|
  {
    Calm(run[i], run[i + 1])
  }

  ghost predicate CalmRun(run: seq<World>) {
    forall i: nat | i + 1 < |run| :: CalmAt(run, i)
  }

  lemma {:induction false} CarriedIsCurrent(run: seq<World>, part: Part, i: nat, n: nat, p: Process)
    requires Run(run) && CalmRun(run) && ReadsAt(run, part, i, p) && Carries(run, part, i, n, p)
    ensures run[n].shared.inputs == run[i + 1].shared.inputs
    decreases n
  {
    hide Step;
    if n > i + 1 {
      assert CalmAt(run, n - 1);
      assert CarriesAt(run, part, i, n - 1, p);
      CarriedIsCurrent(run, part, i, n - 1, p);
    }
  }

  /** In particular: without edits under installations every publication of the run is exact. */
  lemma CalmRunRecordsExactly(run: seq<World>, n: nat, file: StateFile)
    requires Run(run) && CalmRun(run) && n < |run|
    requires file in run[n].shared.states && CurrentPointer(file, run[n].shared.states[file])
    ensures Exact(run[n].shared, run[n].shared.states[file]) ||
            (Stands(run, 0, n, file) && !ExactAtStart(run, file))
  {
    hide Run;
    hide CalmRun;
    var origin := PublishedSlotMatchesFingerprint(run, n, file);
    if origin.FromPublication? {
      CarriedIsCurrent(run, Authored, origin.i, origin.k, origin.p);
      CarriedIsCurrent(run, Committed, origin.r, origin.k, origin.p);
    }
  }

  // ---------------------------------------------------------------- the failing run

  // The one-process run behind the next theorem: sixteen states, the edit between the
  // eleventh and the twelfth.

  const BEFORE := Inputs(Reading(1, 0), Reading(0, 0), Reading(0, 0), Reading(0, 0))
  const FIRST := BEFORE.Of(Runtime)
  const AFTER := BEFORE.(runtime := Reading(2, 0))
  const SECOND := AFTER.Of(Runtime)
  const EDIT_SLOT := Slot(AgentFamily, false)
  const EDIT_JOB := Job(Runtime, false, false, FIRST)
  const EDIT_START := Shared(false, map[], map[], map[], NoLink, BEFORE, map[])
  const EDIT_LOCKED := EDIT_START.(lock := true)
  const EDIT_CLEARED := EDIT_LOCKED.(entries := map[EDIT_SLOT := Directory(Partial(0))])
  const EDIT_EDITED := EDIT_CLEARED.(inputs := AFTER)
  const EDIT_BUILT := EDIT_EDITED.(entries := map[EDIT_SLOT := Directory(Complete(FIRST))])
  const EDIT_PUBLISHED := EDIT_BUILT.(states := map[AgentState := Published(SECOND, EDIT_SLOT)])

  const EDIT_SCRIPT: seq<(Shared, Stage)> := [
    (EDIT_START, Idle), (EDIT_START, Ready(EDIT_JOB)), (EDIT_LOCKED, Selecting(EDIT_JOB)),
    (EDIT_LOCKED, Staging(EDIT_JOB)), (EDIT_LOCKED, Validating(EDIT_JOB, EDIT_SLOT)),
    (EDIT_LOCKED, Listing(EDIT_JOB, EDIT_SLOT, None)), (EDIT_LOCKED, Checking(EDIT_JOB, EDIT_SLOT, None, {})),
    (EDIT_LOCKED, Invalidating(EDIT_JOB, EDIT_SLOT, None)), (EDIT_LOCKED, Clearing(EDIT_JOB, EDIT_SLOT, None)),
    (EDIT_CLEARED, Resolving(EDIT_JOB, EDIT_SLOT, None)), (EDIT_CLEARED, Installing(EDIT_JOB, EDIT_SLOT, FIRST)),
    (EDIT_EDITED, Installing(EDIT_JOB, EDIT_SLOT, FIRST)), (EDIT_BUILT, Verifying(EDIT_JOB, EDIT_SLOT, FIRST)),
    (EDIT_BUILT, Sealing(EDIT_JOB, EDIT_SLOT, FIRST)), (EDIT_BUILT, Publishing(EDIT_JOB, EDIT_SLOT, FIRST, SECOND)),
    (EDIT_PUBLISHED, Following(EDIT_JOB, EDIT_SLOT))]

  ghost predicate ScriptActs(i: nat)
    requires i + 1 < |EDIT_SCRIPT|
  {
    Act(EDIT_SCRIPT[i].0, EDIT_SCRIPT[i].1, EDIT_SCRIPT[i + 1].0, EDIT_SCRIPT[i + 1].1)
  }

  lemma ScriptStarts(i: nat)
    requires i < 4
    ensures ScriptActs(i)
  {
  }

  lemma ScriptSelects(i: nat)
    requires 4 <= i < 8
    ensures ScriptActs(i)
  {
  }

  lemma ScriptClears()
    ensures ScriptActs(8)
  {
    assert Disturbed(EDIT_LOCKED.entries, EDIT_CLEARED.entries, EDIT_SLOT);
  }

  lemma ScriptResolves()
    ensures ScriptActs(9)
  {
    assert BEFORE.Relocked(Runtime, 0) == BEFORE;
    assert EDIT_CLEARED == EDIT_CLEARED.(inputs := EDIT_CLEARED.inputs.Relocked(Runtime, 0));
  }

  lemma ScriptInstalls(i: nat)
    requires 11 <= i < 15
    ensures ScriptActs(i)
  {
  }

  lemma ScriptActsAt(i: nat)
    requires i < 15 && i != 10
    ensures ScriptActs(i)
  {
    hide ScriptActs;
    if i < 4 {
      ScriptStarts(i);
    } else if i < 8 {
      ScriptSelects(i);
    } else if i == 8 {
      ScriptClears();
    } else if i == 9 {
      ScriptResolves();
    } else {
      ScriptInstalls(i);
    }
  }

  function Alone(state: (Shared, Stage)): World { World(state.0, map[0 := state.1]) }

  lemma ScriptIsRun(run: seq<World>)
    requires |run| == |EDIT_SCRIPT| && forall i | 0 <= i < |run| :: run[i] == Alone(EDIT_SCRIPT[i])
    ensures Run(run)
  {
    hide Act;
    forall i: nat | i + 1 < |run| ensures StepAt(run, i) {
      if i == 10 {
        assert UserStep(run[i], run[i + 1]);
      } else {
        ScriptActsAt(i);
        assert ProcessStep(run[i], 0, run[i + 1]);
      }
    }
  }

  /** Otherwise the recorded fingerprint can be wrong: the user edits the inputs
      while packages are being installed, and the fingerprint of the edited inputs is
      recorded for the install made from the old ones. */
  lemma EditUnderInstallIsMisrecorded() returns (run: seq<World>)
    ensures Run(run) && AgentState in run[|run| - 1].shared.states
    ensures run[|run| - 1].shared.states[AgentState] == Published(SECOND, EDIT_SLOT)
    ensures run[|run| - 1].shared.entries == map[EDIT_SLOT := Directory(Complete(FIRST))]
    ensures !Exact(run[|run| - 1].shared, run[|run| - 1].shared.states[AgentState])
  {
    run := seq(|EDIT_SCRIPT|, (i: nat) requires i < |EDIT_SCRIPT| => Alone(EDIT_SCRIPT[i]));
    ScriptIsRun(run);
  }
}
