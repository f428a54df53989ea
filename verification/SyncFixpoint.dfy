/** One `env sync` as a sequence of file changes, with the two fingerprints it records:
    after a successful sync, the lock it wrote and the environment it published are the
    ones the next sync accepts. */
module SyncFixpoint {
  import opened Basics
  import opened EnvironmentModel
  import opened RuntimeLock
  import opened RuntimeLockTheorems

  function ProfileText(p: Profile): string {
    match p
    case Runtime => "runtime"
    case Compile => "compile"
    case Development => "development"
    case Eval => "eval"
  }

  const PROJECT_LOCK := "harnest.lock"
  const FILE_LIMIT := 16 * 1024 * 1024

  function LockFile(p: Profile): string {
    "harnest-" + ProfileText(p) + ".lock"
  }

  lemma LockFileIsOther(p: Profile)
    ensures LockFile(p) != PROJECT_LOCK
  {
    assert LockFile(p)[7] == '-' && PROJECT_LOCK[7] == '.';
  }

  datatype Config = Config(runtime: string, framework: string, mode: string, wheelName: string, wheel: string)

  /** `projects` are the dependency files that feed the resolution. */
  datatype Plan = Plan(compile: seq<string>, projects: seq<string>, mcp: bool)

  // ---------------------------------------------------------------- fingerprints

  type Files = map<string, string>

  /** One dependency input: its name and its bounded contents; an optional one may be absent. */
  function FileInput(files: Files, name: string, optional: bool): Option<string> {
    if name !in files then (if optional then Some(name + "\0\0") else None)
    else if |files[name]| > FILE_LIMIT then None
    else Some(name + "\0" + files[name] + "\0")
  }

  function FileInputs(files: Files, names: seq<string>, optional: bool): Option<string> {
    if names == [] then Some("")
    else
      var first, rest := FileInput(files, names[0], optional), FileInputs(files, names[1..], optional);
      if first.None? || rest.None? then None else Some(first.value + rest.value)
  }

  function Terminated(values: seq<string>): string {
    if values == [] then "" else values[0] + "\0" + Terminated(values[1..])
  }

  function CompileInputs(requirements: seq<string>): string {
    if requirements == [] then "" else "\0compile:" + requirements[0] + CompileInputs(requirements[1..])
  }

  function BoolByte(b: bool): string { if b then "\0" + [1 as char] else "\0\0" }

  /** A digest of several inputs, one after the other. */
  function Hashed(
      sha: string -> string, head: string, a: Option<string>, b: Option<string>, tail: string): Option<string>
  {
    if a.None? || b.None? then None else Some(sha(head + a.value + b.value + tail))
  }

  function LockHead(c: Config, plan: Plan, p: Profile): string {
    Terminated(["1", c.runtime, c.framework, c.mode, c.wheelName, ProfileText(p)]) + c.wheel +
        CompileInputs(plan.compile)
  }

  /** `runtimeLockInputFingerprint` */
  function LockFingerprint(sha: string -> string, c: Config, files: Files, plan: Plan, p: Profile): Option<string> {
    Hashed(sha, LockHead(c, plan, p), FileInputs(files, plan.projects, false),
           FileInput(files, PROJECT_LOCK, true), BoolByte(plan.mcp))
  }

  function EnvironmentHead(c: Config, plan: Plan, p: Profile): string {
    Terminated([c.runtime, c.framework, c.mode, ProfileText(p), c.wheelName]) + c.wheel + CompileInputs(plan.compile)
  }

  /** `environmentFingerprint` */
  function EnvironmentFingerprint(
      sha: string -> string, c: Config, files: Files, plan: Plan, p: Profile): Option<string>
  {
    Hashed(sha, EnvironmentHead(c, plan, p), FileInputs(files, plan.projects, false),
           FileInputs(files, [PROJECT_LOCK, LockFile(p)], true), BoolByte(plan.mcp))
  }

  // ---------------------------------------------------------------- what is already there

  function Readable(files: Files, name: string): Option<string> {
    if name in files && |files[name]| <= FILE_LIMIT then Some(files[name]) else None
  }

  function LockAt(files: Files, p: Profile): Option<(string, string)> {
    var text := Readable(files, LockFile(p));
    if text.None? then None else SplitLock(text.value)
  }

  /** `validateFrozenRuntimeLock` succeeds. */
  predicate FrozenAccepts(sha: string -> string, c: Config, files: Files, plan: Plan, p: Profile) {
    var lock := LockAt(files, p);
    lock.Some? && LockFingerprint(sha, c, files, plan, p) == Some(lock.value.0)
  }

  datatype Publication = Publication(fingerprint: string, slot: Name)

  /** `cachedAgentPython` finds an interpreter, and the profile owns its slot. */
  predicate Cached(published: map<Family, Publication>, pythons: set<Name>, p: Profile, fingerprint: string) {
    && FamilyOf(p) in published && published[FamilyOf(p)].fingerprint == fingerprint
    && var slot := published[FamilyOf(p)].slot;
       slot in pythons && slot.Slot? && slot.family == FamilyOf(p)
  }

  /** The published environment is the one for these inputs. */
  predicate Reuses(sha: string -> string, c: Config, files: Files, plan: Plan, p: Profile,
        published: map<Family, Publication>, pythons: set<Name>)
  {
    var fingerprint := EnvironmentFingerprint(sha, c, files, plan, p);
    fingerprint.Some? && Cached(published, pythons, p, fingerprint.value)
  }

  /** How the foreign tools of one run turn out. */
  datatype Recording = Refused | Same | Rewritten(text: string)

  datatype Outcome = Outcome(venv: bool, resolved: Option<string>, synced: bool, checked: bool, recording: Recording)

  datatype Probe = Available | Missing | Failed

  /** The places one run works in. */
  datatype Place = Place(wheel: string, project: string)

  /** The resolver's text names the wheel once. */
  predicate Resolves(outcome: Outcome, place: Place)
    requires place.wheel != ""
  {
    outcome.resolved.Some? && Count(outcome.resolved.value, place.wheel) == 1
  }

  /** The pin is recorded; a frozen run must not have to change it. */
  predicate Records(outcome: Outcome, frozen: bool) {
    !outcome.recording.Refused? && (frozen ==> outcome.recording.Same?)
  }

  /** The packages were synchronised, they fit together, and the pin is recorded. */
  predicate Succeeds(outcome: Outcome, frozen: bool) {
    outcome.synced && outcome.checked && Records(outcome, frozen)
  }

  ghost predicate HashesFit(sha: string -> string) {
    forall s :: IsDigest(sha(s))
  }

  /** Only the named entries may differ. */
  ghost predicate Spares<K(!new), V>(a: map<K, V>, b: map<K, V>, names: set<K>) {
    forall k | k !in names :: (k in a <==> k in b) && (k in a && k in b ==> a[k] == b[k])
  }

  /** The lock's body is the resolver's text with portable markers. */
  predicate Printed(files: Files, p: Profile, text: string, place: Place) {
    && place.wheel != "" && Count(text, place.wheel) == 1
    && LockAt(files, p).Some? && LockAt(files, p).value.1 == NormalizedBody(text, place.wheel, place.project)
  }

  /** Everything a synchronisation can change. */
  datatype CheckoutState = CheckoutState(files: Files, published: map<Family, Publication>, pythons: set<Name>)

  class Checkout {
    const sha: string -> string
    const config: Config
    var files: Files
    var published: map<Family, Publication>
    var pythons: set<Name>

    ghost predicate Valid() {
      HashesFit(sha)
    }

    constructor (sha: string -> string, config: Config, files: Files, published: map<Family, Publication>,
          pythons: set<Name>)
      ensures this.sha == sha && this.config == config
      ensures this.files == files && this.published == published && this.pythons == pythons
    {
      this.sha, this.config := sha, config;
      this.files, this.published, this.pythons := files, published, pythons;
    }

    /** `resolveRuntimeLock`: a fresh resolution is written with the digest of its inputs. */
    method ResolveLock(plan: Plan, p: Profile, place: Place, resolved: Option<string>) returns (ok: bool)
      requires Valid() && place.wheel != "" && LockFile(p) !in plan.projects
      modifies this`files
      ensures Spares(old(files), files, {LockFile(p)})
      ensures ok <==> resolved.Some? && Count(resolved.value, place.wheel) == 1 && old(Digestible(plan, p))
      ensures !ok ==> files == old(files)
      ensures ok && LockAt(files, p).Some? ==>
                FrozenAccepts(sha, config, files, plan, p) && Printed(files, p, resolved.value, place)
    {
      if resolved.None? {
        return false;
      }
      var digest := LockFingerprint(sha, config, files, plan, p);
      if digest.None? {
        return false;
      }
      var document := Normalize(resolved.value, place.wheel, place.project, digest.value);
      if document.None? {
        return false;
      }
      WrittenLock(sha, config, files, plan, p, resolved.value, place, digest.value);
      files := files[LockFile(p) := document.value];
      return true;
    }

    /** The lock to install from: a fresh one, or the committed one of a frozen run; it must
        be possible to render it. */
    method PrepareLock(plan: Plan, p: Profile, frozen: bool, place: Place, outcome: Outcome) returns (ok: bool)
      requires Valid() && place.wheel != "" && LockFile(p) !in plan.projects
      modifies this`files
      ensures frozen ==> files == old(files)
      ensures Spares(old(files), files, {LockFile(p)})
      ensures frozen ==> (ok <==> LockAt(files, p).Some?)
      ensures !frozen ==>
                (ok <==> Resolves(outcome, place) && old(Digestible(plan, p)) && LockAt(files, p).Some?)
      ensures ok && !frozen ==> FrozenAccepts(sha, config, files, plan, p)
      ensures ok && !frozen ==> Printed(files, p, outcome.resolved.value, place)
    {
      if !frozen {
        var resolved := ResolveLock(plan, p, place, outcome.resolved);
        if !resolved {
          return false;
        }
      }
      var text := Readable(files, LockFile(p));
      return text.Some? && Render(text.value, place.wheel, place.project).Some?;
    }

    /** `recordFrameworkResolution`: a frozen run never changes the pin. */
    method RecordFramework(frozen: bool, outcome: Outcome) returns (ok: bool)
      modifies this`files
      ensures ok <==> Records(outcome, frozen)
      ensures files == if ok && outcome.recording.Rewritten?
                       then old(files)[PROJECT_LOCK := outcome.recording.text] else old(files)
    {
      match outcome.recording {
        case Refused => return false;
        case Same => return true;
        case Rewritten(text) =>
          if frozen {
            return false;
          }
          files := files[PROJECT_LOCK := text];
          return true;
      }
    }

    /** `refreshRuntimeLockMetadata` */
    method RefreshMetadata(plan: Plan, p: Profile) returns (ok: bool)
      requires Valid() && LockFile(p) !in plan.projects
      modifies this`files
      ensures Spares(old(files), files, {LockFile(p)})
      ensures ok <==> old(LockAt(files, p)).Some? && old(Digestible(plan, p))
      ensures !ok ==> files == old(files)
      ensures ok ==> FrozenAccepts(sha, config, files, plan, p)
      ensures ok ==> LockAt(files, p).Some?
                      && LockAt(files, p).value.1 == old(LockAt(files, p)).value.1
    {
      var lock := LockAt(files, p);
      if lock.None? {
        return false;
      }
      var digest := LockFingerprint(sha, config, files, plan, p);
      if digest.None? {
        return false;
      }
      var document := LockText(digest.value, lock.value.1);
      HeaderKeepsLength(files[LockFile(p)], digest.value);
      SplitDocument(digest.value, lock.value.1);
      OwnLockIsNoInput(sha, config, files, plan, p, document);
      SplitCounts(files[LockFile(p)]);
      files := files[LockFile(p) := document];
      return true;
    }

    /** Every input can be read and hashed. */
    predicate Digestible(plan: Plan, p: Profile)
      reads this`files
    {
      LockFingerprint(sha, config, files, plan, p).Some?
    }

    /** From the resolved lock to the refreshed one: a tool that fails ends it. */
    method Build(plan: Plan, p: Profile, frozen: bool, place: Place, outcome: Outcome) returns (ok: bool)
      requires Valid() && place.wheel != "" && LockFile(p) !in plan.projects
      requires frozen ==> FrozenAccepts(sha, config, files, plan, p)
      modifies this`files
      ensures frozen ==> files == old(files)
      ensures Spares(old(files), files, {LockFile(p), PROJECT_LOCK})
      ensures ok ==> FrozenAccepts(sha, config, files, plan, p)
      ensures ok ==> Succeeds(outcome, frozen)
      ensures frozen && Succeeds(outcome, frozen) ==> ok
      ensures !frozen ==>
                (ok <==> Resolves(outcome, place) && old(Digestible(plan, p)) && Succeeds(outcome, frozen)
                         && LockAt(files, p).Some? && Digestible(plan, p))
    {
      var prepared := PrepareLock(plan, p, frozen, place, outcome);
      if !prepared || !outcome.synced || !outcome.checked {
        return false;
      }
      var recorded := RecordFramework(frozen, outcome);
      if recorded && !frozen {
        recorded := RefreshMetadata(plan, p);
      }
      return recorded;
    }

    predicate Settled(plan: Plan, p: Profile, slot: Name)
      reads this
    {
      && FamilyOf(p) in published && published[FamilyOf(p)].slot == slot && slot in pythons
      && EnvironmentFingerprint(sha, config, files, plan, p) == Some(published[FamilyOf(p)].fingerprint)
    }

    predicate Fingerprinted(plan: Plan, p: Profile)
      reads this`files
    {
      EnvironmentFingerprint(sha, config, files, plan, p).Some?
    }

    /** `publishAgentEnvironment` */
    method Publish(plan: Plan, p: Profile, slot: Name) returns (ok: bool)
      requires slot in pythons
      modifies this`published
      ensures Spares(old(published), published, {FamilyOf(p)})
      ensures ok ==> Settled(plan, p, slot)
      ensures ok <==> Fingerprinted(plan, p)
      ensures !ok ==> published == old(published)
    {
      var final := EnvironmentFingerprint(sha, config, files, plan, p);
      if final.None? {
        return false;
      }
      published := published[FamilyOf(p) := Publication(final.value, slot)];
      return true;
    }

    /** `installAgentEnvironment` for the chosen slot: the publication of that slot is
        withdrawn first and written last. */
    method Install(plan: Plan, p: Profile, frozen: bool, slot: Name, busy: bool, place: Place, outcome: Outcome)
        returns (ok: bool)
      requires Valid() && place.wheel != "" && LockFile(p) !in plan.projects
      modifies this`files, this`published, this`pythons
      ensures frozen ==> files == old(files)
      ensures Spares(old(files), files, {LockFile(p), PROJECT_LOCK})
      ensures Spares(old(published), published, {FamilyOf(p)})
      ensures pythons - {slot} == old(pythons) - {slot}
      ensures ok ==> FrozenAccepts(sha, config, files, plan, p) && Settled(plan, p, slot)
      ensures ok ==> !busy && outcome.venv && Succeeds(outcome, frozen) && (!frozen ==> Resolves(outcome, place))
      ensures frozen ==>
                (ok <==> old(FrozenAccepts(sha, config, files, plan, p)) && !busy && outcome.venv
                         && Succeeds(outcome, frozen) && old(Fingerprinted(plan, p)))
      ensures !ok && !busy && (frozen ==> old(FrozenAccepts(sha, config, files, plan, p))) ==>
                !(FamilyOf(p) in published && published[FamilyOf(p)].slot == slot)
      ensures !ok && FamilyOf(p) in published ==>
                && FamilyOf(p) in old(published) && published[FamilyOf(p)] == old(published[FamilyOf(p)])
                && (published[FamilyOf(p)].slot == slot ==> pythons == old(pythons))
    {
      if (frozen && !FrozenAccepts(sha, config, files, plan, p)) || busy {
        return false;
      }
      if FamilyOf(p) in published && published[FamilyOf(p)].slot == slot {
        published := published - {FamilyOf(p)};
      }
      pythons := pythons - {slot};
      if !outcome.venv {
        return false;
      }
      pythons := pythons + {slot};
      var built := Build(plan, p, frozen, place, outcome);
      if !built {
        return false;
      }
      ok := Publish(plan, p, slot);
    }

    /** `selectAgentEnvironment` up to the migration: reuse, restore or replace. */
    method Sync(plan: Plan, p: Profile, frozen: bool, probe: Probe, leased: bool, busy: bool, place: Place,
          outcome: Outcome)
        returns (selection: Option<Name>)
      requires Valid() && place.wheel != "" && LockFile(p) !in plan.projects
      modifies this`files, this`published, this`pythons
      ensures old(Reusable(plan, p)) && probe.Available? ==>
                && selection == Some(old(published[FamilyOf(p)].slot))
                && files == old(files) && published == old(published) && pythons == old(pythons)
      ensures selection.Some? ==> Reusable(plan, p) && published[FamilyOf(p)].slot == selection.value
      ensures selection.Some? ==>
                selection.value in pythons && selection.value.Slot? && selection.value.family == FamilyOf(p)
      ensures selection.Some? && !(old(Reusable(plan, p)) && probe.Available?) ==>
                && FrozenAccepts(sha, config, files, plan, p) && !busy && outcome.venv
                && Succeeds(outcome, frozen || old(Reusable(plan, p)))
                && (!frozen && !old(Reusable(plan, p)) ==> Resolves(outcome, place))
                && selection.value == Slot(FamilyOf(p), leased)
      ensures old(Reusable(plan, p)) && probe.Failed? ==>
                selection.None? && files == old(files) && published == old(published) && pythons == old(pythons)
      ensures selection.None? && FamilyOf(p) in published ==>
                FamilyOf(p) in old(published) && published[FamilyOf(p)] == old(published[FamilyOf(p)])
      ensures frozen || old(Reusable(plan, p)) ==> files == old(files)
      ensures Spares(old(files), files, {LockFile(p), PROJECT_LOCK})
      ensures Spares(old(published), published, {FamilyOf(p)})
    {
      var fingerprint := EnvironmentFingerprint(sha, config, files, plan, p);
      if fingerprint.None? {
        return None;
      }
      var restoring := frozen;
      if Cached(published, pythons, p, fingerprint.value) {
        match probe {
          case Failed => return None;
          case Available => return Some(published[FamilyOf(p)].slot);
          case Missing => restoring := true;
        }
      }
      var slot := Slot(FamilyOf(p), leased);
      var ok := Install(plan, p, restoring, slot, busy, place, outcome);
      return if ok then Some(slot) else None;
    }

    function State(): CheckoutState
      reads this
    {
      CheckoutState(files, published, pythons)
    }

    predicate Reusable(plan: Plan, p: Profile)
      reads this
    {
      Reuses(sha, config, files, plan, p, published, pythons)
    }

    /** A successful unfrozen installation is a fixpoint: with nothing changed in between,
        frozen validation accepts the lock, and the next sync of the profile, frozen or
        not, returns the same environment and changes nothing. */
    method SyncTwice(plan: Plan, p: Profile, probe: Probe, leased: bool, busy: bool, place: Place, outcome: Outcome,
                     frozen': bool, leased': bool, busy': bool, place': Place, outcome': Outcome)
        returns (first: Option<Name>, accepted: bool, second: Option<Name>, ghost between: CheckoutState)
      requires Valid() && place.wheel != "" && place'.wheel != "" && LockFile(p) !in plan.projects
      requires !(Reusable(plan, p) && probe.Available?)
      modifies this`files, this`published, this`pythons
      ensures first.Some? ==> accepted && second == first
      ensures first.Some? ==> State() == between
      ensures first.Some? ==> LockAt(files, p).Some? && Reusable(plan, p)
    {
      first := Sync(plan, p, false, probe, leased, busy, place, outcome);
      accepted := FrozenAccepts(sha, config, files, plan, p);
      between := State();
      second := Sync(plan, p, frozen', Available, leased', busy', place', outcome');
    }
  }

  // ---------------------------------------------------------------- why it holds

  lemma SplitCounts(text: string)
    ensures SplitLock(text).Some? ==>
              IsDigest(SplitLock(text).value.0) && Count(SplitLock(text).value.1, WHEEL_MARKER) == 1
  {
  }

  /** Every header has the same length, so a lock that could be read still can be. */
  lemma HeaderKeepsLength(text: string, digest: string)
    requires SplitLock(text).Some? && IsDigest(digest)
    ensures |LockText(digest, SplitLock(text).value.1)| == |text|
  {
    var first := LineEnd(text);
    var rest := text[first + 1..];
    var second := LineEnd(rest);
    assert second == |DIGEST_LINE| + 64;
  }

  lemma {:induction false} OthersOnly(files: Files, name: string, text: string, names: seq<string>, optional: bool)
    requires name !in names
    ensures FileInputs(files[name := text], names, optional) == FileInputs(files, names, optional)
  {
    if names != [] {
      OthersOnly(files, name, text, names[1..], optional);
    }
  }

  /** The lock's header does not depend on the lock itself. */
  lemma OwnLockIsNoInput(sha: string -> string, c: Config, files: Files, plan: Plan, p: Profile, text: string)
    requires LockFile(p) !in plan.projects
    ensures LockFingerprint(sha, c, files[LockFile(p) := text], plan, p) == LockFingerprint(sha, c, files, plan, p)
  {
    LockFileIsOther(p);
    OthersOnly(files, LockFile(p), text, plan.projects, false);
  }

  /** A lock that was just written is up to date, if it can be read back at all. */
  lemma WrittenLock(sha: string -> string, c: Config, files: Files, plan: Plan, p: Profile, text: string,
        place: Place, digest: string)
    requires LockFile(p) !in plan.projects && place.wheel != "" && Count(text, place.wheel) == 1
    requires LockFingerprint(sha, c, files, plan, p) == Some(digest) && IsDigest(digest)
    ensures var after := files[LockFile(p) := LockText(digest, NormalizedBody(text, place.wheel, place.project))];
            LockAt(after, p).Some? ==> FrozenAccepts(sha, c, after, plan, p) && Printed(after, p, text, place)
  {
    var body := NormalizedBody(text, place.wheel, place.project);
    OwnLockIsNoInput(sha, c, files, plan, p, LockText(digest, body));
    SplitDocument(digest, body);
  }

  // ---------------------------------------------------------------- why the refresh is needed

  function Pin(files: Files): string {
    if PROJECT_LOCK in files then files[PROJECT_LOCK] else ""
  }

  /** The stream behind the lock's digest. */
  function LockStream(c: Config, files: Files, plan: Plan, p: Profile): Option<string> {
    LockFingerprint(stream => stream, c, files, plan, p)
  }

  /** The hash tells these two streams apart. */
  ghost predicate Separates(sha: string -> string, a: Option<string>, b: Option<string>) {
    a.Some? && b.Some? && sha(a.value) == sha(b.value) ==> a == b
  }

  lemma PinInput(files: Files)
    requires |Pin(files)| <= FILE_LIMIT
    ensures FileInput(files, PROJECT_LOCK, true) == Some(PROJECT_LOCK + "\0" + Pin(files) + "\0")
  {
    assert PROJECT_LOCK + "\0" + "" + "\0" == PROJECT_LOCK + "\0\0";
  }

  lemma SameMiddle(a: string, b: string, x: string, y: string, z: string)
    requires a + (b + x + "\0") + z == a + (b + y + "\0") + z
    ensures x == y
  {
    Regroup(a, b + x + "\0", z);
    Regroup(a, b + y + "\0", z);
    SameLength(a, b + x + "\0" + z, a, b + y + "\0" + z);
    assert |x| == |y|;
    Regroup(b + x, "\0", z);
    Regroup(b + y, "\0", z);
    Regroup(b, x, "\0" + z);
    Regroup(b, y, "\0" + z);
    SameLength(b, x + ("\0" + z), b, y + ("\0" + z));
    SameLength(x, "\0" + z, y, "\0" + z);
  }

  /** Recording the framework pin after the lock was written makes the lock's header stale
      exactly when the pin's text changed, unless the hash collides on just these two streams. */
  lemma HeaderIsStaleIff(sha: string -> string, c: Config, files: Files, plan: Plan, p: Profile, pin: string)
    requires FrozenAccepts(sha, c, files, plan, p) && PROJECT_LOCK !in plan.projects
    requires Separates(sha, LockStream(c, files, plan, p), LockStream(c, files[PROJECT_LOCK := pin], plan, p))
    requires |pin| <= FILE_LIMIT
    ensures FrozenAccepts(sha, c, files[PROJECT_LOCK := pin], plan, p) <==> pin == Pin(files)
  {
    var after := files[PROJECT_LOCK := pin];
    LockFileIsOther(p);
    OthersOnly(files, PROJECT_LOCK, pin, plan.projects, false);
    assert LockAt(after, p) == LockAt(files, p);
    PinInput(files);
    PinInput(after);
    var head := LockHead(c, plan, p) + FileInputs(files, plan.projects, false).value;
    if FrozenAccepts(sha, c, after, plan, p) {
      SameMiddle(head, PROJECT_LOCK + "\0", pin, Pin(files), BoolByte(plan.mcp));
    }
  }
}
