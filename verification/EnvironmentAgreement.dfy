/** The loop of a prune and the small steps of the protocol agree: what the loop computes is
    what every completed sequence of steps without failures ends in, and one such exists. */
module EnvironmentAgreement {
  import opened Basics
  import opened EnvironmentModel
  import opened EnvironmentProtocol
  import opened EnvironmentLocked
  import Closure

  type Point = (Shared, Stage)

  /** The step does not give up and removes what it set out to remove. */
  predicate Succeeds(x: Point, y: Point) {
    && (x.1.ListingStale? ==> y.1.Scanning?)
    && (x.1.SweepingOne? && y.1.Sweeping? ==> x.1.victim !in y.0.entries)
  }

  /** One step of a prune, without a failure, of a process alone in the section. */
  ghost predicate Moves(x: Point, y: Point) {
    Prunes(x.1) && PruneAct(x.0, x.1, y.0, y.1) && Succeeds(x, y)
  }

  function Without(s: Shared, stale: set<Name>): Shared {
    s.(entries := map name | name in s.entries && name !in stale :: s.entries[name])
  }

  type Relation = (Point, Point) -> bool

  /** The relation allows at least the protocol's steps. */
  ghost predicate Allows(step: Relation) {
    forall x, y :: Moves(x, y) ==> step(x, y)
  }

  /** A prune whose steps do not fail can be completed, and wherever it is completed it has
      exactly the effect of `PruneLocked`. */
  lemma ProtocolPrunes(s: Shared, t: Shared, after: Rest)
    ensures (exists n: nat ::
               Closure.Reaches(Moves, (s, ReadingPointers(ALL_STATES, {}, after)), (t, Unlocking(after)), n))
            <==> t == s.(entries := Pruned(s.entries, s.leases, s.states, s.link))
  {
    if n: nat :| Closure.Reaches(Moves, (s, ReadingPointers(ALL_STATES, {}, after)), (t, Unlocking(after)), n) {
      NothingRead(s);
      EndsPruned(Moves, s, (s, ReadingPointers(ALL_STATES, {}, after)), (t, Unlocking(after)), n);
    }
    if t == s.(entries := Pruned(s.entries, s.leases, s.states, s.link)) {
      var n := CanPrune(Moves, s, after);
    }
  }

  // ---------------------------------------------------------------- every completed prune

  /** The names that the pointers read so far publish. */
  function NamesRead(s: Shared, files: set<StateFile>): set<Name> {
    set file | file in s.states && file !in files && s.states[file].Directory().Some? ::
      s.states[file].Directory().value
  }

  function Protected(s: Shared): set<Name> {
    PointerNames(s.states) + if LinkedName(s.link).None? then {} else {LinkedName(s.link).value}
  }

  predicate StaleIn(s: Shared, name: Name) {
    Stale(s.entries, s.leases, s.states, s.link, name)
  }

  /** Of the stale directories only these are left; `free` is in the middle of its removal. */
  ghost predicate SweptTo(s: Shared, t: Shared, left: set<Name>, free: set<Name>) {
    && t == s.(entries := t.entries)
    && (forall name <- left + free :: StaleIn(s, name))
    && (forall name :: name !in free ==>
          Held(t, name) == if StaleIn(s, name) && name !in left then None else Held(s, name))
  }

  /** Where a prune that started from a state can stand. */
  ghost predicate Pending(s: Shared, x: Point) {
    match x.1
    case ReadingPointers(files, current, _) =>
      && x.0 == s && current == NamesRead(s, files)
      && (forall file <- s.states :: file !in files ==> s.states[file].Directory().Some?)
    case ReadingLink(current, _) => x.0 == s && Authorised(s.states) && current == PointerNames(s.states)
    case ListingStale(current, _) => x.0 == s && Authorised(s.states) && current == Protected(s)
    case Scanning(current, todo, stale, _) =>
      && x.0 == s && Authorised(s.states) && current == Protected(s) && todo <= s.entries.Keys
      && stale == set name | name in s.entries && name !in todo && StaleIn(s, name)
    case Sweeping(stale, _) => SweptTo(s, x.0, stale, {})
    case SweepingOne(stale, victim, _) => victim !in stale && SweptTo(s, x.0, stale, {victim})
    case Unlocking(_) => x.0 == s.(entries := Pruned(s.entries, s.leases, s.states, s.link))
    case _ => false
  }

  lemma NothingRead(s: Shared)
    ensures NamesRead(s, ALL_STATES) == {} && forall file <- s.states :: file in ALL_STATES
  {
    forall file <- s.states ensures file in ALL_STATES { InAllStates(file); }
  }

  lemma RefusedIsPruned(s: Shared)
    requires !Authorised(s.states)
    ensures s == s.(entries := Pruned(s.entries, s.leases, s.states, s.link))
  {
    assert Pruned(s.entries, s.leases, s.states, s.link) == s.entries;
  }

  lemma ReadingPends(s: Shared, x: Point, y: Point)
    requires x.1.ReadingPointers? && Pending(s, x) && Moves(x, y)
    ensures Pending(s, y)
  {
    if x.1.files == {} {
      if s.states != map[] {
        var file :| file in s.states;
        assert s.states[file].Directory().value in NamesRead(s, {});
      }
      assert NamesRead(s, {}) == PointerNames(s.states);
    }
    if y.1.Unlocking? {
      RefusedIsPruned(s);
    }
  }

  lemma LinkPends(s: Shared, x: Point, y: Point)
    requires (x.1.ReadingLink? || x.1.ListingStale?) && Pending(s, x) && Moves(x, y)
    ensures Pending(s, y)
  {
  }

  lemma ScanningPends(s: Shared, x: Point, y: Point)
    requires x.1.Scanning? && Pending(s, x) && Moves(x, y)
    ensures Pending(s, y)
  {
    forall name <- s.entries ensures StaleIn(s, name) <==> Scanned(s, Protected(s), name) {
    }
  }

  lemma SweepingPends(s: Shared, x: Point, y: Point)
    requires x.1.Sweeping? && Pending(s, x) && Moves(x, y)
    ensures Pending(s, y)
  {
    if y.1.Unlocking? {
      forall name ensures Held(y.0, name) == if StaleIn(s, name) then None else Held(s, name) {
      }
      SameEntries(y.0, s.(entries := Pruned(s.entries, s.leases, s.states, s.link)));
    }
  }

  lemma SameEntries(s: Shared, t: Shared)
    requires t == s.(entries := t.entries) && forall name :: Held(t, name) == Held(s, name)
    ensures s == t
  {
    forall name ensures name in s.entries <==> name in t.entries {
      assert Held(t, name) == Held(s, name);
    }
    forall name | name in s.entries ensures s.entries[name] == t.entries[name] {
      assert Held(t, name) == Held(s, name);
    }
    assert s.entries == t.entries;
  }

  lemma SweepingOnePends(s: Shared, x: Point, y: Point)
    requires x.1.SweepingOne? && Pending(s, x) && Moves(x, y)
    ensures Pending(s, y)
  {
    forall name | name != x.1.victim ensures Held(y.0, name) == Held(x.0, name) {
    }
  }

  lemma StepPends(s: Shared, x: Point, y: Point)
    requires Pending(s, x) && Moves(x, y)
    ensures Pending(s, y)
  {
    hide PruneAct;
    if x.1.ReadingPointers? {
      ReadingPends(s, x, y);
    } else if x.1.ReadingLink? || x.1.ListingStale? {
      LinkPends(s, x, y);
    } else if x.1.Scanning? {
      ScanningPends(s, x, y);
    } else if x.1.Sweeping? {
      SweepingPends(s, x, y);
    } else {
      SweepingOnePends(s, x, y);
    }
  }

  lemma {:induction false} EndsPruned(step: Relation, s: Shared, x: Point, y: Point, n: nat)
    requires step == Moves
    requires Pending(s, x) && y.1.Unlocking? && Closure.Reaches(step, x, y, n)
    ensures Pending(s, y)
    decreases n
  {
    hide Pending;
    if n > 0 {
      var z :| step(x, z) && Closure.Reaches(step, z, y, n - 1);
      StepPends(s, x, z);
      EndsPruned(step, s, z, y, n - 1);
    }
  }

  // ---------------------------------------------------------------- one completed prune

  lemma CanPrune(step: Relation, s: Shared, after: Rest) returns (n: nat)
    requires Allows(step)
    ensures Closure.Reaches(step, (s, ReadingPointers(ALL_STATES, {}, after)),
                            (s.(entries := Pruned(s.entries, s.leases, s.states, s.link)), Unlocking(after)), n)
  {
    hide Closure.Reaches;
    if !Authorised(s.states) {
      assert Pruned(s.entries, s.leases, s.states, s.link) == s.entries;
      forall file <- s.states ensures file in ALL_STATES { InAllStates(file); }
      n := CanRefuse(step, s, ALL_STATES, {}, after);
      return;
    }
    n := CanAuthorisedPrune(step, s, after);
  }

  /** The pointers read are exactly the names they publish, and there are some. */
  lemma CurrentIsNamed(s: Shared, current: set<Name>)
    requires Authorised(s.states)
    requires current == {} + set file | file in ALL_STATES && file in s.states :: s.states[file].Directory().value
    ensures current == PointerNames(s.states) && current != {}
  {
    forall file <- s.states ensures file in ALL_STATES { InAllStates(file); }
    var file :| file in s.states;
    assert s.states[file].Directory().value in current;
  }

  lemma SweptIsPruned(s: Shared, linked: set<Name>, stale: set<Name>)
    requires Authorised(s.states)
    requires linked == PointerNames(s.states) + if LinkedName(s.link).None? then {} else {LinkedName(s.link).value}
    requires stale == {} + set name | name in s.entries.Keys && Scanned(s, linked, name)
    ensures Without(s, stale) == s.(entries := Pruned(s.entries, s.leases, s.states, s.link))
  {
    forall name <- s.entries ensures Scanned(s, linked, name) <==> Stale(s.entries, s.leases, s.states, s.link, name) {
    }
    assert Without(s, stale).entries == Pruned(s.entries, s.leases, s.states, s.link);
  }

  lemma CanAuthorisedPrune(step: Relation, s: Shared, after: Rest) returns (n: nat)
    requires Allows(step) && Authorised(s.states)
    ensures Closure.Reaches(step, (s, ReadingPointers(ALL_STATES, {}, after)),
                            (s.(entries := Pruned(s.entries, s.leases, s.states, s.link)), Unlocking(after)), n)
  {
    hide Closure.Reaches;
    hide Allows;
    var current, a := CanReadPointers(step, s, ALL_STATES, {}, after);
    CurrentIsNamed(s, current);
    var linked, b := CanReadLink(step, s, current, after);
    var stale, c := CanScan(step, s, linked, s.entries.Keys, {}, after);
    var d := CanSweep(step, s, stale, after);
    SweptIsPruned(s, linked, stale);
    var start: Point := (s, ReadingPointers(ALL_STATES, {}, after));
    var read: Point := (s, ReadingPointers({}, current, after));
    var scanned: Point := (s, Scanning(linked, s.entries.Keys, {}, after));
    var end: Point := (Without(s, stale), Unlocking(after));
    Closure.Then(step, scanned, (s, Sweeping(stale, after)), end, c, d);
    Closure.Then(step, read, scanned, end, b, c + d);
    Closure.Then(step, start, read, end, a, b + (c + d));
    n := a + (b + (c + d));
  }

  lemma InAllStates(file: StateFile)
    ensures file in ALL_STATES
  {
    match file
    case AgentState =>
    case CompileState =>
    case DevelopmentState =>
    case EvalState =>
  }

  lemma ReadMoves(s: Shared, files: set<StateFile>, got: set<Name>, file: StateFile, after: Rest)
    requires file in files
    ensures file !in s.states ==>
              Moves((s, ReadingPointers(files, got, after)), (s, ReadingPointers(files - {file}, got, after)))
    ensures file in s.states && s.states[file].Directory().None? ==>
              Moves((s, ReadingPointers(files, got, after)), (s, Unlocking(after)))
    ensures file in s.states && s.states[file].Directory().Some? ==>
              Moves((s, ReadingPointers(files, got, after)),
                    (s, ReadingPointers(files - {file}, got + {s.states[file].Directory().value}, after)))
  {
  }

  lemma {:induction false} CanReadPointers(step: Relation, s: Shared, files: set<StateFile>, got: set<Name>,
        after: Rest)
      returns (current: set<Name>, n: nat)
    requires Allows(step)
    requires Authorised(s.states)
    ensures Closure.Reaches(step, (s, ReadingPointers(files, got, after)), (s, ReadingPointers({}, current, after)), n)
    ensures current == got + set file | file in files && file in s.states :: s.states[file].Directory().value
    decreases files
  {
    if files == {} {
      return got, 0;
    }
    var file :| file in files;
    var more := if file in s.states then got + {s.states[file].Directory().value} else got;
    current, n := CanReadPointers(step, s, files - {file}, more, after);
    ReadMoves(s, files, got, file, after);
    Closure.StepThen(step, (s, ReadingPointers(files, got, after)), (s, ReadingPointers(files - {file}, more, after)),
                     (s, ReadingPointers({}, current, after)), n);
    n := n + 1;
  }

  lemma {:induction false} CanRefuse(step: Relation, s: Shared, files: set<StateFile>, got: set<Name>, after: Rest)
      returns (n: nat)
    requires Allows(step)
    requires s.states == map[] || exists file <- s.states :: file in files && s.states[file].Directory().None?
    requires s.states == map[] ==> got == {}
    ensures Closure.Reaches(step, (s, ReadingPointers(files, got, after)), (s, Unlocking(after)), n)
    decreases files
  {
    hide Closure.Reaches;
    if file :| file in files && file in s.states && s.states[file].Directory().None? {
      ReadMoves(s, files, got, file, after);
      Closure.Once(step, (s, ReadingPointers(files, got, after)), (s, Unlocking(after)));
      n := 1;
    } else if files == {} {
      assert Moves((s, ReadingPointers(files, got, after)), (s, Unlocking(after)));
      Closure.Once(step, (s, ReadingPointers(files, got, after)), (s, Unlocking(after)));
      n := 1;
    } else {
      var file :| file in files;
      n := CanRefuse(step, s, files - {file}, got, after);
      ReadMoves(s, files, got, file, after);
      Closure.StepThen(step, (s, ReadingPointers(files, got, after)), (s, ReadingPointers(files - {file}, got, after)),
                       (s, Unlocking(after)), n);
      n := n + 1;
    }
  }

  lemma CanReadLink(step: Relation, s: Shared, current: set<Name>, after: Rest) returns (linked: set<Name>, n: nat)
    requires Allows(step)
    requires current != {}
    ensures linked == if LinkedName(s.link).None? then current else current + {LinkedName(s.link).value}
    ensures Closure.Reaches(step, (s, ReadingPointers({}, current, after)),
                            (s, Scanning(linked, s.entries.Keys, {}, after)), n)
  {
    hide Closure.Reaches;
    linked := if LinkedName(s.link).None? then current else current + {LinkedName(s.link).value};
    var a, b, c, d: Point := (s, ReadingPointers({}, current, after)), (s, ReadingLink(current, after)),
      (s, ListingStale(linked, after)), (s, Scanning(linked, s.entries.Keys, {}, after));
    assert Moves(a, b) && Moves(b, c) && Moves(c, d);
    Closure.Once(step, c, d);
    Closure.StepThen(step, b, c, d, 1);
    Closure.StepThen(step, a, b, d, 2);
    n := 3;
  }

  predicate Scanned(s: Shared, current: set<Name>, name: Name) {
    name !in current && name.Managed() && Unleased(s.entries, s.leases, name)
  }

  lemma {:induction false} CanScan(step: Relation, s: Shared, current: set<Name>, todo: set<Name>, found: set<Name>,
        after: Rest)
      returns (stale: set<Name>, n: nat)
    requires Allows(step)
    ensures stale == found + set name | name in todo && Scanned(s, current, name)
    ensures Closure.Reaches(step, (s, Scanning(current, todo, found, after)), (s, Sweeping(stale, after)), n)
    decreases todo
  {
    hide Closure.Reaches;
    if todo == {} {
      assert Moves((s, Scanning(current, todo, found, after)), (s, Sweeping(found, after)));
      Closure.Once(step, (s, Scanning(current, todo, found, after)), (s, Sweeping(found, after)));
      return found, 1;
    }
    var name :| name in todo;
    var more := if Scanned(s, current, name) then found + {name} else found;
    stale, n := CanScan(step, s, current, todo - {name}, more, after);
    assert Moves((s, Scanning(current, todo, found, after)), (s, Scanning(current, todo - {name}, more, after)));
    Closure.StepThen(step, (s, Scanning(current, todo, found, after)),
                     (s, Scanning(current, todo - {name}, more, after)), (s, Sweeping(stale, after)), n);
    n := n + 1;
  }

  lemma SweepMoves(s: Shared, stale: set<Name>, victim: Name, after: Rest)
    requires victim in stale
    ensures Moves((s, Sweeping(stale, after)), (s, SweepingOne(stale - {victim}, victim, after)))
    ensures Moves((s, SweepingOne(stale - {victim}, victim, after)),
                  (Without(s, {victim}), Sweeping(stale - {victim}, after)))
  {
    assert Without(s, {victim}).entries == s.entries - {victim};
  }

  lemma NothingSwept(s: Shared, after: Rest)
    ensures Moves((s, Sweeping({}, after)), (Without(s, {}), Unlocking(after)))
  {
    assert Without(s, {}).entries == s.entries;
  }

  lemma WithoutOneByOne(s: Shared, stale: set<Name>, victim: Name)
    requires victim in stale
    ensures Without(Without(s, {victim}), stale - {victim}) == Without(s, stale)
  {
    assert Without(Without(s, {victim}), stale - {victim}).entries == Without(s, stale).entries;
  }

  lemma {:induction false} CanSweep(step: Relation, s: Shared, stale: set<Name>, after: Rest) returns (n: nat)
    requires Allows(step)
    ensures Closure.Reaches(step, (s, Sweeping(stale, after)), (Without(s, stale), Unlocking(after)), n)
    decreases stale
  {
    hide Closure.Reaches;
    hide Without;
    var end: Point := (Without(s, stale), Unlocking(after));
    if stale == {} {
      NothingSwept(s, after);
      Closure.Once(step, (s, Sweeping(stale, after)), end);
      return 1;
    }
    var victim :| victim in stale;
    var t := Without(s, {victim});
    n := CanSweep(step, t, stale - {victim}, after);
    WithoutOneByOne(s, stale, victim);
    SweepMoves(s, stale, victim, after);
    Closure.StepThen(
      step, (s, SweepingOne(stale - {victim}, victim, after)), (t, Sweeping(stale - {victim}, after)), end, n);
    Closure.StepThen(step, (s, Sweeping(stale, after)), (s, SweepingOne(stale - {victim}, victim, after)), end, n + 1);
    n := n + 2;
  }
}
