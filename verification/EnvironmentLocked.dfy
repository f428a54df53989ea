/** The loops of the locked section, as one command runs them while no other process
    can interfere, and their agreement with the small-step protocol. */
module EnvironmentLocked {
  import opened Basics
  import opened EnvironmentModel
  import opened EnvironmentProtocol

  const STATE_ORDER: seq<StateFile> := [AgentState, CompileState, DevelopmentState, EvalState]

  /** Deletion is authorised only if a pointer exists and every pointer can be understood. */
  predicate Authorised(states: map<StateFile, Document>) {
    states != map[] && forall file <- states :: states[file].Directory().Some?
  }

  function PointerNames(states: map<StateFile, Document>): set<Name> {
    set file | file in states && states[file].Directory().Some? :: states[file].Directory().value
  }

  /** The directories pruning may remove. */
  predicate Stale(
      entries: map<Name, Entry>, leases: map<Name, LeasePath>, states: map<StateFile, Document>,
      link: EditorLink, name: Name)
  {
    && Authorised(states)
    && name.Managed() && name !in PointerNames(states) && LinkedName(link) != Some(name)
    && Unleased(entries, leases, name)
  }

  function StaleNames(
      entries: map<Name, Entry>, leases: map<Name, LeasePath>, states: map<StateFile, Document>, link: EditorLink)
      : set<Name>
  {
    set name | name in entries && Stale(entries, leases, states, link, name)
  }

  function Pruned(
      entries: map<Name, Entry>, leases: map<Name, LeasePath>, states: map<StateFile, Document>, link: EditorLink)
      : map<Name, Entry>
  {
    map name | name in entries && !Stale(entries, leases, states, link, name) :: entries[name]
  }

  /** Pruning leaves exactly the unmanaged and user-owned entries and the managed
      directories that are published, linked or leased; without an authorising
      pointer it leaves everything. */
  lemma PrunedKeepsExactly(
      entries: map<Name, Entry>, leases: map<Name, LeasePath>, states: map<StateFile, Document>,
      link: EditorLink, name: Name)
    requires name in entries
    ensures name in Pruned(entries, leases, states, link) <==>
              || states == map[]
              || (exists file <- states :: !states[file].Published? || states[file].directory.Unmanaged?)
              || name.Unmanaged? || entries[name].UserOwned?
              || (exists file <- states :: states[file].Published? && states[file].directory == name)
              || link == Linked(name)
              || (name in leases && leases[name] != LeaseDirectory({}))
  {
    if name in PointerNames(states) {
      var file :| file in states && states[file].Directory() == Some(name);
    }
  }

  predicate Obstructs(entries: map<Name, Entry>, leases: map<Name, LeasePath>, slot: Name, name: Name) {
    name in entries && (name == slot || name.Legacy?) && !Unleased(entries, leases, name)
  }

  /** The publication pointer survives only if it can be read and names another directory. */
  function Invalidated(states: map<StateFile, Document>, file: StateFile, slot: Name): map<StateFile, Document> {
    if file in states && !states[file].Unreadable? && states[file].Directory() != Some(slot)
    then states else states - {file}
  }

  /** Afterwards no current pointer names the slot, and only this family's pointer can have gone. */
  lemma InvalidatedWithdrawsSlot(states: map<StateFile, Document>, family: Family, slot: Name, file: StateFile)
    requires SlotMatches(family, slot) && file in states
    ensures file in Invalidated(states, StateOf(family), slot) && CurrentPointer(file, states[file]) ==>
              states[file].Directory() != Some(slot)
    ensures CurrentPointer(file, states[file]) && states[file].Directory() != Some(slot) ==>
              file in Invalidated(states, StateOf(family), slot)
    ensures file in Invalidated(states, StateOf(family), slot) && file == StateOf(family) ==>
              !states[file].Unreadable? && !(states[file].Published? && states[file].directory == slot)
  {
  }

  function CurrentOnly(states: map<StateFile, Document>): map<StateFile, Document> {
    map file | file in states && CurrentPointer(file, states[file]) :: states[file]
  }

  function Migrated(entries: map<Name, Entry>, leases: map<Name, LeasePath>): map<Name, Entry> {
    map name | name in entries && !(name.Legacy? && Unleased(entries, leases, name)) :: entries[name]
  }

  predicate Retirable(entries: map<Name, Entry>, leases: map<Name, LeasePath>, name: Name) {
    name in entries && name.Legacy? && Unleased(entries, leases, name)
  }

  /** One removal, which may fail and leave something behind. */
  function AfterRemoval(entries: map<Name, Entry>, name: Name, leftovers: map<Name, Entry>): map<Name, Entry> {
    if name in leftovers then entries[name := leftovers[name]] else entries - {name}
  }

  function Removed(entries: map<Name, Entry>, gone: set<Name>, leftovers: map<Name, Entry>): map<Name, Entry> {
    map name | name in entries.Keys + gone && (name in gone ==> name in leftovers) ::
      if name in gone then leftovers[name] else entries[name]
  }

  lemma NothingRemoved(entries: map<Name, Entry>, leftovers: map<Name, Entry>)
    ensures Removed(entries, {}, leftovers) == entries
  {
  }

  lemma RemovedElsewhere(entries: map<Name, Entry>, gone: set<Name>, name: Name, leftovers: map<Name, Entry>)
    requires name !in gone
    ensures name in Removed(entries, gone, leftovers) <==> name in entries
    ensures name in entries ==> Removed(entries, gone, leftovers)[name] == entries[name]
  {
  }

  function RetiredNames(entries: map<Name, Entry>, leases: map<Name, LeasePath>, names: seq<Name>): set<Name> {
    set name | name in names && Retirable(entries, leases, name)
  }

  lemma RetiredOneMore(entries: map<Name, Entry>, leases: map<Name, LeasePath>, names: seq<Name>, i: nat)
    requires i < |names| && forall j, k | 0 <= j < k < |names| :: names[j] != names[k]
    ensures names[i] !in RetiredNames(entries, leases, names[..i])
    ensures var gone := RetiredNames(entries, leases, names[..i]);
            RetiredNames(entries, leases, names[..i + 1]) ==
              if Retirable(entries, leases, names[i]) then gone + {names[i]} else gone
  {
    assert names[..i + 1] == names[..i] + [names[i]];
  }

  lemma AllRetired(
      entries: map<Name, Entry>, leases: map<Name, LeasePath>, names: seq<Name>, leftovers: map<Name, Entry>)
    requires forall name :: name in names <==> name in entries
    requires forall name <- RetiredNames(entries, leases, names) :: name !in leftovers
    ensures Removed(entries, RetiredNames(entries, leases, names), leftovers) == Migrated(entries, leases)
    ensures forall name <- leftovers :: !Retirable(entries, leases, name)
  {
  }

  lemma RemovedOneMore(entries: map<Name, Entry>, gone: set<Name>, name: Name, leftovers: map<Name, Entry>)
    ensures AfterRemoval(Removed(entries, gone, leftovers), name, leftovers) ==
              Removed(entries, gone + {name}, leftovers)
  {
  }

  function NameSet(names: seq<Name>): set<Name> {
    set name | name in names
  }

  lemma StaleOneMore(entries: map<Name, Entry>, stale: seq<Name>, i: nat, leftovers: map<Name, Entry>)
    requires i < |stale|
    ensures AfterRemoval(Removed(entries, NameSet(stale[..i]), leftovers), stale[i], leftovers) ==
              Removed(entries, NameSet(stale[..i + 1]), leftovers)
  {
    RemovedOneMore(entries, NameSet(stale[..i]), stale[i], leftovers);
    assert NameSet(stale[..i + 1]) == NameSet(stale[..i]) + {stale[i]};
  }

  datatype Preparation = Prepared | Busy(name: Name)

  class Project {
    var entries: map<Name, Entry>
    var leases: map<Name, LeasePath>
    var states: map<StateFile, Document>
    var link: EditorLink

    constructor (shared: Shared)
      ensures entries == shared.entries && leases == shared.leases
      ensures states == shared.states && link == shared.link
    {
      entries, leases, states, link := shared.entries, shared.leases, shared.states, shared.link;
    }

    /** Reads every valid profile pointer before deletion is authorised. */
    method CurrentAgentEnvironments() returns (current: set<Name>, safe: bool)
      ensures safe <==> Authorised(states)
      ensures safe ==> current == PointerNames(states)
    {
      current := {};
      for i := 0 to |STATE_ORDER|
        invariant forall k | 0 <= k < i && STATE_ORDER[k] in states :: states[STATE_ORDER[k]].Directory().Some?
        invariant current == set k | 0 <= k < i && STATE_ORDER[k] in states :: states[STATE_ORDER[k]].Directory().value
      {
        var file := STATE_ORDER[i];
        if file in states {
          if states[file].Directory().None? {
            return {}, false;
          }
          current := current + {states[file].Directory().value};
        }
      }
      EveryStateOrdered(states);
      assert forall file <- states :: states[file].Directory().value in current;
      safe := current != {};
    }

    /** The directory listing: every entry once. */
    method ListEntries() returns (names: seq<Name>)
      ensures forall name :: name in names <==> name in entries
      ensures forall i, j | 0 <= i < j < |names| :: names[i] != names[j]
    {
      names := [];
      var rest := entries.Keys;
      while rest != {}
        invariant rest <= entries.Keys
        invariant forall name :: name in names <==> name in entries && name !in rest
        invariant forall i, j | 0 <= i < j < |names| :: names[i] != names[j]
        decreases rest
      {
        var name :| name in rest;
        names, rest := names + [name], rest - {name};
      }
    }

    /** Collects what no pointer, link or lease protects. */
    method StaleAgentEnvironments() returns (stale: seq<Name>)
      ensures forall name :: name in stale <==> Stale(entries, leases, states, link, name)
    {
      var current, safe := CurrentAgentEnvironments();
      if !safe {
        return [];
      }
      var linked := LinkedName(link);
      if linked.Some? {
        current := current + {linked.value};
      }
      var names := ListEntries();
      stale := [];
      for i := 0 to |names|
        invariant forall name :: name in stale <==> name in names[..i] && Stale(entries, leases, states, link, name)
      {
        if names[i] !in current && names[i].Managed() && Unleased(entries, leases, names[i]) {
          stale := stale + [names[i]];
        }
      }
    }

    /** Removes everything stale and nothing else. A removal that fails is passed over;
        `leftovers` says what such a removal leaves. */
    method PruneLocked(leftovers: map<Name, Entry>)
      modifies this`entries
      ensures entries == Removed(old(entries), StaleNames(old(entries), leases, states, link), leftovers)
      ensures leftovers == map[] ==> entries == Pruned(old(entries), leases, states, link)
    {
      var stale := StaleAgentEnvironments();
      ghost var before := entries;
      for i := 0 to |stale|
        invariant entries == Removed(before, NameSet(stale[..i]), leftovers)
      {
        StaleOneMore(before, stale, i, leftovers);
        entries := AfterRemoval(entries, stale[i], leftovers);
      }
      assert stale[..|stale|] == stale;
      assert NameSet(stale) == StaleNames(before, leases, states, link);
    }

    /** Refuses to replace dependencies in use, then withdraws a pointer to the slot. */
    method PrepareReplacement(family: Family, slot: Name) returns (r: Preparation)
      modifies this`states
      ensures r.Busy? ==> Obstructs(entries, leases, slot, r.name) && states == old(states)
      ensures r.Prepared? ==> forall name :: !Obstructs(entries, leases, slot, name)
      ensures r.Prepared? ==> states == Invalidated(old(states), StateOf(family), slot)
      ensures r.Prepared? <==>
                forall name <- entries | name == slot || name.Legacy? ::
                  entries[name].Directory? && (name in leases ==> leases[name] == LeaseDirectory({}))
    {
      var names := ListEntries();
      for i := 0 to |names|
        invariant forall k | 0 <= k < i :: !Obstructs(entries, leases, slot, names[k])
      {
        if names[i] != slot && !names[i].Legacy? {
          continue;
        }
        if !Unleased(entries, leases, names[i]) {
          return Busy(names[i]);
        }
      }
      var file := StateOf(family);
      if !(file in states && !states[file].Unreadable? && states[file].Directory() != Some(slot)) {
        states := states - {file};
      }
      return Prepared;
    }

    /** Keeps only the publications of the two families' own slots; an unreadable
        pointer stops the sweep with the pointers before it already dropped. */
    method RemoveLegacyStates() returns (ok: bool)
      modifies this`states
      ensures ok ==> states == CurrentOnly(old(states))
      ensures !ok ==> exists file <- old(states) :: old(states)[file].Unreadable?
      ensures forall file <- states :: file in old(states) && states[file] == old(states)[file]
      ensures forall file <- old(states) | CurrentPointer(file, old(states)[file]) :: file in states
    {
      ghost var before := states;
      for i := 0 to |STATE_ORDER|
        invariant forall file <- states :: file in before && states[file] == before[file]
        invariant forall file <- before | CurrentPointer(file, before[file]) :: file in states
        invariant forall k | i <= k < |STATE_ORDER| && STATE_ORDER[k] in before :: STATE_ORDER[k] in states
        invariant forall k | 0 <= k < i && STATE_ORDER[k] in states ::
                    CurrentPointer(STATE_ORDER[k], states[STATE_ORDER[k]])
      {
        var file := STATE_ORDER[i];
        if file in states {
          if states[file].Unreadable? {
            return false;
          }
          if !CurrentPointer(file, states[file]) {
            states := states - {file};
          }
        }
      }
      EveryStateOrdered(states);
      return true;
    }

    /** Removes the unleased legacy directories; the first removal that fails stops it. */
    method RetireLegacy(leftovers: map<Name, Entry>) returns (ok: bool)
      modifies this`entries
      ensures ok ==> entries == Migrated(old(entries), leases)
      ensures ok <==> forall name <- leftovers :: !Retirable(old(entries), leases, name)
      ensures !ok ==> exists gone: set<Name>, failed ::
                && failed in leftovers && failed !in gone && Retirable(old(entries), leases, failed)
                && (forall name <- gone :: name !in leftovers && Retirable(old(entries), leases, name))
                && entries == Removed(old(entries), gone + {failed}, leftovers)
    {
      hide Removed;
      var names := ListEntries();
      ghost var before := entries;
      NothingRemoved(before, leftovers);
      assert RetiredNames(before, leases, names[..0]) == {};
      for i := 0 to |names|
        invariant entries == Removed(before, RetiredNames(before, leases, names[..i]), leftovers)
        invariant forall name <- RetiredNames(before, leases, names[..i]) :: name !in leftovers
      {
        RetiredOneMore(before, leases, names, i);
        RemovedElsewhere(before, RetiredNames(before, leases, names[..i]), names[i], leftovers);
        if names[i].Legacy? && Unleased(entries, leases, names[i]) {
          RemovedOneMore(before, RetiredNames(before, leases, names[..i]), names[i], leftovers);
          entries := AfterRemoval(entries, names[i], leftovers);
          if names[i] in leftovers {
            return false;
          }
        }
      }
      assert names[..|names|] == names;
      AllRetired(before, leases, names, leftovers);
      return true;
    }

    /** Retargets the editor link, drops obsolete pointers, then the unleased legacy directories. */
    method Migrate(selected: Name, leftovers: map<Name, Entry>) returns (ok: bool)
      modifies this`states, this`entries, this`link
      ensures ok ==> states == CurrentOnly(old(states))
      ensures ok ==> entries == Migrated(old(entries), leases)
      ensures !ok ==> entries == old(entries) || states == CurrentOnly(old(states))
      ensures forall name <- old(entries) | !Retirable(old(entries), leases, name) ::
                name in entries && entries[name] == old(entries)[name]
      ensures link == old(link) || LinkMoved(old(link), selected, link)
      ensures ok ==> LinkMoved(old(link), selected, link)
      ensures ok && selected.Slot? ==> !LinksLegacy(link)
    {
      if LinkFollows(link, selected) {
        if !(selected in entries && entries[selected].Directory?) {
          return false;
        }
        link := Linked(selected);
      }
      ok := RemoveLegacyStates();
      if ok {
        ok := RetireLegacy(leftovers);
      }
    }
  }

  lemma EveryStateOrdered(states: map<StateFile, Document>)
    ensures forall file <- states :: file in STATE_ORDER
  {
    forall file <- states ensures file in STATE_ORDER {
      match file
      case AgentState => assert STATE_ORDER[0] == file;
      case CompileState => assert STATE_ORDER[1] == file;
      case DevelopmentState => assert STATE_ORDER[2] == file;
      case EvalState => assert STATE_ORDER[3] == file;
    }
  }
}
