/** Pairing streamed tool calls with their results, over records shared by a list and an
    index, and the queue discipline that this comes to. */
module ToolPairing {
  import opened Basics

  type Id = string
  type Value = string

  /** An absent or empty name is "". */
  datatype Event =
    | Call(id: Option<Id>, name: string, arguments: Value)
    | Result(id: Option<Id>, name: string, result: Value, error: bool)
    | Other

  /** One tool activity; only a call has arguments, and an open call has no result. */
  datatype Item = Item(name: string, arguments: Option<Value>, result: Option<Value>, error: bool)

  datatype State = State(items: seq<Item>, ids: map<Id, nat>)

  predicate Matches(item: Item, name: string) {
    item.result.None? && (name == "" || item.name == name)
  }

  /** The first open item of a name, or of any name; the length if there is none. */
  function FirstOpen(items: seq<Item>, name: string): (i: nat)
    ensures i <= |items|
  {
    if items == [] || Matches(items[0], name) then 0 else 1 + FirstOpen(items[1..], name)
  }

  function Target(s: State, id: Option<Id>, name: string): nat {
    match id
    case Some(key) => if key in s.ids then s.ids[key] else |s.items|
    case None => FirstOpen(s.items, name)
  }

  function Answer(items: seq<Item>, at: nat, name: string, result: Value, error: bool): seq<Item> {
    if at < |items| then items[at := items[at].(result := Some(result), error := error)]
    else items + [Item(name, None, Some(result), error)]
  }

  function Step(s: State, e: Event): State {
    match e
    case Call(id, name, arguments) =>
      State(s.items + [Item(name, Some(arguments), None, false)],
            if id.Some? then s.ids[id.value := |s.items|] else s.ids)
    case Result(id, name, result, error) =>
      s.(items := Answer(s.items, Target(s, id, name), name, result, error))
    case Other => s
  }

  function Paired(events: seq<Event>): State {
    if events == [] then State([], map[])
    else Step(Paired(events[..|events| - 1]), events[|events| - 1])
  }

  lemma PairedNext(events: seq<Event>, i: nat)
    requires i < |events|
    ensures Paired(events[..i + 1]) == Step(Paired(events[..i]), events[i])
  {
    assert events[..i + 1][..i] == events[..i];
  }

  // ---------------------------------------------------------------- the loop over shared records

  class Record {
    var name: string
    var arguments: Option<Value>
    var result: Option<Value>
    var error: bool

    constructor (name: string, arguments: Option<Value>)
      ensures this.name == name && this.arguments == arguments && result == None && !error
    {
      this.name, this.arguments, result, error := name, arguments, None, false;
    }

    function View(): Item
      reads this
    {
      Item(name, arguments, result, error)
    }
  }

  class Activity {
    var calls: seq<Record>
    var byId: map<Id, Record>

    ghost predicate Valid()
      reads this
    {
      && (forall i, j | 0 <= i < j < |calls| :: calls[i] != calls[j])
      && forall key <- byId :: byId[key] in calls
    }

    /** The records stand for this state: the index shares them with the list. */
    ghost predicate Stands(s: State)
      reads this, calls
    {
      && Valid() && |s.items| == |calls| && (forall i | 0 <= i < |calls| :: calls[i].View() == s.items[i])
      && s.ids.Keys == byId.Keys
      && forall key <- byId :: s.ids[key] < |calls| && calls[s.ids[key]] == byId[key]
    }

    constructor ()
      ensures calls == [] && byId == map[] && Stands(State([], map[]))
    {
      calls, byId := [], map[];
    }

    method AddCall(e: Event, ghost s: State)
      requires e.Call? && Stands(s)
      modifies this
      ensures Stands(Step(s, e)) && fresh(set r | r in calls && r !in old(calls))
    {
      var item := new Record(e.name, Some(e.arguments));
      calls := calls + [item];
      if e.id.Some? {
        byId := byId[e.id.value := item];
      }
    }

    /** The first open record, in list order. */
    method Search(name: string, ghost s: State) returns (target: Option<Record>)
      requires Stands(s)
      ensures target.None? <==> FirstOpen(s.items, name) == |s.items|
      ensures target.Some? ==> calls[FirstOpen(s.items, name)] == target.value
    {
      var i := 0;
      assert s.items[0..] == s.items;
      while i < |calls|
        invariant 0 <= i <= |calls| && FirstOpen(s.items, name) == i + FirstOpen(s.items[i..], name)
      {
        assert calls[i].View() == s.items[i] == s.items[i..][0] && s.items[i..][1..] == s.items[i + 1..];
        if calls[i].result.None? && (name == "" || calls[i].name == name) {
          return Some(calls[i]);
        }
        i := i + 1;
      }
      return None;
    }

    /** An answer with no call to go to. */
    method AddOrphan(e: Event, ghost s: State)
      requires e.Result? && Stands(s)
      modifies this
      ensures Stands(s.(items := Answer(s.items, |s.items|, e.name, e.result, e.error)))
      ensures fresh(set r | r in calls && r !in old(calls))
    {
      var orphan := new Record(e.name, None);
      orphan.result := Some(e.result);
      orphan.error := e.error;
      calls := calls + [orphan];
    }

    /** An answer to one record, wherever else it is known. */
    method Fill(target: Record, e: Event, ghost at: nat, ghost s: State)
      requires e.Result? && Stands(s) && at < |calls| && calls[at] == target
      modifies target
      ensures Stands(s.(items := Answer(s.items, at, e.name, e.result, e.error)))
    {
      target.result := Some(e.result);
      target.error := e.error;
    }

    /** `_attach_result` */
    method AttachResult(e: Event, ghost s: State)
      requires e.Result? && Stands(s)
      modifies this, calls
      ensures Stands(Step(s, e)) && fresh(set r | r in calls && r !in old(calls))
    {
      var target: Option<Record> := None;
      if e.id.Some? {
        if e.id.value in byId {
          target := Some(byId[e.id.value]);
        }
      } else {
        target := Search(e.name, s);
      }
      ghost var at := Target(s, e.id, e.name);
      if target.None? {
        AddOrphan(e, s);
      } else {
        Fill(target.value, e, at, s);
      }
    }
  }

  /** `_tool_activity`: the loop over shared records computes the pairing. */
  method ToolActivity(events: seq<Event>) returns (activity: seq<Item>)
    ensures activity == Paired(events).items
  {
    var a := new Activity();
    for i := 0 to |events|
      invariant a.Stands(Paired(events[..i])) && fresh(a) && fresh(set r | r in a.calls)
    {
      PairedNext(events, i);
      match events[i] {
        case Call(_, _, _) => a.AddCall(events[i], Paired(events[..i]));
        case Result(_, _, _, _) => a.AttachResult(events[i], Paired(events[..i]));
        case Other =>
      }
    }
    assert events[..|events|] == events;
    activity := seq(|a.calls|, i requires 0 <= i < |a.calls| reads a, a.calls => a.calls[i].View());
  }
}
