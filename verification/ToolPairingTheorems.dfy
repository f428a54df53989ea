/** What the pairing means: calls are kept, explicit ids win, and everything else queues. */
module ToolPairingTheorems {
  import opened Basics
  import opened ToolPairing

  // ---------------------------------------------------------------- every call and every orphan, in order

  /** What identifies an activity: its name, and its arguments if it was a call. */
  type Heading = (string, Option<Value>)

  function Headings(items: seq<Item>): (r: seq<Heading>)
    ensures |r| == |items|
  {
    seq(|items|, i requires 0 <= i < |items| => (items[i].name, items[i].arguments))
  }

  /** What one more event opens a new activity for: every call, and every result that finds
      no call. */
  function Opened(s: State, e: Event): seq<Heading> {
    match e
    case Call(_, name, arguments) => [(name, Some(arguments))]
    case Result(id, name, _, _) => if Target(s, id, name) == |s.items| then [(name, None)] else []
    case Other => []
  }

  function AllOpened(events: seq<Event>): seq<Heading> {
    if events == [] then []
    else
      var earlier := events[..|events| - 1];
      AllOpened(earlier) + Opened(Paired(earlier), events[|events| - 1])
  }

  lemma {:induction false} IdsInside(events: seq<Event>)
    ensures forall id <- Paired(events).ids :: Paired(events).ids[id] < |Paired(events).items|
  {
    if events != [] {
      IdsInside(events[..|events| - 1]);
    }
  }

  /** Later events never remove, reorder or rename an activity: the activities are exactly
      those that the events opened, in that order. */
  lemma {:induction false} ActivitiesAreOpened(events: seq<Event>)
    ensures Headings(Paired(events).items) == AllOpened(events)
  {
    if events != [] {
      var earlier, e := events[..|events| - 1], events[|events| - 1];
      ActivitiesAreOpened(earlier);
      IdsInside(earlier);
      OneOpened(Paired(earlier), e);
    }
  }

  lemma OneOpened(s: State, e: Event)
    requires forall id <- s.ids :: s.ids[id] < |s.items|
    ensures Headings(Step(s, e).items) == Headings(s.items) + Opened(s, e)
  {
  }

  /** Only the calls among the activities. */
  function CallsOf(headings: seq<Heading>): seq<(string, Value)> {
    if headings == [] then []
    else
      var last := headings[|headings| - 1];
      CallsOf(headings[..|headings| - 1]) + if last.1.Some? then [(last.0, last.1.value)] else []
  }

  function Calls(events: seq<Event>): seq<(string, Value)> {
    if events == [] then []
    else
      var last := events[|events| - 1];
      Calls(events[..|events| - 1]) + if last.Call? then [(last.name, last.arguments)] else []
  }

  /** Every call is there, in order, with its own name and arguments. */
  lemma {:induction false} CallsAreKept(events: seq<Event>)
    ensures CallsOf(Headings(Paired(events).items)) == Calls(events)
  {
    ActivitiesAreOpened(events);
    if events != [] {
      var earlier := events[..|events| - 1];
      CallsAreKept(earlier);
      ActivitiesAreOpened(earlier);
      CallsOfMore(AllOpened(earlier), Opened(Paired(earlier), events[|events| - 1]));
    }
  }

  lemma CallsOfMore(headings: seq<Heading>, added: seq<Heading>)
    requires |added| <= 1
    ensures CallsOf(headings + added) ==
              CallsOf(headings) + if added != [] && added[0].1.Some? then [(added[0].0, added[0].1.value)] else []
  {
    if added == [] {
      assert headings + added == headings;
    } else {
      assert (headings + added)[..|headings|] == headings;
    }
  }

  // ---------------------------------------------------------------- explicit ids

  /** The latest call with an id. */
  function LatestCall(events: seq<Event>, id: Id): (k: Option<nat>)
    ensures k.Some? ==> k.value < |events| && events[k.value].Call? && events[k.value].id == Some(id)
                        && forall j | k.value < j < |events| :: !(events[j].Call? && events[j].id == Some(id))
    ensures k.None? ==> forall j | 0 <= j < |events| :: !(events[j].Call? && events[j].id == Some(id))
  {
    if events == [] then None
    else
      var n := |events| - 1;
      if events[n].Call? && events[n].id == Some(id) then Some(n) else LatestCall(events[..n], id)
  }

  /** The activity that a call opened. */
  function Place(events: seq<Event>, k: nat): nat
    requires k < |events|
  {
    |Paired(events[..k]).items|
  }

  lemma {:induction false} IdsAreLatest(events: seq<Event>, id: Id)
    ensures id in Paired(events).ids <==> LatestCall(events, id).Some?
    ensures LatestCall(events, id).Some? ==> Paired(events).ids[id] == Place(events, LatestCall(events, id).value)
  {
    if events != [] {
      var n := |events| - 1;
      IdsAreLatest(events[..n], id);
      var earlier := LatestCall(events[..n], id);
      if earlier.Some? {
        assert events[..n][..earlier.value] == events[..earlier.value];
      }
    }
  }

  /** A result with an explicit id goes to the latest call with that id and changes nothing
      else; without such a call it opens an activity of its own, even if calls are open. */
  lemma ExplicitResultGoesToLatest(events: seq<Event>, id: Id, name: string, result: Value, error: bool)
    ensures var before, after := Paired(events).items, Paired(events + [Result(Some(id), name, result, error)]).items;
            match LatestCall(events, id)
            case Some(k) =>
              && Place(events, k) < |before| && |after| == |before|
              && after[Place(events, k)].result == Some(result) && after[Place(events, k)].error == error
              && Headings(after) == Headings(before)
              && forall i | 0 <= i < |before| && i != Place(events, k) :: after[i] == before[i]
            case None => after == before + [Item(name, None, Some(result), error)]
  {
    var e := Result(Some(id), name, result, error);
    assert (events + [e])[..|events|] == events;
    IdsAreLatest(events, id);
    IdsInside(events);
  }

  // ---------------------------------------------------------------- order

  /** Without an id, a result goes to the earliest open call that it can belong to. */
  lemma {:induction false} FirstOpenIsEarliest(items: seq<Item>, name: string)
    ensures var i := FirstOpen(items, name);
            && (i < |items| ==> Matches(items[i], name))
            && forall j | 0 <= j < i :: !Matches(items[j], name)
  {
    if items != [] && !Matches(items[0], name) {
      FirstOpenIsEarliest(items[1..], name);
      var i := FirstOpen(items[1..], name);
      forall j | 0 <= j < i + 1 ensures !Matches(items[j], name) {
        if j > 0 {
          assert items[1..][j - 1] == items[j];
        }
      }
    }
  }

  /** An activity without a result that the given name does not rule out; no name rules out none. */
  predicate Awaits(items: seq<Item>, i: nat, name: string)
    requires i < |items|
  {
    items[i].result.None? && (name != "" ==> items[i].name == name)
  }

  /** A result without an id answers the earliest activity that awaits it, of whatever name if
      it has none itself, and changes nothing else; it opens an activity of its own exactly
      when none awaits it. */
  lemma ImplicitResultGoesToEarliest(events: seq<Event>, name: string, result: Value, error: bool)
    ensures var before, after := Paired(events).items, Paired(events + [Result(None, name, result, error)]).items;
            && (forall k: nat | k < |before| && Awaits(before, k, name)
                               && (forall j | 0 <= j < k :: !Awaits(before, j, name)) ::
                  after == before[k := Item(before[k].name, before[k].arguments, Some(result), error)])
            && ((forall k | 0 <= k < |before| :: !Awaits(before, k, name)) <==>
                after == before + [Item(name, None, Some(result), error)])
  {
    var e := Result(None, name, result, error);
    assert (events + [e])[..|events|] == events;
    var before, after := Paired(events).items, Paired(events + [e]).items;
    var first := FirstOpen(before, name);
    FirstOpenIsEarliest(before, name);
    assert forall j | 0 <= j < |before| :: Matches(before[j], name) <==> Awaits(before, j, name);
    assert first < |before| ==> |after| == |before| && Awaits(before, first, name);
    assert first == |before| ==> after == before + [Item(name, None, Some(result), error)];
  }

  /** The reference: one waiting line of calls for every name. */
  datatype Lines = Lines(items: seq<Item>, waiting: map<string, seq<nat>>)

  function Line(q: Lines, name: string): seq<nat> {
    if name in q.waiting then q.waiting[name] else []
  }

  function Serve(q: Lines, e: Event): Lines {
    match e
    case Call(_, name, arguments) =>
      Lines(q.items + [Item(name, Some(arguments), None, false)], q.waiting[name := Line(q, name) + [|q.items|]])
    case Result(_, name, result, error) =>
      if Line(q, name) == [] then q.(items := q.items + [Item(name, None, Some(result), error)])
      else
        Lines(Answer(q.items, Line(q, name)[0], name, result, error), q.waiting[name := Line(q, name)[1..]])
    case Other => q
  }

  function Queued(events: seq<Event>): Lines {
    if events == [] then Lines([], map[])
    else Serve(Queued(events[..|events| - 1]), events[|events| - 1])
  }

  /** No ids, and every result says its name. */
  predicate Named(e: Event) {
    (e.Call? ==> e.id.None?) && (e.Result? ==> e.id.None? && e.name != "")
  }

  /** A line holds exactly the open calls of its name, in order. */
  ghost predicate LineFits(q: Lines, name: string) {
    && (forall i | 0 <= i < |Line(q, name)| :: Waits(q, name, Line(q, name)[i]))
    && (forall i, j | 0 <= i < j < |Line(q, name)| :: Line(q, name)[i] < Line(q, name)[j])
    && (forall at: nat | Waits(q, name, at) :: at in Line(q, name))
  }

  predicate Waits(q: Lines, name: string, at: nat) {
    at < |q.items| && q.items[at].result.None? && q.items[at].name == name
  }

  ghost predicate LinesFit(q: Lines) {
    forall name: string :: LineFits(q, name)
  }

  lemma HeadIsFirst(q: Lines, name: string)
    requires LineFits(q, name) && name != ""
    ensures FirstOpen(q.items, name) == if Line(q, name) == [] then |q.items| else Line(q, name)[0]
  {
    FirstOpenIsEarliest(q.items, name);
    var i := FirstOpen(q.items, name);
    if i < |q.items| {
      assert Waits(q, name, i);
    }
    if Line(q, name) != [] {
      assert Waits(q, name, Line(q, name)[0]);
      assert Matches(q.items[Line(q, name)[0]], name);
    }
  }

  lemma CallKeepsLine(q: Lines, e: Event, name: string)
    requires LineFits(q, name) && e.Call?
    ensures LineFits(Serve(q, e), name)
  {
    var r := Serve(q, e);
    forall at: nat | Waits(r, name, at) ensures at in Line(r, name) {
      assert at < |q.items| ==> Waits(q, name, at);
    }
    forall i | 0 <= i < |Line(r, name)| ensures Waits(r, name, Line(r, name)[i]) {
      assert i < |Line(q, name)| ==> Waits(q, name, Line(q, name)[i]);
    }
    forall i, j | 0 <= i < j < |Line(r, name)| ensures Line(r, name)[i] < Line(r, name)[j] {
      assert Waits(q, name, Line(q, name)[i]);
    }
  }

  lemma ResultKeepsLine(q: Lines, e: Event, name: string)
    requires e.Result? && LineFits(q, name) && LineFits(q, e.name)
    ensures LineFits(Serve(q, e), name)
  {
    var served := Line(q, e.name);
    if served == [] || name != e.name {
      LineUntouched(q, e, name);
    } else {
      LineServed(q, e);
    }
  }

  lemma LineUntouched(q: Lines, e: Event, name: string)
    requires e.Result? && LineFits(q, name) && LineFits(q, e.name) && (Line(q, e.name) == [] || name != e.name)
    ensures LineFits(Serve(q, e), name)
  {
    var r := Serve(q, e);
    if Line(q, e.name) != [] {
      assert Waits(q, e.name, Line(q, e.name)[0]);
    }
    assert Line(r, name) == Line(q, name);
    forall at: nat ensures Waits(r, name, at) <==> Waits(q, name, at) {
    }
  }

  lemma LineServed(q: Lines, e: Event)
    requires e.Result? && LineFits(q, e.name) && Line(q, e.name) != []
    ensures LineFits(Serve(q, e), e.name)
  {
    var r, served := Serve(q, e), Line(q, e.name);
    var rest := Line(r, e.name);
    assert Waits(q, e.name, served[0]) && rest == served[1..];
    forall i | 0 <= i < |rest| ensures Waits(r, e.name, rest[i]) {
      assert rest[i] == served[i + 1] && Waits(q, e.name, served[i + 1]) && served[0] < served[i + 1];
    }
    forall at: nat | Waits(r, e.name, at) ensures at in rest {
      assert Waits(q, e.name, at) && at != served[0];
    }
  }

  lemma {:induction false} LinesAlwaysFit(events: seq<Event>)
    ensures LinesFit(Queued(events))
  {
    if events != [] {
      var q, e := Queued(events[..|events| - 1]), events[|events| - 1];
      LinesAlwaysFit(events[..|events| - 1]);
      forall name: string ensures LineFits(Serve(q, e), name) {
        assert LineFits(q, name);
        match e {
          case Call(_, _, _) => CallKeepsLine(q, e, name);
          case Result(_, _, _, _) =>
            assert LineFits(q, e.name);
            ResultKeepsLine(q, e, name);
          case Other =>
        }
      }
    } else {
      forall name: string ensures LineFits(Queued(events), name) {
      }
    }
  }

  /** On streams without ids whose results are named, the pairing is one first-in
      first-out line per name. */
  lemma {:induction false} PairingIsQueueing(events: seq<Event>)
    requires forall e <- events :: Named(e)
    ensures Paired(events).items == Queued(events).items
  {
    if events != [] {
      var earlier, e := events[..|events| - 1], events[|events| - 1];
      forall f <- earlier ensures f in events {
      }
      PairingIsQueueing(earlier);
      LinesAlwaysFit(earlier);
      assert Named(e);
      if e.Result? {
        assert LineFits(Queued(earlier), e.name);
        HeadIsFirst(Queued(earlier), e.name);
      }
    }
  }
}
