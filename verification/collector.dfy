/** client/collector.py on values: what each event does to the shared sets and counters. */
module ConnectionEvents {
  import opened Wrappers

  /** `id(dbapi_connection)`. */
  type Id = int

  datatype Counts = Counts(
    connections: set<Id>,
    checkedin: set<Id>,
    invalidated: set<Id>,
    detached: set<Id>,
    transactions: set<Id>,
    totalCheckouts: nat,
    totalInvalidated: nat,
    totalConnects: nat,
    totalDisconnects: nat)
  {
    function CheckedOut(): set<Id> {
      connections - detached - invalidated - checkedin
    }

    /** The sets without the counters. */
    function Sets(): (set<Id>, set<Id>, set<Id>, set<Id>, set<Id>) {
      (connections, checkedin, invalidated, detached, transactions)
    }
  }

  const EMPTY := Counts({}, {}, {}, {}, {}, 0, 0, 0, 0)

  datatype Event =
    | Connect(id: Id)
    | Checkout(id: Id)
    | Checkin(id: Id)
    | Invalidate(id: Id)   // "invalidate" and "soft_invalidate" share a handler
    | Reset(id: Id)
    | Close(id: Id)
    | Detach(id: Id)
    | CloseDetached(id: Id)

  /** Both ways a connection ends; a connection that is not known is only warned about. */
  function Forget(s: Counts, id: Id): Counts {
    s.(connections := s.connections - {id}, checkedin := s.checkedin - {id},
       invalidated := s.invalidated - {id}, detached := s.detached - {id},
       transactions := s.transactions - {id},
       totalDisconnects := s.totalDisconnects + if id in s.connections then 1 else 0)
  }

  function Step(s: Counts, e: Event): Counts {
    match e
    case Connect(id) =>
      s.(totalConnects := s.totalConnects + 1, connections := s.connections + {id}, checkedin := s.checkedin + {id})
    case Checkout(id) =>
      // the counter has moved by the time `remove` raises a KeyError
      s.(totalCheckouts := s.totalCheckouts + 1, checkedin := s.checkedin - {id})
    case Checkin(id) => s.(checkedin := s.checkedin + {id})
    case Invalidate(id) => s.(totalInvalidated := s.totalInvalidated + 1, invalidated := s.invalidated + {id})
    case Reset(id) => s.(transactions := s.transactions - {id})
    case Close(id) => Forget(s, id)
    case Detach(id) => s.(detached := s.detached + {id})
    case CloseDetached(id) => Forget(s, id)
  }

  /** The KeyError of `checkedin.remove`. */
  predicate Raises(s: Counts, e: Event) {
    e.Checkout? && e.id !in s.checkedin
  }

  datatype Warning = UnknownConnection | StillDetached

  /** What a handler logs as a warning. */
  function Warnings(s: Counts, e: Event): seq<Warning> {
    match e
    case Close(id) =>
      (if id in s.connections then [] else [UnknownConnection]) + (if id in s.detached then [StillDetached] else [])
    case CloseDetached(id) => if id in s.connections then [] else [UnknownConnection]
    case _ => []
  }

  function Run(events: seq<Event>): Counts {
    if events == [] then EMPTY else Step(Run(events[..|events| - 1]), events[|events| - 1])
  }

  lemma {:induction false} RunAppend(events: seq<Event>, e: Event)
    ensures Run(events + [e]) == Step(Run(events), e)
  {
    assert (events + [e])[..|events|] == events;
  }

  /** `_send_pool`: numpools, checkedout, checkedin, detached, connections. */
  function PoolSnapshot(s: Counts, numPools: nat): seq<int> {
    [numPools, |s.CheckedOut()|, |s.checkedin|, |s.detached|, |s.connections|]
  }

  /** `_send_connection_totals`: checkouts, invalidated, connects, disconnects. */
  function TotalsSnapshot(s: Counts): seq<int> {
    [s.totalCheckouts, s.totalInvalidated, s.totalConnects, s.totalDisconnects]
  }

  // ----- Any trace at all -----

  function ConnectsOfKnown(events: seq<Event>): nat {
    if events == [] then 0
    else
      var front, e := events[..|events| - 1], events[|events| - 1];
      ConnectsOfKnown(front) + if e.Connect? && e.id in Run(front).connections then 1 else 0
  }

  lemma SizeAdd(s: set<Id>, id: Id)
    ensures |s + {id}| == |s| + if id in s then 0 else 1
  {
    if id in s {
      assert s + {id} == s;
    }
  }

  lemma SizeRemove(s: set<Id>, id: Id)
    ensures |s - {id}| == |s| - if id in s then 1 else 0
  {
    if id !in s {
      assert s - {id} == s;
    }
  }

  /** Connects less disconnects less open connections is the number of connect events
      for an id already known: never negative, and zero when ids are fresh. */
  lemma {:induction false} CounterBalance(events: seq<Event>)
    ensures var s := Run(events);
      s.totalConnects - s.totalDisconnects - |s.connections| == ConnectsOfKnown(events)
  {
    if events != [] {
      var front, e := events[..|events| - 1], events[|events| - 1];
      CounterBalance(front);
      SizeAdd(Run(front).connections, e.id);
      SizeRemove(Run(front).connections, e.id);
    }
  }

  function Tally(events: seq<Event>, which: Event -> bool): nat {
    if events == [] then 0
    else Tally(events[..|events| - 1], which) + if which(events[|events| - 1]) then 1 else 0
  }

  /** Three totals count their events, refused checkouts included; the fourth counts
      the closings of known connections only. */
  lemma {:induction false} TotalsCountEvents(events: seq<Event>)
    ensures var s := Run(events);
      && s.totalConnects == Tally(events, (e: Event) => e.Connect?)
      && s.totalCheckouts == Tally(events, (e: Event) => e.Checkout?)
      && s.totalInvalidated == Tally(events, (e: Event) => e.Invalidate?)
      && s.totalDisconnects <= Tally(events, (e: Event) => e.Close? || e.CloseDetached?)
  {
    if events != [] {
      TotalsCountEvents(events[..|events| - 1]);
    }
  }

  // ----- The sets, told from the trace -----

  /** What a set records about a connection. */
  datatype Mark = Known | Idle | Invalid | Off

  /** Events that put an id into the set, and those that take it out. */
  predicate Puts(m: Mark, e: Event, id: Id) {
    e.id == id &&
    match m
    case Known => e.Connect?
    case Idle => e.Connect? || e.Checkin?
    case Invalid => e.Invalidate?
    case Off => e.Detach?
  }

  predicate Takes(m: Mark, e: Event, id: Id) {
    e.id == id && (e.Close? || e.CloseDetached? || (m.Idle? && e.Checkout?))
  }

  /** Some event of the trace put the id into the set, and none since took it out. */
  ghost predicate Stands(events: seq<Event>, m: Mark, id: Id) {
    exists i :: 0 <= i < |events| && PutLast(events, m, id, i)
  }

  ghost predicate PutLast(events: seq<Event>, m: Mark, id: Id, i: int)
    requires 0 <= i < |events|
  {
    Puts(m, events[i], id) && forall j :: i < j < |events| ==> !Takes(m, events[j], id)
  }

  lemma StandsAppend(events: seq<Event>, e: Event, m: Mark, id: Id)
    ensures Stands(events + [e], m, id) <==> Puts(m, e, id) || (!Takes(m, e, id) && Stands(events, m, id))
  {
    var all := events + [e];
    if Puts(m, e, id) {
      assert PutLast(all, m, id, |events|);
    } else if !Takes(m, e, id) && Stands(events, m, id) {
      var i :| 0 <= i < |events| && PutLast(events, m, id, i);
      assert PutLast(all, m, id, i);
    }
    if i :| 0 <= i < |all| && i < |events| && PutLast(all, m, id, i) {
      assert !Takes(m, all[|events|], id);
      assert forall j :: i < j < |events| ==> events[j] == all[j];
      assert PutLast(events, m, id, i);
    }
  }

  /** On any trace at all, whatever its events, each set is told by the last events. */
  lemma {:induction false} SetsToldByTrace(events: seq<Event>, id: Id)
    ensures var s := Run(events);
      && (id in s.connections <==> Stands(events, Known, id))
      && (id in s.checkedin <==> Stands(events, Idle, id))
      && (id in s.invalidated <==> Stands(events, Invalid, id))
      && (id in s.detached <==> Stands(events, Off, id))
      && s.transactions == {}
  {
    if events != [] {
      var front, e := events[..|events| - 1], events[|events| - 1];
      SetsToldByTrace(front, id);
      assert events == front + [e];
      StandsAppend(front, e, Known, id);
      StandsAppend(front, e, Idle, id);
      StandsAppend(front, e, Invalid, id);
      StandsAppend(front, e, Off, id);
    }
  }

  /** And so are the failures: a checkout raises unless the id is idle, an ending warns of
      an id not known, and a close of one still off. */
  lemma {:induction false} FailuresToldByTrace(events: seq<Event>, e: Event)
    ensures Raises(Run(events), e) <==> e.Checkout? && !Stands(events, Idle, e.id)
    ensures UnknownConnection in Warnings(Run(events), e) <==> (e.Close? || e.CloseDetached?) && !Stands(events, Known, e.id)
    ensures StillDetached in Warnings(Run(events), e) <==> e.Close? && Stands(events, Off, e.id)
  {
    SetsToldByTrace(events, e.id);
  }

  // ----- The reported vectors -----

  /** The totals a sender reports: checkouts, invalidations and connects, and the closings
      of known connections, which with the connections still open and the connects of
      ids already known make up the connects. */
  ghost predicate TotalsTell(events: seq<Event>, totals: seq<int>, open: int) {
    && |totals| == 4
    && totals[0] == Tally(events, (e: Event) => e.Checkout?)
    && totals[1] == Tally(events, (e: Event) => e.Invalidate?)
    && totals[2] == Tally(events, (e: Event) => e.Connect?)
    && totals[2] - totals[3] - open == ConnectsOfKnown(events)
  }

  lemma {:induction false} TotalsReported(events: seq<Event>)
    ensures TotalsTell(events, TotalsSnapshot(Run(events)), |Run(events).connections|)
  {
    TotalsCountEvents(events);
    CounterBalance(events);
  }

  /** A connect is of a known id iff the trace says so. */
  lemma {:induction false} KnownByTrace(events: seq<Event>)
    ensures ConnectsOfKnown(events) == Reconnects(events)
  {
    if events != [] {
      var front, e := events[..|events| - 1], events[|events| - 1];
      KnownByTrace(front);
      SetsToldByTrace(front, e.id);
    }
  }

  /** The connect events for an id that the trace before them leaves known. */
  ghost function Reconnects(events: seq<Event>): nat {
    if events == [] then 0
    else
      var front, e := events[..|events| - 1], events[|events| - 1];
      Reconnects(front) + if e.Connect? && Stands(front, Known, e.id) then 1 else 0
  }

  // ----- Traces that respect the life of a connection -----

  datatype Place = In | Out | Detached

  /** What the pool knows of one connection. */
  datatype Conn = Conn(place: Place, invalid: bool)

  type Pool = map<Id, Conn>

  /** connect; then checkouts and checkins in turn, invalidation at any time; then
      close, or, from a checkout, detach and close_detached. */
  ghost predicate Allowed(p: Pool, e: Event) {
    match e
    case Connect(id) => id !in p
    case Checkout(id) => id in p && p[id].place.In?
    case Checkin(id) => id in p && p[id].place.Out?
    case Invalidate(id) => id in p
    case Reset(id) => id in p
    case Close(id) => id in p && !p[id].place.Detached?
    case Detach(id) => id in p && p[id].place.Out?
    case CloseDetached(id) => id in p && p[id].place.Detached?
  }

  ghost function Live(p: Pool, e: Event): Pool
    requires Allowed(p, e)
  {
    match e
    case Connect(id) => p[id := Conn(In, false)]
    case Checkout(id) => p[id := p[id].(place := Out)]
    case Checkin(id) => p[id := p[id].(place := In)]
    case Invalidate(id) => p[id := p[id].(invalid := true)]
    case Reset(id) => p
    case Close(id) => p - {id}
    case Detach(id) => p[id := p[id].(place := Detached)]
    case CloseDetached(id) => p - {id}
  }

  /** The pool a trace leads to; None when the trace breaks the lifecycle. */
  ghost function PoolAfter(events: seq<Event>): Option<Pool> {
    if events == [] then Some(map[])
    else
      var q, e := PoolAfter(events[..|events| - 1]), events[|events| - 1];
      if q.Some? && Allowed(q.value, e) then Some(Live(q.value, e)) else None
  }

  /** The sets a pool stands for. */
  ghost predicate Projects(p: Pool, s: Counts) {
    && s.connections == p.Keys
    && s.checkedin == (set id | id in p && p[id].place.In?)
    && s.detached == (set id | id in p && p[id].place.Detached?)
    && s.invalidated == (set id | id in p && p[id].invalid)
    && s.transactions == {}
  }

  lemma StepProjects(p: Pool, s: Counts, e: Event)
    requires Projects(p, s) && Allowed(p, e)
    ensures Projects(Live(p, e), Step(s, e)) && !Raises(s, e) && Warnings(s, e) == []
  {
  }

  /** Handling event `i` raises nothing and warns of nothing. */
  ghost predicate Smooth(events: seq<Event>, i: nat)
    requires i < |events|
  {
    !Raises(Run(events[..i]), events[i]) && Warnings(Run(events[..i]), events[i]) == []
  }

  /** For every interleaving of lifecycle-respecting events, from however many
      engines sharing the target, the sets are exact projections of the pool, and no
      handler raises or warns. */
  lemma {:induction false} RunProjects(events: seq<Event>)
    requires PoolAfter(events).Some?
    ensures Projects(PoolAfter(events).value, Run(events))
    ensures forall i: nat :: i < |events| ==> Smooth(events, i)
  {
    if events != [] {
      var front, e := events[..|events| - 1], events[|events| - 1];
      RunProjects(front);
      StepProjects(PoolAfter(front).value, Run(front), e);
      forall i: nat | i < |events| ensures Smooth(events, i) {
        if i < |front| {
          assert Smooth(front, i) && front[..i] == events[..i];
        }
      }
    }
  }

  /** The pool vector a sender reports: pools, valid connections out, connections in,
      detached, and all. */
  ghost predicate PoolTells(p: Pool, pools: nat, pool: seq<int>) {
    && |pool| == 5
    && pool[0] == pools
    && pool[1] == |set id | id in p && p[id].place.Out? && !p[id].invalid|
    && pool[2] == |set id | id in p && p[id].place.In?|
    && pool[3] == |set id | id in p && p[id].place.Detached?|
    && pool[4] == |p|
  }

  lemma {:induction false} PoolReported(events: seq<Event>, pools: nat)
    requires PoolAfter(events).Some?
    ensures PoolTells(PoolAfter(events).value, pools, PoolSnapshot(Run(events), pools))
  {
    var p, s := PoolAfter(events).value, Run(events);
    RunProjects(events);
    OutIsOut(p, s);
    assert |p.Keys| == |p|;
  }

  lemma OutIsOut(p: Pool, s: Counts)
    requires Projects(p, s)
    ensures s.CheckedOut() == set id | id in p && p[id].place.Out? && !p[id].invalid
  {
  }

  /** On such traces the fourth total counts all endings. */
  lemma {:induction false} EndingsCounted(events: seq<Event>)
    requires PoolAfter(events).Some?
    ensures Run(events).totalDisconnects == Tally(events, (e: Event) => e.Close? || e.CloseDetached?)
  {
    if events != [] {
      var front := events[..|events| - 1];
      RunProjects(front);
      EndingsCounted(front);
    }
  }

  lemma SizeOfParts(whole: set<Id>, a: set<Id>, b: set<Id>, c: set<Id>, d: set<Id>)
    requires whole == a + b + c + d
    requires a !! b && a !! c && a !! d && b !! c && b !! d && c !! d
    ensures |whole| == |a| + |b| + |c| + |d|
  {
  }

  lemma ProjectionSubsets(p: Pool, s: Counts)
    requires Projects(p, s)
    ensures s.checkedin <= s.connections && s.detached <= s.connections && s.invalidated <= s.connections
    ensures s.checkedin !! s.detached
  {
  }

  lemma PartitionOf(s: Counts)
    requires s.checkedin <= s.connections && s.detached <= s.connections && s.invalidated <= s.connections
    requires s.checkedin !! s.detached
    ensures |s.connections| == |s.checkedin| + |s.CheckedOut()| + |s.detached| + |s.invalidated - s.checkedin - s.detached|
  {
    SizeOfParts(s.connections, s.checkedin, s.CheckedOut(), s.detached, s.invalidated - s.checkedin - s.detached);
  }

  /** Every connection is counted once: checked in, checked out, detached, or, if it
      is neither checked in nor detached, invalidated. */
  lemma {:induction false} ConnectionPartition(events: seq<Event>)
    requires PoolAfter(events).Some?
    ensures var s := Run(events);
      && s.checkedin <= s.connections && s.detached <= s.connections && s.invalidated <= s.connections
      && s.checkedin !! s.detached
      && |s.connections| == |s.checkedin| + |s.CheckedOut()| + |s.detached|
                            + |s.invalidated - s.checkedin - s.detached|
  {
    RunProjects(events);
    ProjectionSubsets(PoolAfter(events).value, Run(events));
    PartitionOf(Run(events));
  }

  /** The sets lie inside the connections, and nothing is both checked in and detached. */
  ghost predicate WellPlaced(s: Counts) {
    && s.checkedin <= s.connections && s.detached <= s.connections && s.invalidated <= s.connections
    && s.checkedin !! s.detached
  }

  /** What an event must be like, in the state it meets, for the counts to stay right. */
  ghost predicate Harmless(s: Counts, e: Event) {
    match e
    case Connect(id) => id !in s.detached
    case Checkin(id) => id in s.connections && id !in s.detached
    case Invalidate(id) => id in s.connections
    case Detach(id) => id in s.connections && id !in s.checkedin
    case _ => true
  }

  /** On arbitrary traces: an event keeps the placement, and with it the partition of
      the connections, exactly when it is harmless. */
  lemma PlacementKeptIffHarmless(s: Counts, e: Event)
    requires WellPlaced(s)
    ensures WellPlaced(Step(s, e)) <==> Harmless(s, e)
    ensures Harmless(s, e) ==>
              var t := Step(s, e);
              |t.connections| == |t.checkedin| + |t.CheckedOut()| + |t.detached| + |t.invalidated - t.checkedin - t.detached|
  {
    var t := Step(s, e);
    match e {
      case Checkin(id) => assert id in t.checkedin;
      case Invalidate(id) => assert id in t.invalidated;
      case Detach(id) => assert id in t.detached;
      case Connect(id) => assert id in t.checkedin;
      case _ =>
    }
    if Harmless(s, e) {
      PartitionOf(t);
    }
  }

  /** The lifecycle matters: one checkin of a connection that is gone, and the counts
      exceed the connections. */
  lemma StrayCheckinMiscounts()
    ensures var s := Run([Connect(1), Close(1), Checkin(1)]);
      |s.connections| == 0 && |s.checkedin| == 1
  {
    RunAppend([], Connect(1));
    RunAppend([Connect(1)], Close(1));
    RunAppend([Connect(1), Close(1)], Checkin(1));
    assert [] + [Connect(1)] == [Connect(1)];
    assert [Connect(1)] + [Close(1)] == [Connect(1), Close(1)];
    assert [Connect(1), Close(1)] + [Checkin(1)] == [Connect(1), Close(1), Checkin(1)];
    var s, t := Run([Connect(1), Close(1)]), Run([Connect(1), Close(1), Checkin(1)]);
    assert s.connections == {} && s.checkedin == {};
    assert t.connections == {} && t.checkedin == {1};
  }

  // ----- Recycled ids -----

  /** The events of a trace that concern other connections. */
  function Without(events: seq<Event>, id: Id): seq<Event> {
    if events == [] then []
    else
      var front, e := events[..|events| - 1], events[|events| - 1];
      if e.id == id then Without(front, id) else Without(front, id) + [e]
  }

  lemma LiveElsewhere(q: Pool, e: Event, id: Id)
    requires Allowed(q, e)
    ensures e.id == id ==> Live(q, e) - {id} == q - {id}
    ensures e.id != id ==> Allowed(q - {id}, e) && Live(q - {id}, e) == Live(q, e) - {id}
  {
  }

  lemma {:induction false} PoolWithout(events: seq<Event>, id: Id)
    requires PoolAfter(events).Some?
    ensures PoolAfter(Without(events, id)) == Some(PoolAfter(events).value - {id})
  {
    if events != [] {
      var front, e := events[..|events| - 1], events[|events| - 1];
      PoolWithout(front, id);
      LiveElsewhere(PoolAfter(front).value, e, id);
      var rest := Without(front, id);
      assert (rest + [e])[..|rest|] == rest;
    } else {
      assert PoolAfter(events).value - {id} == map[];
    }
  }

  lemma SameProjection(p: Pool, s: Counts, t: Counts)
    requires Projects(p, s) && Projects(p, t)
    ensures s.Sets() == t.Sets()
  {
  }

  /** A connection that has ended leaves no trace: its id is in none of the sets, and
      they are as if it had never been there. So a later connect that reuses the id
      starts where a connect with a fresh id would. */
  lemma {:induction false} EndedLeavesNoTrace(events: seq<Event>, id: Id)
    requires PoolAfter(events).Some? && id !in PoolAfter(events).value
    ensures var s := Run(events);
      && id !in s.connections && id !in s.checkedin && id !in s.invalidated && id !in s.detached && id !in s.transactions
      && s.Sets() == Run(Without(events, id)).Sets()
      && Step(s, Connect(id)).Sets() == Step(Run(Without(events, id)), Connect(id)).Sets()
  {
    var p := PoolAfter(events).value;
    RunProjects(events);
    PoolWithout(events, id);
    assert p - {id} == p;
    RunProjects(Without(events, id));
    SameProjection(p, Run(events), Run(Without(events, id)));
  }
}

/** client/collector.py, `CollectionTarget` and `EngineCollector`. */
module Collectors {
  import opened ConnectionEvents

  class CollectionTarget {
    const name: string
    var collectors: set<EngineCollector>
    var connections: set<Id>
    var checkedin: set<Id>
    var invalidated: set<Id>
    var detached: set<Id>
    var transactions: set<Id>
    var totalCheckouts: nat
    var totalInvalidated: nat
    var totalConnects: nat
    var totalDisconnects: nat
    ghost var events: seq<Event>

    ghost function State(): Counts
      reads this
    {
      Counts(connections, checkedin, invalidated, detached, transactions,
             totalCheckouts, totalInvalidated, totalConnects, totalDisconnects)
    }

    /** The sets and counters are where the events so far lead to. */
    ghost predicate Valid()
      reads this
    {
      State() == Run(events)
    }

    constructor (name: string)
      ensures Valid() && events == [] && collectors == {} && this.name == name
    {
      this.name := name;
      collectors, connections, checkedin, invalidated, detached, transactions := {}, {}, {}, {}, {}, {};
      totalCheckouts, totalInvalidated, totalConnects, totalDisconnects := 0, 0, 0, 0;
      events := [];
    }

    function NumPools(): nat
      reads this
    {
      |collectors|
    }

    function NumCheckedout(): nat
      reads this
    {
      |connections - detached - invalidated - checkedin|
    }

    /** The two vectors a sender puts on the wire, and what they tell. */
    method Snapshot() returns (pool: seq<int>, totals: seq<int>)
      requires Valid()
      ensures pool == PoolSnapshot(Run(events), NumPools())
      ensures totals == TotalsSnapshot(Run(events))
      ensures |pool| == 5 && TotalsTell(events, totals, pool[4])
      ensures PoolAfter(events).Some? ==> PoolTells(PoolAfter(events).value, |collectors|, pool)
    {
      TotalsReported(events);
      if PoolAfter(events).Some? {
        PoolReported(events, NumPools());
      }
      pool := [NumPools(), NumCheckedout(), |checkedin|, |detached|, |connections|];
      totals := [totalCheckouts, totalInvalidated, totalConnects, totalDisconnects];
    }
  }

  /** One per engine; it works on its target's own sets. */
  class EngineCollector {
    const target: CollectionTarget

    constructor (target: CollectionTarget)
      modifies target`collectors
      ensures this.target == target && target.collectors == old(target.collectors) + {this}
    {
      this.target := target;
      new;
      target.collectors := target.collectors + {this};
    }

    twostate predicate Handled(e: Event)
      reads target
    {
      && target.Valid()
      && target.events == old(target.events) + [e]
      && target.State() == Step(old(target.State()), e)
      && target.collectors == old(target.collectors)
    }

    ghost method Log(e: Event)
      modifies target`events
      ensures target.events == old(target.events) + [e]
      ensures Run(target.events) == Step(Run(old(target.events)), e)
    {
      RunAppend(target.events, e);
      target.events := target.events + [e];
    }

    method ConnectEvt(id: Id)
      requires target.Valid()
      modifies target
      ensures Handled(Connect(id))
    {
      Log(Connect(id));
      target.totalConnects := target.totalConnects + 1;
      target.connections := target.connections + {id};
      target.checkedin := target.checkedin + {id};
    }

    /** `raised` is the KeyError of `checkedin.remove`, after the count has moved. */
    method CheckoutEvt(id: Id) returns (raised: bool)
      requires target.Valid()
      modifies target
      ensures Handled(Checkout(id)) && raised == Raises(old(target.State()), Checkout(id))
    {
      Log(Checkout(id));
      target.totalCheckouts := target.totalCheckouts + 1;
      if id !in target.checkedin {
        assert target.checkedin - {id} == target.checkedin;
        return true;
      }
      target.checkedin := target.checkedin - {id};
      return false;
    }

    method CheckinEvt(id: Id)
      requires target.Valid()
      modifies target
      ensures Handled(Checkin(id))
    {
      Log(Checkin(id));
      target.checkedin := target.checkedin + {id};
    }

    method InvalidateEvt(id: Id)
      requires target.Valid()
      modifies target
      ensures Handled(Invalidate(id))
    {
      Log(Invalidate(id));
      target.totalInvalidated := target.totalInvalidated + 1;
      target.invalidated := target.invalidated + {id};
    }

    method ResetEvt(id: Id)
      requires target.Valid()
      modifies target
      ensures Handled(Reset(id))
    {
      Log(Reset(id));
      target.transactions := target.transactions - {id};
    }

    method CloseEvt(id: Id) returns (warnings: seq<Warning>)
      requires target.Valid()
      modifies target
      ensures Handled(Close(id)) && warnings == Warnings(old(target.State()), Close(id))
    {
      ghost var s := target.State();
      Log(Close(id));
      target.transactions := target.transactions - {id};
      target.invalidated := target.invalidated - {id};
      target.checkedin := target.checkedin - {id};
      if id in target.connections {
        target.connections := target.connections - {id};
        target.totalDisconnects := target.totalDisconnects + 1;
        warnings := [];
      } else {
        assert target.connections - {id} == target.connections;
        warnings := [UnknownConnection];
      }
      if id in target.detached {
        warnings := warnings + [StillDetached];
      }
      target.detached := target.detached - {id};
      assert target.State() == Forget(s, id);
    }

    method DetachEvt(id: Id)
      requires target.Valid()
      modifies target
      ensures Handled(Detach(id))
    {
      Log(Detach(id));
      target.detached := target.detached + {id};
    }

    method CloseDetachedEvt(id: Id) returns (warnings: seq<Warning>)
      requires target.Valid()
      modifies target
      ensures Handled(CloseDetached(id)) && warnings == Warnings(old(target.State()), CloseDetached(id))
    {
      Log(CloseDetached(id));
      target.transactions := target.transactions - {id};
      target.invalidated := target.invalidated - {id};
      target.checkedin := target.checkedin - {id};
      target.detached := target.detached - {id};
      if id in target.connections {
        target.connections := target.connections - {id};
        target.totalDisconnects := target.totalDisconnects + 1;
        warnings := [];
      } else {
        assert target.connections - {id} == target.connections;
        warnings := [UnknownConnection];
      }
    }
  }
}
