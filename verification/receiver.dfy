/** server/receiver.py on values: three expiring buckets, their writer and their summary. */
module Aggregation {
  import opened Wrappers
  import opened Protocol
  import opened Summation
  import opened CollectdTypes
  import opened Translation
  import opened Expiry
  import opened Buckets
  import opened Grouping

  /** The three received types, in the order of `Receiver.collectd_types`. */
  datatype Kind = Pool | Totals | Process
  {
    function Index(): nat {
      match this
      case Pool => 0
      case Totals => 1
      case Process => 2
    }

    function Spec(): Type {
      RECEIVED[Index()]
    }
  }

  /** `self.buckets[bucket_name]`; None is its KeyError. */
  function KindNamed(name: Option<string>): Option<Kind> {
    if name == Some(POOL.name) then Some(Pool)
    else if name == Some(TOTALS.name) then Some(Totals)
    else if name == Some(PROCESS.name) then Some(Process)
    else None
  }

  type Bucket = map<Key, Entry<Msg>>

  datatype State = State(pool: Store<Key, Msg>, totals: Store<Key, Msg>, process: Store<Key, Msg>)
  {
    function At(kind: Kind): Store<Key, Msg> {
      match kind
      case Pool => pool
      case Totals => totals
      case Process => process
    }

    function With(kind: Kind, s: Store<Key, Msg>): State {
      match kind
      case Pool => this.(pool := s)
      case Totals => this.(totals := s)
      case Process => this.(process := s)
    }
  }

  const EMPTY_STORE: Store<Key, Msg> := Store(INITIAL_CLOCK, map[])
  const INITIAL := State(EMPTY_STORE, EMPTY_STORE, EMPTY_STORE)

  /** A decoded message always carries its strings and its time. */
  predicate FromWire(v: Msg) {
    v.host.Some? && v.pluginInstance.Some? && v.typeInstance.Some? && v.time.Some?
  }

  const BLANK_MESSAGE: Msg := Values(None, Some(""), None, Some(""), Some(""), Some(0.0), DEFAULT_INTERVAL, [])

  type Message = v: Msg | FromWire(v) witness BLANK_MESSAGE

  function KeyOf(v: Message): Key {
    Key(v.host.value, v.pluginInstance.value, v.typeInstance.value)
  }

  /** The record that counts one process. */
  function Manufactured(v: Message): Msg {
    v.(typeName := Some(PROCESS.name), values := [1])
  }

  datatype Outcome = Stored | Rejected | UnknownType

  /** `_set_stats`. The message's own bucket is written before the process bucket
      is consulted, and stays written when that one rejects. */
  function SetStats(s: State, v: Message): (State, Outcome) {
    match KindNamed(v.typeName)
    case None => (s, UnknownType)
    case Some(kind) =>
      var (own, ok) := s.At(kind).Put(v.time.value, v.interval * 2, KeyOf(v), v);
      if !ok then (s.With(kind, own), Rejected)
      else if v.typeInstance.value == "" then (s.With(kind, own), Stored)
      else CountProcess(s.With(kind, own), v)
  }

  /** The second half: a manufactured record that lives longer. */
  function CountProcess(s: State, v: Message): (State, Outcome) {
    var (process, ok) := s.process.Put(v.time.value, v.interval * 5, KeyOf(v), Manufactured(v));
    (s.With(Process, process), if ok then Stored else Rejected)
  }

  // ----- summarize -----

  datatype Ending = Finished | ValueError | KeyError

  /** What a generator yields, and how it stops. */
  datatype Yield = Yield(out: seq<Msg>, ending: Ending)
  {
    function Then(next: Yield): Yield {
      if ending.Finished? then Yield(out + next.out, next.ending) else this
    }
  }

  function Records(bucket: Bucket, g: seq<Key>): (recs: seq<Msg>)
    requires forall k :: k in g ==> k in bucket
    ensures |recs| == |g| && forall i :: 0 <= i < |g| ==> recs[i] == bucket[g[i]].value
  {
    seq(|g|, i requires 0 <= i < |g| => bucket[g[i]].value)
  }

  ghost predicate Listed(bucket: Bucket, g: seq<Key>) {
    g != [] && forall k :: k in g ==> k in bucket
  }

  /** One aggregated record: the sum of a group, with the time of the summary and
      the interval of the group's first record. */
  function Row(bucket: Bucket, scope: Scope, g: seq<Key>, now: real): Msg
    requires Listed(bucket, g)
  {
    var recs := Records(bucket, g);
    var total := Sum(recs).(time := Some(now), interval := recs[0].interval);
    if scope.ByHost? then total.(pluginInstance := Some("host")) else total
  }

  function Rows(bucket: Bucket, scope: Scope, groups: seq<seq<Key>>, now: real): (rows: seq<Msg>)
    requires forall a :: 0 <= a < |groups| ==> Listed(bucket, groups[a])
    ensures |rows| == |groups|
    ensures forall a :: 0 <= a < |rows| ==> rows[a] == Row(bucket, scope, groups[a], now)
  {
    seq(|groups|, a requires 0 <= a < |groups| => Row(bucket, scope, groups[a], now))
  }

  function Groups(bucket: Bucket, scope: Scope): (groups: seq<seq<Key>>)
    ensures forall a :: 0 <= a < |groups| ==> Listed(bucket, groups[a])
  {
    GroupsOnce(scope, bucket.Keys);
    GroupBy(scope, Sorted(bucket.Keys))
  }

  /** Each aggregated record goes through the translator. */
  function Emit(rows: seq<Msg>): Yield {
    if rows == [] then Yield([], Finished)
    else
      match Break(TypeTable(RECEIVED), rows[0])
      case None => Yield([], KeyError)
      case Some(singles) => Yield(singles, Finished).Then(Emit(rows[1..]))
  }

  /** `get_stats_by_progname` or `get_stats_by_hostname`, translated. */
  function Stats(s: Store<Key, Msg>, scope: Scope, now: real): (Store<Key, Msg>, Yield) {
    var s' := s.Access(now, None);
    if s.clock.Admits(now, None)
    then (s', Emit(Rows(s'.bucket, scope, Groups(s'.bucket, scope), now)))
    else (s', Yield([], ValueError))
  }

  function StatsOfKind(s: Store<Key, Msg>, now: real): (Store<Key, Msg>, Yield) {
    var (s1, y1) := Stats(s, ByProgram, now);
    if !y1.ending.Finished? then (s1, y1)
    else
      var (s2, y2) := Stats(s1, ByHost, now);
      (s2, y1.Then(y2))
  }

  function Summarize(s: State, now: real): (State, Yield) {
    var (pool, y1) := StatsOfKind(s.pool, now);
    if !y1.ending.Finished? then (s.(pool := pool), y1)
    else
      var (totals, y2) := StatsOfKind(s.totals, now);
      if !y2.ending.Finished? then (s.(pool := pool, totals := totals), y1.Then(y2))
      else
        var (process, y3) := StatsOfKind(s.process, now);
        (State(pool, totals, process), y1.Then(y2).Then(y3))
  }

  // ----- Runs -----

  datatype Event = Receive(v: Message) | Summary(now: real)

  function Advance(s: State, e: Event): State {
    match e
    case Receive(v) => SetStats(s, v).0
    case Summary(now) => Summarize(s, now).0
  }

  function Run(events: seq<Event>): State {
    if events == [] then INITIAL else Advance(Run(events[..|events| - 1]), events[|events| - 1])
  }

  lemma {:induction false} RunAppend(events: seq<Event>, e: Event)
    ensures Run(events + [e]) == Advance(Run(events), e)
  {
    assert (events + [e])[..|events|] == events;
  }
}

/** server/receiver.py, `Receiver`: the object with its three buckets. */
module Receivers {
  import opened Wrappers
  import opened Protocol
  import opened CollectdTypes
  import opened Translation
  import opened Buckets
  import opened Grouping
  import opened Aggregation

  class Receiver {
    const translator: StreamTranslator
    const pool: TimeBucket<Key, Msg>
    const totals: TimeBucket<Key, Msg>
    const process: TimeBucket<Key, Msg>
    ghost var events: seq<Event>

    ghost function Abstract(): State
      reads pool, totals, process
    {
      State(pool.State(), totals.State(), process.State())
    }

    ghost predicate Consistent()
      reads this, pool, totals, process, translator
    {
      && pool != totals && totals != process && pool != process
      && pool.Valid() && totals.Valid() && process.Valid()
      && translator.typeByName == TypeTable(RECEIVED)
    }

    /** The three buckets are in the state that the received events lead to. */
    ghost predicate Valid()
      reads this, pool, totals, process, translator
    {
      Consistent() && Abstract() == Run(events)
    }

    constructor ()
      ensures Valid() && events == [] && fresh(pool) && fresh(totals) && fresh(process)
    {
      translator := new StreamTranslator(RECEIVED);
      pool := new TimeBucket();
      totals := new TimeBucket();
      process := new TimeBucket();
      events := [];
    }

    function BucketOf(kind: Kind): TimeBucket<Key, Msg> {
      match kind
      case Pool => pool
      case Totals => totals
      case Process => process
    }

    /** `bucket.get_data(...)` and then `records[key] = values`. */
    method Record(bucket: TimeBucket<Key, Msg>, timestamp: real, interval: int, key: Key, values: Msg) returns (ok: bool)
      requires bucket.Valid()
      modifies bucket
      ensures bucket.Valid()
      ensures (bucket.State(), ok) == old(bucket.State()).Put(timestamp, interval, key, values)
    {
      var records := bucket.GetData(timestamp, Some(interval));
      if records.None? {
        return false;
      }
      records.value.SetItem(key, values);
      return true;
    }

    ghost method Log(e: Event)
      requires Consistent() && Abstract() == Advance(Run(events), e)
      modifies this`events
      ensures Valid() && events == old(events) + [e]
    {
      RunAppend(events, e);
      events := events + [e];
    }

    /** `_set_stats`. */
    method SetStats(v: Message) returns (r: Outcome)
      requires Valid()
      modifies this`events, pool, totals, process
      ensures Valid() && events == old(events) + [Receive(v)]
      ensures (Abstract(), r) == Aggregation.SetStats(old(Abstract()), v)
    {
      r := Store(v);
      Log(Receive(v));
    }

    method Store(v: Message) returns (r: Outcome)
      requires Consistent()
      modifies pool, totals, process
      ensures Consistent()
      ensures (Abstract(), r) == Aggregation.SetStats(old(Abstract()), v)
    {
      var kind := KindNamed(v.typeName);
      if kind.None? {
        return UnknownType;
      }
      var ok := Record(BucketOf(kind.value), v.time.value, v.interval * 2, KeyOf(v), v);
      if !ok {
        return Rejected;
      }
      if v.typeInstance.value == "" {
        return Stored;
      }
      r := CountProcess(v);
    }

    /** The manufactured record. */
    method CountProcess(v: Message) returns (r: Outcome)
      requires Consistent()
      modifies process
      ensures Consistent()
      ensures (Abstract(), r) == Aggregation.CountProcess(old(Abstract()), v)
    {
      var ok := Record(process, v.time.value, v.interval * 5, KeyOf(v), Manufactured(v));
      return if ok then Stored else Rejected;
    }

    /** The two `get_stats_by_...` generators, drained; None is a ValueError. */
    method GetStats(kind: Kind, scope: Scope, timestamp: real) returns (rows: Option<seq<Msg>>)
      requires Consistent()
      modifies BucketOf(kind)
      ensures Consistent()
      ensures BucketOf(kind).State() == old(BucketOf(kind).State()).Access(timestamp, None)
      ensures rows.Some? <==> old(BucketOf(kind).State()).clock.Admits(timestamp, None)
      ensures rows.Some? ==>
                var records := BucketOf(kind).bucket;
                rows.value == Rows(records, scope, Groups(records, scope), timestamp)
    {
      var bucket := BucketOf(kind);
      var facade := bucket.GetData(timestamp, None);
      if facade.None? {
        return None;
      }
      return Some(Rows(bucket.bucket, scope, Groups(bucket.bucket, scope), timestamp));
    }

    method Translate(rows: seq<Msg>) returns (y: Yield)
      requires translator.typeByName == TypeTable(RECEIVED)
      ensures y == Emit(rows)
    {
      y := Yield([], Finished);
      assert rows[0..] == rows;
      for n := 0 to |rows|
        invariant y.ending.Finished? && y.Then(Emit(rows[n..])) == Emit(rows)
      {
        var singles := Break(translator.typeByName, rows[n]);
        assert rows[n..][1..] == rows[n + 1..];
        if singles.None? {
          return Yield(y.out, KeyError);
        }
        ghost var before := y;
        y := Yield(y.out + singles.value, Finished);
        assert y.Then(Emit(rows[n + 1..])) == before.Then(Emit(rows[n..]));
      }
      assert y.Then(Emit(rows[|rows|..])) == y;
    }

    method StatsOf(kind: Kind, scope: Scope, timestamp: real) returns (y: Yield)
      requires Consistent()
      modifies BucketOf(kind)
      ensures Consistent()
      ensures (BucketOf(kind).State(), y) == Stats(old(BucketOf(kind).State()), scope, timestamp)
    {
      var rows := GetStats(kind, scope, timestamp);
      if rows.None? {
        return Yield([], ValueError);
      }
      y := Translate(rows.value);
    }

    method StatsOfKind(kind: Kind, timestamp: real) returns (y: Yield)
      requires Consistent()
      modifies BucketOf(kind)
      ensures Consistent()
      ensures (BucketOf(kind).State(), y) == Aggregation.StatsOfKind(old(BucketOf(kind).State()), timestamp)
      ensures Abstract() == old(Abstract()).With(kind, BucketOf(kind).State())
    {
      y := StatsOf(kind, ByProgram, timestamp);
      if y.ending.Finished? {
        var z := StatsOf(kind, ByHost, timestamp);
        y := y.Then(z);
      }
    }

    /** `summarize`, drained: everything it yields before it ends or fails. */
    method Summarize(timestamp: real) returns (y: Yield)
      requires Valid()
      modifies this`events, pool, totals, process
      ensures Valid() && events == old(events) + [Summary(timestamp)]
      ensures (Abstract(), y) == Aggregation.Summarize(old(Abstract()), timestamp)
    {
      y := Drain(timestamp);
      Log(Summary(timestamp));
    }

    method Drain(timestamp: real) returns (y: Yield)
      requires Consistent()
      modifies pool, totals, process
      ensures Consistent()
      ensures (Abstract(), y) == Aggregation.Summarize(old(Abstract()), timestamp)
    {
      y := StatsOfKind(Pool, timestamp);
      if y.ending.Finished? {
        var z := StatsOfKind(Totals, timestamp);
        y := y.Then(z);
        if z.ending.Finished? {
          z := StatsOfKind(Process, timestamp);
          y := y.Then(z);
        }
      }
    }
  }
}
