/** stream.py, `TimeBucket` and `DictFacade`: a dictionary whose records expire. */

/** What a bucket should hold, said about the history of what happened to it. */
module Expiry {
  import opened Wrappers
  import opened Protocol

  /** `int(interval * 1.2)`; the cast truncates toward zero for either sign. */
  function Slack(interval: int): int {
    if interval >= 0 then 6 * interval / 5 else -(6 * -interval / 5)
  }

  datatype Entry<+V> = Entry(ts: real, interval: int, value: V)
  {
    predicate Stale(now: real) {
      ts < now - Slack(interval) as real
    }
  }

  /** `last_timestamp` and `last_interval`: all that decides whether a call is accepted. */
  datatype Clock = Clock(last: real, interval: int)
  {
    function Given(interval': Option<int>): Clock {
      Clock(last, interval'.GetOr(interval))
    }

    /** The interval is taken over before the test, and an interval of 0 disables the test. */
    predicate Admits(now: real, interval': Option<int>) {
      var iv := interval'.GetOr(interval);
      iv == 0 || Trunc(now) >= Trunc(last) - Slack(iv)
    }

    function After(now: real, interval': Option<int>): Clock {
      if Admits(now, interval') then Clock(now, interval'.GetOr(interval)) else Given(interval')
    }
  }

  const INITIAL_CLOCK := Clock(0.0, 0)

  /** The net effect of one step on a bucket: perhaps a sweep at some time, then perhaps a store. */
  datatype Effect<+K, +V> = Effect(sweep: Option<real>, store: Option<(K, Entry<V>)>)

  function Evict<K, V>(bucket: map<K, Entry<V>>, now: real): map<K, Entry<V>> {
    map k | k in bucket && !bucket[k].Stale(now) :: bucket[k]
  }

  function Apply<K, V>(bucket: map<K, Entry<V>>, e: Effect<K, V>): map<K, Entry<V>> {
    var swept := if e.sweep.Some? then Evict(bucket, e.sweep.value) else bucket;
    if e.store.Some? then swept[e.store.value.0 := e.store.value.1] else swept
  }

  function ApplyAll<K, V>(es: seq<Effect<K, V>>): map<K, Entry<V>> {
    if es == [] then map[] else Apply(ApplyAll(es[..|es| - 1]), es[|es| - 1])
  }

  ghost predicate Stores<K, V>(e: Effect<K, V>, k: K) {
    e.store.Some? && e.store.value.0 == k
  }

  /** Step `j` neither overwrites key `k` nor sweeps away the entry `x`. */
  ghost predicate Spares<K, V>(e: Effect<K, V>, k: K, x: Entry<V>) {
    !Stores(e, k) && (e.sweep.Some? ==> !x.Stale(e.sweep.value))
  }

  /** Step `i` stored key `k`, and nothing since has overwritten or expired it. */
  ghost predicate Live<K, V>(es: seq<Effect<K, V>>, i: int, k: K) {
    && 0 <= i < |es|
    && Stores(es[i], k)
    && forall j :: i < j < |es| ==> Spares(es[j], k, es[i].store.value.1)
  }

  // ----- The two boundaries, in plain numbers -----

  /** A time is at most 6/5 of an interval, in whole seconds, after a stamp; the last
      moment counts. */
  predicate InTime(ts: real, interval: int, now: real) {
    now <= ts + (if interval >= 0 then 6 * interval / 5 else -(6 * -interval / 5)) as real
  }

  lemma StaleIff<V>(e: Entry<V>, now: real)
    ensures e.Stale(now) <==> !InTime(e.ts, e.interval, now)
  {
  }

  /** A call is accepted iff the interval in force is 0 or the whole second of the call is
      at most 6/5 of that interval before that of the last accepted one. */
  lemma AdmitsIff(c: Clock, now: real, interval: Option<int>)
    ensures var iv := if interval.Some? then interval.value else c.interval;
      var late := Trunc(c.last) - Trunc(now);
      c.Admits(now, interval) <==> iv == 0 || (if iv > 0 then 5 * late <= 6 * iv else 6 * -iv < 5 * (1 - late))
  {
  }

  lemma LiveExtends<K, V>(es: seq<Effect<K, V>>, e: Effect<K, V>, k: K, i: int)
    requires 0 <= i < |es|
    ensures Live(es + [e], i, k) <==> Live(es, i, k) && Spares(e, k, es[i].store.value.1)
  {
    var fs := es + [e];
    assert fs[|es|] == e && forall j :: 0 <= j < |es| ==> fs[j] == es[j];
    if Live(fs, i, k) {
      assert Spares(fs[|es|], k, fs[i].store.value.1);
      forall j | i < j < |es| ensures Spares(es[j], k, es[i].store.value.1) {
        assert Spares(fs[j], k, fs[i].store.value.1);
      }
    }
  }

  /** A key is present exactly when some store of it is still live, and its entry is that store's. */
  lemma {:induction false} PresentIffLive<K, V>(es: seq<Effect<K, V>>, k: K)
    ensures k in ApplyAll(es) <==> exists i :: Live(es, i, k)
    ensures forall i :: Live(es, i, k) ==> k in ApplyAll(es) && ApplyAll(es)[k] == es[i].store.value.1
  {
    if es != [] {
      var front, e := es[..|es| - 1], es[|es| - 1];
      assert es == front + [e];
      PresentIffLive(front, k);
      forall i | 0 <= i < |front|
        ensures Live(es, i, k) <==> Live(front, i, k) && Spares(e, k, front[i].store.value.1)
      {
        LiveExtends(front, e, k, i);
      }
      if Stores(e, k) {
        assert Live(es, |front|, k);
      } else if k in ApplyAll(es) {
        var i :| Live(front, i, k);
        assert Live(es, i, k);
      }
    }
  }

  /** Sweeping twice at one time is sweeping once. */
  lemma EvictTwice<K, V>(bucket: map<K, Entry<V>>, now: real)
    ensures Evict(Evict(bucket, now), now) == Evict(bucket, now)
  {
  }
}

module Buckets {
  import opened Wrappers
  import opened Protocol
  import opened Expiry

  datatype Store<K, V> = Store(clock: Clock, bucket: map<K, Entry<V>>)
  {
    /** `_get_bucket`: an accepted call sweeps, a rejected one only remembers the interval. */
    function Access(now: real, interval: Option<int>): Store<K, V> {
      Store(clock.After(now, interval), if clock.Admits(now, interval) then Evict(bucket, now) else bucket)
    }

    function Write(k: K, e: Entry<V>): Store<K, V> {
      this.(bucket := bucket[k := e])
    }

    /** A call followed, if it is accepted, by a write through the facade it returned. */
    function Put(now: real, interval: int, k: K, v: V): (Store<K, V>, bool) {
      var s := Access(now, Some(interval));
      if clock.Admits(now, Some(interval)) then (s.Write(k, Entry(now, interval, v)), true) else (s, false)
    }
  }

  /** What a client can do to a bucket: call it at a time, or write through a facade it was given. */
  datatype Op<+K, +V> = Call(now: real, interval: Option<int>) | Write(key: K, entry: Entry<V>)

  function Step<K, V>(s: Store<K, V>, op: Op<K, V>): Store<K, V> {
    match op
    case Call(now, interval) => s.Access(now, interval)
    case Write(k, e) => s.Write(k, e)
  }

  function Replay<K, V>(ops: seq<Op<K, V>>): Store<K, V> {
    if ops == [] then Store(INITIAL_CLOCK, map[]) else Step(Replay(ops[..|ops| - 1]), ops[|ops| - 1])
  }

  // ----- The same history read without any dictionary -----

  function ClockAfter<K, V>(ops: seq<Op<K, V>>): Clock {
    if ops == [] then INITIAL_CLOCK
    else
      var c := ClockAfter(ops[..|ops| - 1]);
      var op := ops[|ops| - 1];
      if op.Call? then c.After(op.now, op.interval) else c
  }

  /** The call at position `i` was accepted. */
  ghost predicate Accepted<K, V>(ops: seq<Op<K, V>>, i: int) {
    0 <= i < |ops| && ops[i].Call? && ClockAfter(ops[..i]).Admits(ops[i].now, ops[i].interval)
  }

  /** The write at position `i` is the last one to its key, and no call accepted
      since came at a time that makes it stale. */
  ghost predicate LastUnexpired<K, V>(ops: seq<Op<K, V>>, i: int, k: K) {
    && 0 <= i < |ops| && ops[i].Write? && ops[i].key == k
    && (forall j :: i < j < |ops| && ops[j].Write? ==> ops[j].key != k)
    && (forall j :: i < j && Accepted(ops, j) ==> !ops[i].entry.Stale(ops[j].now))
  }

  function EffectOf<K, V>(c: Clock, op: Op<K, V>): Effect<K, V> {
    match op
    case Call(now, interval) => Effect(if c.Admits(now, interval) then Some(now) else None, None)
    case Write(k, e) => Effect(None, Some((k, e)))
  }

  function Effects<K, V>(ops: seq<Op<K, V>>): (es: seq<Effect<K, V>>)
    ensures |es| == |ops|
  {
    if ops == [] then []
    else Effects(ops[..|ops| - 1]) + [EffectOf(ClockAfter(ops[..|ops| - 1]), ops[|ops| - 1])]
  }

  lemma {:induction false} ReplaySplits<K, V>(ops: seq<Op<K, V>>)
    ensures Replay(ops) == Store(ClockAfter(ops), ApplyAll(Effects(ops)))
  {
    if ops != [] {
      var front, op := ops[..|ops| - 1], ops[|ops| - 1];
      ReplaySplits(front);
      var e := EffectOf(ClockAfter(front), op);
      assert (Effects(front) + [e])[..|front|] == Effects(front);
    }
  }

  lemma {:induction false} EffectsAt<K, V>(ops: seq<Op<K, V>>, i: int)
    requires 0 <= i < |ops|
    ensures Effects(ops)[i] == EffectOf(ClockAfter(ops[..i]), ops[i])
  {
    if i < |ops| - 1 {
      EffectsAt(ops[..|ops| - 1], i);
      assert ops[..|ops| - 1][..i] == ops[..i];
    }
  }

  lemma {:induction false} LiveIsLastUnexpired<K, V>(ops: seq<Op<K, V>>, i: int, k: K)
    ensures Live(Effects(ops), i, k) <==> LastUnexpired(ops, i, k)
  {
    var es := Effects(ops);
    forall j | 0 <= j < |ops| ensures es[j] == EffectOf(ClockAfter(ops[..j]), ops[j]) {
      EffectsAt(ops, j);
    }
    if Live(es, i, k) {
      forall j | i < j < |ops| && ops[j].Write? ensures ops[j].key != k {
        assert Spares(es[j], k, es[i].store.value.1);
      }
      forall j | i < j && Accepted(ops, j) ensures !ops[i].entry.Stale(ops[j].now) {
        assert Spares(es[j], k, es[i].store.value.1);
      }
    }
    if LastUnexpired(ops, i, k) {
      forall j | i < j < |es| ensures Spares(es[j], k, es[i].store.value.1) {
        if es[j].sweep.Some? {
          assert Accepted(ops, j);
        }
      }
    }
  }

  /** The dictionary agrees with the history: a key is present iff its last write
      has not been followed by an accepted call late enough to expire it, and it
      then holds exactly what that write put there. */
  lemma {:induction false} StoreRefinesHistory<K, V>(ops: seq<Op<K, V>>, k: K)
    ensures k in Replay(ops).bucket <==> exists i :: LastUnexpired(ops, i, k)
    ensures forall i :: LastUnexpired(ops, i, k) ==> k in Replay(ops).bucket && Replay(ops).bucket[k] == ops[i].entry
  {
    ReplaySplits(ops);
    var es := Effects(ops);
    PresentIffLive(es, k);
    forall i ensures Live(es, i, k) <==> LastUnexpired(ops, i, k) {
      LiveIsLastUnexpired(ops, i, k);
    }
    if k in Replay(ops).bucket {
      var i :| Live(es, i, k);
      assert LastUnexpired(ops, i, k);
    }
    forall i | LastUnexpired(ops, i, k) ensures k in Replay(ops).bucket && Replay(ops).bucket[k] == ops[i].entry {
      assert Live(es, i, k);
      EffectsAt(ops, i);
    }
  }

  /** The same in plain numbers: a key is present iff, since its last write at time `ts`
      with interval `iv`, every accepted call came at most 6/5 of `iv`, in whole seconds,
      after `ts`. */
  lemma {:induction false} HeldWhileInTime<K, V>(ops: seq<Op<K, V>>, k: K)
    ensures k in Replay(ops).bucket <==> exists i :: LastInTime(ops, i, k)
    ensures forall i :: LastInTime(ops, i, k) ==> k in Replay(ops).bucket && Replay(ops).bucket[k] == ops[i].entry
  {
    StoreRefinesHistory(ops, k);
    forall i ensures LastInTime(ops, i, k) <==> LastUnexpired(ops, i, k) {
      LastInTimeIff(ops, i, k);
    }
    if k in Replay(ops).bucket {
      var i :| LastUnexpired(ops, i, k);
      assert LastInTime(ops, i, k);
    }
  }

  ghost predicate LastInTime<K, V>(ops: seq<Op<K, V>>, i: int, k: K) {
    && 0 <= i < |ops| && ops[i].Write? && ops[i].key == k
    && (forall j :: i < j < |ops| && ops[j].Write? ==> ops[j].key != k)
    && (forall j :: i < j && Accepted(ops, j) ==> InTime(ops[i].entry.ts, ops[i].entry.interval, ops[j].now))
  }

  lemma LastInTimeIff<K, V>(ops: seq<Op<K, V>>, i: int, k: K)
    ensures LastInTime(ops, i, k) <==> LastUnexpired(ops, i, k)
  {
    if 0 <= i < |ops| && ops[i].Write? {
      forall j | i < j && Accepted(ops, j)
        ensures InTime(ops[i].entry.ts, ops[i].entry.interval, ops[j].now) <==> !ops[i].entry.Stale(ops[j].now)
      {
        StaleIff(ops[i].entry, ops[j].now);
      }
    }
  }

  /** A rejected call leaves the dictionary and the clock's time alone; it only
      remembers the interval it was given. */
  lemma {:induction false} RejectedCallKeepsRecords<K, V>(ops: seq<Op<K, V>>, now: real, interval: Option<int>)
    requires !ClockAfter(ops).Admits(now, interval)
    ensures var s, s' := Replay(ops), Replay(ops + [Call(now, interval)]);
      && s'.bucket == s.bucket && s'.clock.last == s.clock.last
      && s'.clock.interval == interval.GetOr(s.clock.interval)
  {
    ReplaySplits(ops);
    assert (ops + [Call(now, interval)])[..|ops|] == ops;
  }

  /** Two calls at one time in a row, the second without an interval: the second
      changes nothing, and it is accepted exactly when the interval in force is
      not negative. */
  lemma SecondCallSameTime<K, V>(s: Store<K, V>, now: real, interval: Option<int>)
    requires s.clock.Admits(now, interval)
    ensures var s' := s.Access(now, interval);
      && s'.Access(now, None) == s'
      && (s'.clock.Admits(now, None) <==> s'.clock.interval >= 0)
  {
    EvictTwice(s.bucket, now);
  }

  class TimeBucket<K(==), V> {
    var bucket: map<K, Entry<V>>
    var lastTimestamp: real
    var lastInterval: int
    ghost var history: seq<Op<K, V>>

    ghost predicate Valid()
      reads this
    {
      State() == Replay(history)
    }

    ghost function State(): Store<K, V>
      reads this
    {
      Store(Clock(lastTimestamp, lastInterval), bucket)
    }

    constructor ()
      ensures Valid() && history == []
    {
      bucket, lastTimestamp, lastInterval := map[], 0.0, 0;
      history := [];
    }

    /** The loop of `_get_bucket`: every stale record goes. */
    method Sweep(timestamp: real)
      modifies this`bucket
      ensures bucket == Evict(old(bucket), timestamp)
    {
      var todo := bucket.Keys;
      while todo != {}
        invariant todo <= bucket.Keys
        invariant bucket.Keys == (set k | k in old(bucket) && (k in todo || !old(bucket)[k].Stale(timestamp)))
        invariant forall k :: k in bucket ==> bucket[k] == old(bucket)[k]
        decreases todo
      {
        var k :| k in todo;
        if bucket[k].ts < timestamp - Slack(bucket[k].interval) as real {
          bucket := bucket - {k};
        }
        todo := todo - {k};
      }
    }

    /** `_get_bucket` and `get_data`; None is the ValueError of a call that comes too late. */
    method GetData(timestamp: real, interval: Option<int>) returns (r: Option<DictFacade<K, V>>)
      requires Valid()
      modifies this
      ensures Valid() && history == old(history) + [Call(timestamp, interval)]
      ensures State() == old(State()).Access(timestamp, interval)
      ensures r.Some? <==> old(State()).clock.Admits(timestamp, interval)
      ensures r.Some? ==> fresh(r.value) && r.value.dictionary == this
                          && r.value.timestamp == timestamp && r.value.interval == interval
    {
      history := history + [Call(timestamp, interval)];
      assert history[..|history| - 1] == old(history);
      if interval.Some? {
        lastInterval := interval.value;
      }
      var oldestToAccept := Slack(lastInterval);
      if lastInterval != 0 && Trunc(timestamp) < Trunc(lastTimestamp) - oldestToAccept {
        return None;
      }
      Sweep(timestamp);
      lastTimestamp := timestamp;
      var facade := new DictFacade(timestamp, interval, this);
      return Some(facade);
    }

    /** The view through which it wrote, or None when the call came too late. */
    method Put(timestamp: real, interval: int, key: K, data: V) returns (r: Option<DictFacade<K, V>>)
      requires Valid()
      modifies this
      ensures Valid()
      ensures (State(), r.Some?) == old(State()).Put(timestamp, interval, key, data)
      ensures history == old(history) + [Call(timestamp, Some(interval))]
                         + (if r.Some? then [Write(key, Entry(timestamp, interval, data))] else [])
      ensures r.Some? ==> fresh(r.value) && r.value.dictionary == this
                          && r.value.timestamp == timestamp && r.value.interval == Some(interval)
    {
      r := GetData(timestamp, Some(interval));
      if r.Some? {
        r.value.SetItem(key, data);
      }
    }

    /** Outer None: the call was rejected. Inner None: no such key. */
    method Get(currentTime: real, key: K, interval: Option<int>) returns (r: Option<Option<V>>)
      requires Valid()
      modifies this
      ensures Valid() && history == old(history) + [Call(currentTime, interval)]
      ensures r.Some? <==> old(State()).clock.Admits(currentTime, interval)
      ensures r.Some? ==> r.value == if key in bucket then Some(bucket[key].value) else None
    {
      var facade := GetData(currentTime, interval);
      if facade.None? {
        return None;
      }
      return Some(facade.value.Get(key));
    }
  }

  /** A view of the very dictionary the bucket owns, stamping what is written through it. */
  class DictFacade<K(==), V> {
    const timestamp: real
    const interval: Option<int>
    const dictionary: TimeBucket<K, V>

    constructor (timestamp: real, interval: Option<int>, dictionary: TimeBucket<K, V>)
      ensures this.timestamp == timestamp && this.interval == interval && this.dictionary == dictionary
    {
      this.timestamp, this.interval, this.dictionary := timestamp, interval, dictionary;
    }

    function Get(key: K): Option<V>
      reads dictionary
    {
      if key in dictionary.bucket then Some(dictionary.bucket[key].value) else None
    }

    /** Writing without an interval would make the next call on the bucket fail
        with a TypeError, so an interval is demanded. */
    method SetItem(key: K, value: V)
      requires dictionary.Valid() && interval.Some?
      modifies dictionary
      ensures dictionary.Valid()
      ensures dictionary.history == old(dictionary.history) + [Write(key, Entry(timestamp, interval.value, value))]
      ensures dictionary.State() == old(dictionary.State()).Write(key, Entry(timestamp, interval.value, value))
    {
      var e := Entry(timestamp, interval.value, value);
      dictionary.bucket := dictionary.bucket[key := e];
      dictionary.history := dictionary.history + [Write(key, e)];
      assert dictionary.history[..|dictionary.history| - 1] == old(dictionary.history);
    }
  }
}
