/** What the receiver's buckets hold after any run, said about the run's messages. */
module MessageHistory {
  import opened Wrappers
  import opened Protocol
  import opened Expiry
  import opened Grouping
  import opened Aggregation
  import opened RecordInvariant
  import opened SummaryRows

  const NOTHING: Effect<Key, Msg> := Effect(None, None)

  // ----- What is accepted, told from messages and summaries alone -----

  /** The clocks of the three buckets. */
  datatype Clocks = Clocks(pool: Clock, totals: Clock, process: Clock)
  {
    function At(kind: Kind): Clock {
      match kind
      case Pool => pool
      case Totals => totals
      case Process => process
    }

    function With(kind: Kind, c: Clock): Clocks {
      match kind
      case Pool => this.(pool := c)
      case Totals => this.(totals := c)
      case Process => this.(process := c)
    }
  }

  ghost predicate AcceptedByOwn(cs: Clocks, v: Message) {
    var kind := KindNamed(v.typeName);
    kind.Some? && cs.At(kind.value).Admits(v.time.value, Some(v.interval * 2))
  }

  /** The process bucket is willing to count the sender of a message its own bucket accepted. */
  ghost predicate Counted(cs: Clocks, v: Message) {
    var clock := if KindNamed(v.typeName) == Some(Process) then Clock(v.time.value, v.interval * 2) else cs.process;
    v.typeInstance.value != "" && clock.Admits(v.time.value, Some(v.interval * 5))
  }

  /** Whether a summary gets as far as the bucket of the given kind. */
  ghost predicate SummaryReaches(cs: Clocks, now: real, kind: Kind) {
    match kind
    case Pool => true
    case Totals => Completes(cs.pool, now)
    case Process => Completes(cs.pool, now) && Completes(cs.totals, now)
  }

  ghost function Tick(cs: Clocks, e: Event): Clocks {
    match e
    case Receive(v) =>
      var kind := KindNamed(v.typeName);
      if kind.None? then cs
      else
        var own := cs.With(kind.value, cs.At(kind.value).After(v.time.value, Some(v.interval * 2)));
        if !AcceptedByOwn(cs, v) || v.typeInstance.value == "" then own
        else own.With(Process, own.process.After(v.time.value, Some(v.interval * 5)))
    case Summary(now) =>
      Clocks(cs.pool.After(now, None),
             if SummaryReaches(cs, now, Totals) then cs.totals.After(now, None) else cs.totals,
             if SummaryReaches(cs, now, Process) then cs.process.After(now, None) else cs.process)
  }

  /** The clocks after a run, without a look at any record. */
  ghost function ClocksAfter(events: seq<Event>): Clocks {
    if events == [] then Clocks(INITIAL_CLOCK, INITIAL_CLOCK, INITIAL_CLOCK)
    else Tick(ClocksAfter(events[..|events| - 1]), events[|events| - 1])
  }

  ghost function ClocksOf(s: State): Clocks {
    Clocks(s.pool.clock, s.totals.clock, s.process.clock)
  }

  lemma ReceiveTicks(s: State, v: Message)
    ensures ClocksOf(SetStats(s, v).0) == Tick(ClocksOf(s), Receive(v))
  {
    var kind := KindNamed(v.typeName);
    if kind.Some? {
      var s1 := s.With(kind.value, s.At(kind.value).Put(v.time.value, v.interval * 2, KeyOf(v), v).0);
      assert ClocksOf(s1) == ClocksOf(s).With(kind.value, s.At(kind.value).clock.After(v.time.value, Some(v.interval * 2)));
    }
  }

  lemma SummaryTicks(s: State, now: real)
    requires RecordsMatch(s)
    ensures ClocksOf(Summarize(s, now).0) == Tick(ClocksOf(s), Summary(now))
  {
    forall kind: Kind
      ensures Summarize(s, now).0.At(kind).clock == Tick(ClocksOf(s), Summary(now)).At(kind)
    {
      ReachesByClocks(s, now, kind);
      SummarizeAt(s, now, kind);
      StatsOfKindEvicts(s.At(kind), now);
    }
    var s' := Summarize(s, now).0;
    assert s'.At(Pool) == s'.pool && s'.At(Totals) == s'.totals && s'.At(Process) == s'.process;
  }

  lemma ReachesByClocks(s: State, now: real, kind: Kind)
    requires RecordsMatch(s)
    ensures Reaches(s, now, kind) <==> SummaryReaches(ClocksOf(s), now, kind)
  {
    assert BucketMatches(Pool, s.At(Pool).bucket) && BucketMatches(Totals, s.At(Totals).bucket);
    KindCompletes(s.pool, Pool, now);
    KindCompletes(s.totals, Totals, now);
  }

  /** The machine's clocks are those told from its messages and summaries. */
  lemma {:induction false} RunTicks(events: seq<Event>)
    ensures ClocksOf(Run(events)) == ClocksAfter(events)
  {
    if events != [] {
      var front, e := events[..|events| - 1], events[|events| - 1];
      RunTicks(front);
      match e
      case Receive(v) => ReceiveTicks(Run(front), v);
      case Summary(now) =>
        RecordsAlwaysMatch(front);
        SummaryTicks(Run(front), now);
    }
  }

  /** What an accepted message leaves in a bucket: a count of one for five of its
      intervals where its sender is counted, and otherwise itself for two. */
  ghost function Kept(cs: Clocks, v: Message, kind: Kind): Entry<Msg> {
    if kind.Process? && Counted(cs, v) then Entry(v.time.value, v.interval * 5, Manufactured(v))
    else Entry(v.time.value, v.interval * 2, v)
  }

  ghost predicate KeptIn(cs: Clocks, v: Message, kind: Kind) {
    AcceptedByOwn(cs, v) && (Some(kind) == KindNamed(v.typeName) || (kind.Process? && Counted(cs, v)))
  }

  /** What an event does to one bucket. */
  ghost function EffectOn(cs: Clocks, e: Event, kind: Kind): Effect<Key, Msg> {
    match e
    case Receive(v) =>
      if KeptIn(cs, v, kind) then Effect(Some(v.time.value), Some((KeyOf(v), Kept(cs, v, kind)))) else NOTHING
    case Summary(now) =>
      if SummaryReaches(cs, now, kind) && cs.At(kind).Admits(now, None) then Effect(Some(now), None) else NOTHING
  }

  /** The effects of a whole run, told from its messages and summaries alone. */
  ghost function Effects(events: seq<Event>, kind: Kind): (es: seq<Effect<Key, Msg>>)
    ensures |es| == |events|
  {
    if events == [] then []
    else
      var front := events[..|events| - 1];
      Effects(front, kind) + [EffectOn(ClocksAfter(front), events[|events| - 1], kind)]
  }

  lemma {:induction false} EffectsAt(events: seq<Event>, kind: Kind, i: nat)
    requires i < |events|
    ensures Effects(events, kind)[i] == EffectOn(ClocksAfter(events[..i]), events[i], kind)
  {
    if i < |events| - 1 {
      EffectsAt(events[..|events| - 1], kind, i);
      assert events[..|events| - 1][..i] == events[..i];
    }
  }

  lemma OwnPutEffect(s: State, v: Message)
    requires AcceptedByOwn(ClocksOf(s), v)
    ensures var kind := KindNamed(v.typeName).value;
      var own := s.At(kind).Put(v.time.value, v.interval * 2, KeyOf(v), v).0;
      && own.bucket == Evict(s.At(kind).bucket, v.time.value)[KeyOf(v) := Entry(v.time.value, v.interval * 2, v)]
      && own.clock == Clock(v.time.value, v.interval * 2)
  {
  }

  lemma SweepStoreSweepStore(b: Bucket, t: real, k: Key, x: Entry<Msg>, y: Entry<Msg>)
    ensures Evict(Evict(b, t)[k := x], t)[k := y] == Evict(b, t)[k := y]
  {
  }

  lemma ReceiveEffect(s: State, v: Message, kind: Kind)
    ensures SetStats(s, v).0.At(kind).bucket == Apply(s.At(kind).bucket, EffectOn(ClocksOf(s), Receive(v), kind))
  {
    if AcceptedByOwn(ClocksOf(s), v) {
      OwnPutEffect(s, v);
      var t, k, own := v.time.value, KeyOf(v), KindNamed(v.typeName).value;
      var s1 := s.With(own, s.At(own).Put(t, v.interval * 2, k, v).0);
      assert v.typeInstance.value != "" ==> SetStats(s, v) == CountProcess(s1, v);
      SweepStoreSweepStore(s.process.bucket, t, k, Entry(t, v.interval * 2, v), Entry(t, v.interval * 5, Manufactured(v)));
      if own.Process? && !Counted(ClocksOf(s), v) {
        assert SetStats(s, v).0.process.bucket == s1.process.bucket;
      }
    }
  }

  /** A message is stored iff its own bucket takes it and, when it names a process, the
      process bucket takes it too; rejected by the latter alone, it is in its own bucket. */
  lemma OutcomeExact(s: State, v: Message)
    ensures SetStats(s, v).1.UnknownType? <==> KindNamed(v.typeName).None?
    ensures SetStats(s, v).1.Stored? <==> AcceptedByOwn(ClocksOf(s), v) && (v.typeInstance.value == "" || Counted(ClocksOf(s), v))
    ensures SetStats(s, v).1.Rejected? && AcceptedByOwn(ClocksOf(s), v) ==>
              var own := SetStats(s, v).0.At(KindNamed(v.typeName).value).bucket;
              KeyOf(v) in own && own[KeyOf(v)] == Entry(v.time.value, v.interval * 2, v)
  {
    if AcceptedByOwn(ClocksOf(s), v) {
      ReceiveEffect(s, v, KindNamed(v.typeName).value);
    }
  }

  lemma SummaryEffect(s: State, now: real, kind: Kind)
    requires RecordsMatch(s)
    ensures Summarize(s, now).0.At(kind).bucket == Apply(s.At(kind).bucket, EffectOn(ClocksOf(s), Summary(now), kind))
  {
    ReachesByClocks(s, now, kind);
    SummarizeAt(s, now, kind);
    StatsOfKindEvicts(s.At(kind), now);
  }

  lemma {:induction false} RunIsEffects(events: seq<Event>, kind: Kind)
    ensures Run(events).At(kind).bucket == ApplyAll(Effects(events, kind))
  {
    if events != [] {
      var front, e := events[..|events| - 1], events[|events| - 1];
      RunIsEffects(front, kind);
      RunTicks(front);
      assert Effects(events, kind)[..|front|] == Effects(front, kind);
      match e
      case Receive(v) => ReceiveEffect(Run(front), v, kind);
      case Summary(now) =>
        RecordsAlwaysMatch(front);
        SummaryEffect(Run(front), now, kind);
    }
  }

  /** What a stored message leaves in a bucket, as the message itself tells. */
  function HeldFor(kind: Kind, v: Message): Entry<Msg> {
    if kind.Process? && v.typeInstance.value != "" && !(KindNamed(v.typeName) == Some(Process) && v.interval < 0)
    then Entry(v.time.value, v.interval * 5, Manufactured(v))
    else Entry(v.time.value, v.interval * 2, v)
  }

  lemma KeptIsHeldFor(cs: Clocks, v: Message, kind: Kind)
    requires KeptIn(cs, v, kind)
    ensures Kept(cs, v, kind) == HeldFor(kind, v)
  {
  }

  /** Message `i` was stored under key `k`. */
  ghost predicate StoredAt(events: seq<Event>, kind: Kind, k: Key, i: int) {
    && 0 <= i < |events| && events[i].Receive? && KeyOf(events[i].v) == k
    && KeptIn(ClocksAfter(events[..i]), events[i].v, kind)
  }

  /** The bucket accepted a call at the given time. */
  ghost predicate CalledAt(events: seq<Event>, kind: Kind, j: int, now: real) {
    && 0 <= j < |events|
    && match events[j]
       case Receive(v) => KeptIn(ClocksAfter(events[..j]), v, kind) && now == v.time.value
       case Summary(t) =>
         && SummaryReaches(ClocksAfter(events[..j]), t, kind)
         && ClocksAfter(events[..j]).At(kind).Admits(t, None)
         && now == t
  }

  /** Message `i` was the last to be stored under its key, and no call the bucket
      accepted since came late enough to expire it. */
  ghost predicate LastStored(events: seq<Event>, kind: Kind, k: Key, i: int) {
    && StoredAt(events, kind, k, i)
    && (forall j :: i < j ==> !StoredAt(events, kind, k, j))
    && (forall j, now :: i < j && CalledAt(events, kind, j, now) ==> !HeldFor(kind, events[i].v).Stale(now))
  }

  lemma {:induction false} EffectTells(events: seq<Event>, kind: Kind, k: Key, i: nat)
    requires i < |events|
    ensures var f := Effects(events, kind)[i];
      && (Stores(f, k) <==> StoredAt(events, kind, k, i))
      && (Stores(f, k) ==> f.store.value.1 == HeldFor(kind, events[i].v))
      && (forall now :: f.sweep == Some(now) <==> CalledAt(events, kind, i, now))
  {
    EffectsAt(events, kind, i);
    if StoredAt(events, kind, k, i) {
      KeptIsHeldFor(ClocksAfter(events[..i]), events[i].v, kind);
    }
  }

  lemma {:induction false} LiveIsLastStored(events: seq<Event>, kind: Kind, k: Key, i: int)
    ensures Live(Effects(events, kind), i, k) <==> LastStored(events, kind, k, i)
  {
    var es := Effects(events, kind);
    forall j: nat | j < |events|
      ensures Stores(es[j], k) <==> StoredAt(events, kind, k, j)
      ensures Stores(es[j], k) ==> es[j].store.value.1 == HeldFor(kind, events[j].v)
      ensures forall now :: es[j].sweep == Some(now) <==> CalledAt(events, kind, j, now)
    {
      EffectTells(events, kind, k, j);
    }
    if Live(es, i, k) {
      var x := es[i].store.value.1;
      forall j | i < j ensures !StoredAt(events, kind, k, j) {
        assert j < |es| ==> Spares(es[j], k, x);
      }
      forall j, now | i < j && CalledAt(events, kind, j, now) ensures !x.Stale(now) {
        assert Spares(es[j], k, x);
        assert es[j].sweep == Some(now);
      }
    }
    if LastStored(events, kind, k, i) {
      forall j | i < j < |es| ensures Spares(es[j], k, es[i].store.value.1) {
        assert !StoredAt(events, kind, k, j);
        if es[j].sweep.Some? {
          assert CalledAt(events, kind, j, es[j].sweep.value);
        }
      }
    }
  }

  /** After any run, a key is in a bucket iff some message for that key was stored
      there, no later message for it was, and no call the bucket accepted since came
      late enough to expire it; and what is held is what that message left. */
  lemma {:induction false} BucketHoldsLastMessages(events: seq<Event>, kind: Kind, k: Key)
    ensures k in Run(events).At(kind).bucket <==> exists i :: LastStored(events, kind, k, i)
    ensures forall i :: LastStored(events, kind, k, i) ==>
                          k in Run(events).At(kind).bucket && Run(events).At(kind).bucket[k] == HeldFor(kind, events[i].v)
  {
    var es := Effects(events, kind);
    RunIsEffects(events, kind);
    PresentIffLive(es, k);
    if k in Run(events).At(kind).bucket {
      var i :| Live(es, i, k);
      LiveIsLastStored(events, kind, k, i);
      assert LastStored(events, kind, k, i);
    }
    forall i | LastStored(events, kind, k, i)
      ensures k in Run(events).At(kind).bucket && Run(events).At(kind).bucket[k] == HeldFor(kind, events[i].v)
    {
      LiveIsLastStored(events, kind, k, i);
      EffectTells(events, kind, k, i);
    }
  }

  // ----- The same in plain numbers -----

  /** For how many seconds a message is good in a bucket: 12/5 of its interval, rounded
      down, or six intervals where it counts its sender. */
  function GoodFor(kind: Kind, v: Message): int {
    if kind.Process? && v.typeInstance.value != "" then 6 * v.interval else 12 * v.interval / 5
  }

  /** Message `i` was the last stored under its key, and every call the bucket accepted
      since came while it was good, its last second included. */
  ghost predicate StillGood(events: seq<Event>, kind: Kind, k: Key, i: int) {
    && StoredAt(events, kind, k, i)
    && (forall j :: i < j ==> !StoredAt(events, kind, k, j))
    && (forall j, now :: i < j && CalledAt(events, kind, j, now) ==>
                           now <= events[i].v.time.value + GoodFor(kind, events[i].v) as real)
  }

  lemma StillGoodIff(events: seq<Event>, kind: Kind, k: Key, i: int)
    requires forall e :: e in events && e.Receive? ==> e.v.interval >= 0
    ensures StillGood(events, kind, k, i) <==> LastStored(events, kind, k, i)
  {
    if StoredAt(events, kind, k, i) {
      assert events[i] in events;
      var v := events[i].v;
      forall now ensures now <= v.time.value + GoodFor(kind, v) as real <==> !HeldFor(kind, v).Stale(now) {
        StaleIff(HeldFor(kind, v), now);
      }
    }
  }

  /** After any run of messages without negative intervals, a key is in a bucket iff the
      last message stored under it is still good. */
  lemma {:induction false} HeldWhileGood(events: seq<Event>, kind: Kind, k: Key)
    requires forall e :: e in events && e.Receive? ==> e.v.interval >= 0
    ensures k in Run(events).At(kind).bucket <==> exists i :: StillGood(events, kind, k, i)
  {
    BucketHoldsLastMessages(events, kind, k);
    forall i ensures StillGood(events, kind, k, i) <==> LastStored(events, kind, k, i) {
      StillGoodIff(events, kind, k, i);
    }
    if k in Run(events).At(kind).bucket {
      var i :| LastStored(events, kind, k, i);
      assert StillGood(events, kind, k, i);
    }
  }

  /** What a record in the process bucket keeps of the message it was made of: all but
      the type and the vector. */
  lemma {:induction false} ProcessRecordKeeps(events: seq<Event>, k: Key, i: int)
    requires LastStored(events, Process, k, i)
    requires events[i].v.typeInstance.value != ""
    requires events[i].v.typeName == Some("sqlalchemy_process") ==> events[i].v.interval >= 0
    ensures k in Run(events).process.bucket
    ensures var r, v := Run(events).process.bucket[k].value, events[i].v;
      && r.typeName == Some("sqlalchemy_process") && r.values == [1]
      && r.host == v.host && r.plugin == v.plugin && r.pluginInstance == v.pluginInstance
      && r.typeInstance == v.typeInstance && r.time == v.time && r.interval == v.interval
  {
    BucketHoldsLastMessages(events, Process, k);
  }
}
