/** What is true of every record in every reachable state of the receiver. */
module RecordInvariant {
  import opened Wrappers
  import opened Protocol
  import opened Expiry
  import opened Buckets
  import opened Grouping
  import opened Aggregation

  // ----- Every record agrees with its key and with its bucket -----

  ghost predicate Matches(kind: Kind, k: Key, e: Entry<Msg>) {
    && e.value.host == Some(k.host)
    && e.value.pluginInstance == Some(k.program)
    && e.value.typeInstance == Some(k.token)
    && e.value.typeName == Some(kind.Spec().name)
    && e.value.time == Some(e.ts)
    && (|| e.interval == 2 * e.value.interval
        || (kind.Process? && k.token != "" && e.interval == 5 * e.value.interval && e.value.values == [1]))
  }

  ghost predicate BucketMatches(kind: Kind, b: Bucket) {
    forall k :: k in b ==> Matches(kind, k, b[k])
  }

  ghost predicate RecordsMatch(s: State) {
    forall kind: Kind :: BucketMatches(kind, s.At(kind).bucket)
  }

  /** A message goes to the bucket of its type's name, and to none under any other name. */
  lemma BucketByName(name: Option<string>)
    ensures KindNamed(name) == Some(Pool) <==> name == Some("sqlalchemy_pool")
    ensures KindNamed(name) == Some(Totals) <==> name == Some("sqlalchemy_totals")
    ensures KindNamed(name) == Some(Process) <==> name == Some("sqlalchemy_process")
  {
    assert |"sqlalchemy_pool"| == 15 && |"sqlalchemy_totals"| == 17 && |"sqlalchemy_process"| == 18;
  }

  lemma KindNames(v: Message)
    ensures var kind := KindNamed(v.typeName);
      kind.Some? ==> v.typeName == Some(kind.value.Spec().name)
  {
  }

  lemma PutKeepsMatch(kind: Kind, s: Store<Key, Msg>, now: real, interval: int, k: Key, v: Msg)
    requires BucketMatches(kind, s.bucket) && Matches(kind, k, Entry(now, interval, v))
    ensures BucketMatches(kind, s.Put(now, interval, k, v).0.bucket)
  {
  }

  lemma SetStatsKeepsMatch(s: State, v: Message)
    requires RecordsMatch(s)
    ensures RecordsMatch(SetStats(s, v).0)
  {
    var found := KindNamed(v.typeName);
    if found.Some? {
      KindNames(v);
      assert BucketMatches(found.value, s.At(found.value).bucket);
      PutKeepsMatch(found.value, s.At(found.value), v.time.value, v.interval * 2, KeyOf(v), v);
      var (own, ok) := s.At(found.value).Put(v.time.value, v.interval * 2, KeyOf(v), v);
      var s1 := s.With(found.value, own);
      assert forall kind: Kind :: kind != found.value ==> s1.At(kind) == s.At(kind);
      assert RecordsMatch(s1);
      if ok && v.typeInstance.value != "" {
        CountProcessKeepsMatch(s1, v);
      }
    }
  }

  lemma CountProcessKeepsMatch(s: State, v: Message)
    requires RecordsMatch(s) && v.typeInstance.value != ""
    ensures RecordsMatch(CountProcess(s, v).0)
  {
    assert BucketMatches(Process, s.At(Process).bucket);
    PutKeepsMatch(Process, s.process, v.time.value, v.interval * 5, KeyOf(v), Manufactured(v));
    var s' := CountProcess(s, v).0;
    assert forall kind: Kind :: kind != Process ==> s'.At(kind) == s.At(kind);
  }

  lemma StatsOfKindEvicts(s: Store<Key, Msg>, now: real)
    ensures var s' := StatsOfKind(s, now).0;
      && s'.bucket == (if s.clock.Admits(now, None) then Evict(s.bucket, now) else s.bucket)
      && s'.clock == s.clock.After(now, None)
  {
    EvictTwice(s.bucket, now);
  }

  /** Whether a summary gets as far as the bucket of the given kind. */
  ghost predicate Reaches(s: State, now: real, kind: Kind) {
    match kind
    case Pool => true
    case Totals => StatsOfKind(s.pool, now).1.ending.Finished?
    case Process => StatsOfKind(s.pool, now).1.ending.Finished? && StatsOfKind(s.totals, now).1.ending.Finished?
  }

  lemma SummarizeAt(s: State, now: real, kind: Kind)
    ensures Summarize(s, now).0.At(kind) == if Reaches(s, now, kind) then StatsOfKind(s.At(kind), now).0 else s.At(kind)
  {
  }

  lemma SummarizeKeepsMatch(s: State, now: real)
    requires RecordsMatch(s)
    ensures RecordsMatch(Summarize(s, now).0)
  {
    forall kind: Kind ensures BucketMatches(kind, Summarize(s, now).0.At(kind).bucket) {
      assert BucketMatches(kind, s.At(kind).bucket);
      StatsOfKindEvicts(s.At(kind), now);
      SummarizeAt(s, now, kind);
    }
  }

  lemma AdvanceKeepsMatch(s: State, e: Event)
    requires RecordsMatch(s)
    ensures RecordsMatch(Advance(s, e))
  {
    match e
    case Receive(v) => SetStatsKeepsMatch(s, v);
    case Summary(now) => SummarizeKeepsMatch(s, now);
  }

  /** In every reachable state a record's host, program, token and type are those of
      its key and bucket, and its stamp and life span come from its own message. */
  lemma {:induction false} RecordsAlwaysMatch(events: seq<Event>)
    ensures RecordsMatch(Run(events))
  {
    if events != [] {
      RecordsAlwaysMatch(events[..|events| - 1]);
      AdvanceKeepsMatch(Run(events[..|events| - 1]), events[|events| - 1]);
    }
  }
}
