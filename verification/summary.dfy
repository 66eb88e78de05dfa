/** What `summarize` yields, said about sets of live records. */
module SummaryRows {
  import opened Wrappers
  import opened Protocol
  import opened Summation
  import opened Translation
  import opened Expiry
  import opened Buckets
  import opened Grouping
  import opened Aggregation
  import opened RecordInvariant

  /** The keys of a bucket that fall into a group. */
  ghost function Members(b: Bucket, p: Group): set<Key> {
    set k | k in b && GroupOf(if p.Program? then ByProgram else ByHost, k) == p
  }

  /** The sum of field `i` over a set of records, in no particular order. */
  ghost function Total(b: Bucket, s: set<Key>, i: nat): int
    requires s <= b.Keys
  {
    if s == {} then 0
    else
      var k :| k in s;
      Element(b[k].value, i) + Total(b, s - {k}, i)
  }

  lemma {:induction false} TotalRemove(b: Bucket, s: set<Key>, i: nat, k: Key)
    requires s <= b.Keys && k in s
    ensures Total(b, s, i) == Element(b[k].value, i) + Total(b, s - {k}, i)
  {
    var x :| x in s && Total(b, s, i) == Element(b[x].value, i) + Total(b, s - {x}, i);
    if x != k {
      TotalRemove(b, s - {x}, i, k);
      TotalRemove(b, s - {k}, i, x);
      assert s - {x} - {k} == s - {k} - {x};
    }
  }

  /** Field `i` is present in every record of the set. */
  ghost predicate HasField(b: Bucket, s: set<Key>, i: nat)
    requires s <= b.Keys
  {
    forall k :: k in s ==> i < |b[k].value.values|
  }

  lemma {:induction false} ElementSumIsTotal(b: Bucket, g: seq<Key>, s: set<Key>, i: nat)
    requires Ascending(g) && s <= b.Keys && forall k :: k in g <==> k in s
    ensures ElementSum(Records(b, g), i) == Total(b, s, i)
  {
    if g == [] {
      assert s == {} by {
        forall k ensures k !in s { assert k !in g; }
      }
    } else {
      var rest := s - {g[0]};
      assert g[0] in g;
      forall k ensures k in g[1..] <==> k in rest {
        if k in rest {
          var j :| 0 <= j < |g| && g[j] == k;
          assert g[1..][j - 1] == k;
        }
      }
      ElementSumIsTotal(b, g[1..], rest, i);
      TotalRemove(b, s, i, g[0]);
      assert Records(b, g)[1..] == Records(b, g[1..]);
    }
  }

  /** The least key of a set, in the order of `sorted`. */
  ghost predicate First(s: set<Key>, k: Key) {
    k in s && forall x :: x in s ==> Leq(k, x)
  }

  /** The plugin all the records name, None when two differ. */
  ghost predicate PluginAgreed(b: Bucket, s: set<Key>, plugin: Option<string>)
    requires s <= b.Keys
  {
    if forall x, y :: x in s && y in s ==> b[x].value.plugin == b[y].value.plugin
    then forall x :: x in s ==> plugin == b[x].value.plugin
    else plugin == None
  }

  function ProgramLabel(p: Group): string {
    if p.Program? then p.program else "host"
  }

  /** What an aggregated record says about its group. */
  ghost predicate IsRowOf(b: Bucket, kind: Kind, p: Group, now: real, r: Msg) {
    && r.host == Some(p.host)
    && r.pluginInstance == Some(ProgramLabel(p))
    && r.typeName == Some(kind.Spec().name)
    && r.time == Some(now)
    && (forall i: nat :: i < |r.values| <==> HasField(b, Members(b, p), i))
    && (forall i: nat :: i < |r.values| ==> r.values[i] == Total(b, Members(b, p), i))
    && (forall k :: First(Members(b, p), k) ==> r.interval == b[k].value.interval)
    && PluginAgreed(b, Members(b, p), r.plugin)
  }

  lemma RecordIn(b: Bucket, g: seq<Key>, v: Msg)
    requires Listed(b, g)
    ensures v in Records(b, g) <==> exists k :: k in g && b[k].value == v
  {
    var recs := Records(b, g);
    if v in recs {
      var i :| 0 <= i < |recs| && recs[i] == v;
      assert g[i] in g;
    }
    if k :| k in g && b[k].value == v {
      var i :| 0 <= i < |g| && g[i] == k;
      assert recs[i] == v;
    }
  }

  lemma {:induction false} RowVector(b: Bucket, scope: Scope, g: seq<Key>, p: Group, now: real)
    requires Listed(b, g) && IsGroup(scope, b.Keys, g, p) && (scope.ByProgram? <==> p.Program?)
    ensures var r := Row(b, scope, g, now);
      && (forall i: nat :: i < |r.values| <==> HasField(b, Members(b, p), i))
      && (forall i: nat :: i < |r.values| ==> r.values[i] == Total(b, Members(b, p), i))
  {
    var recs, s, r := Records(b, g), Members(b, p), Row(b, scope, g, now);
    SumIsSumOf(recs);
    assert forall k :: k in g <==> k in s;
    forall i: nat ensures i < |r.values| <==> HasField(b, s, i) {
      if i < |r.values| {
        forall k | k in s ensures i < |b[k].value.values| {
          RecordIn(b, g, b[k].value);
          assert b[k].value in recs;
        }
      } else {
        var v :| v in recs && |r.values| == |v.values|;
        RecordIn(b, g, v);
        var k :| k in g && b[k].value == v;
        assert k in s;
      }
    }
    forall i: nat | i < |r.values| ensures r.values[i] == Total(b, s, i) {
      ElementSumIsTotal(b, g, s, i);
    }
  }

  lemma AgreedOn<T(!new)>(vs: seq<Msg>, f: Msg -> Option<T>, r: Option<T>, x: T)
    requires vs != [] && IsAgreed(vs, f, r) && forall v :: v in vs ==> f(v) == Some(x)
    ensures r == Some(x)
  {
    assert vs[0] in vs;
  }

  lemma RowLabels(b: Bucket, kind: Kind, scope: Scope, g: seq<Key>, p: Group, now: real)
    requires BucketMatches(kind, b)
    requires Listed(b, g) && IsGroup(scope, b.Keys, g, p) && (scope.ByProgram? <==> p.Program?)
    ensures var r := Row(b, scope, g, now);
      && r.host == Some(p.host) && r.pluginInstance == Some(ProgramLabel(p))
      && r.typeName == Some(kind.Spec().name) && r.time == Some(now)
  {
    var recs := Records(b, g);
    SumIsSumOf(recs);
    forall v | v in recs
      ensures v.host == Some(p.host) && v.typeName == Some(kind.Spec().name)
      ensures p.Program? ==> v.pluginInstance == Some(p.program)
    {
      RecordIn(b, g, v);
      var k :| k in g && b[k].value == v;
      assert Matches(kind, k, b[k]);
    }
    AgreedOn(recs, HostOf, Sum(recs).host, p.host);
    AgreedOn(recs, TypeNameOf, Sum(recs).typeName, kind.Spec().name);
    if p.Program? {
      AgreedOn(recs, PluginInstanceOf, Sum(recs).pluginInstance, p.program);
    }
  }

  lemma RowInterval(b: Bucket, scope: Scope, g: seq<Key>, p: Group, now: real, k: Key)
    requires Listed(b, g) && IsGroup(scope, b.Keys, g, p) && (scope.ByProgram? <==> p.Program?)
    requires First(Members(b, p), k)
    ensures Row(b, scope, g, now).interval == b[k].value.interval
  {
    assert g[0] in g && g[0] in Members(b, p);
    assert k in g;
    var j :| 0 <= j < |g| && g[j] == k;
    LeqTotal(k, g[0]);
  }

  lemma RowPlugin(b: Bucket, scope: Scope, g: seq<Key>, p: Group, now: real)
    requires Listed(b, g) && IsGroup(scope, b.Keys, g, p) && (scope.ByProgram? <==> p.Program?)
    ensures PluginAgreed(b, Members(b, p), Row(b, scope, g, now).plugin)
  {
    var recs, s := Records(b, g), Members(b, p);
    SumIsSumOf(recs);
    assert forall k :: k in g <==> k in s;
    forall k | k in s ensures b[k].value in recs {
      RecordIn(b, g, b[k].value);
    }
    if forall x, y :: x in s && y in s ==> b[x].value.plugin == b[y].value.plugin {
      forall v, w | v in recs && w in recs ensures v.plugin == w.plugin {
        RecordIn(b, g, v);
        RecordIn(b, g, w);
      }
      assert Uniform(recs, PluginOf);
      assert recs[0] in recs;
    } else {
      var x, y :| x in s && y in s && b[x].value.plugin != b[y].value.plugin;
      assert PluginOf(b[x].value) != PluginOf(b[y].value);
      assert !Uniform(recs, PluginOf);
    }
  }

  lemma RowExact(b: Bucket, kind: Kind, scope: Scope, g: seq<Key>, p: Group, now: real)
    requires BucketMatches(kind, b)
    requires Listed(b, g) && IsGroup(scope, b.Keys, g, p) && (scope.ByProgram? <==> p.Program?)
    ensures IsRowOf(b, kind, p, now, Row(b, scope, g, now))
  {
    RowVector(b, scope, g, p, now);
    RowLabels(b, kind, scope, g, p, now);
    RowPlugin(b, scope, g, p, now);
    forall k | First(Members(b, p), k) ensures Row(b, scope, g, now).interval == b[k].value.interval {
      RowInterval(b, scope, g, p, now, k);
    }
  }

  // ----- The translator never fails on what the buckets hold -----

  lemma {:induction false} EmitFinishes(rows: seq<Msg>, kind: Kind)
    requires forall r :: r in rows ==> r.typeName == Some(kind.Spec().name)
    ensures Emit(rows).ending.Finished?
  {
    if rows != [] {
      ReceivedTypeIsFound(kind.Index());
      assert rows[0] in rows;
      EmitFinishes(rows[1..], kind);
    }
  }

  lemma GroupsExact(b: Bucket, kind: Kind, scope: Scope, a: nat, now: real)
    requires BucketMatches(kind, b) && a < |Groups(b, scope)|
    ensures var g := Groups(b, scope)[a];
      && Listed(b, g)
      && IsGroup(scope, b.Keys, g, GroupOf(scope, g[0]))
      && IsRowOf(b, kind, GroupOf(scope, g[0]), now, Row(b, scope, g, now))
  {
    GroupsOnce(scope, b.Keys);
    var g := Groups(b, scope)[a];
    RowExact(b, kind, scope, g, GroupOf(scope, g[0]), now);
  }

  lemma StatsFinish(b: Bucket, kind: Kind, scope: Scope, now: real)
    requires BucketMatches(kind, b)
    ensures Emit(Rows(b, scope, Groups(b, scope), now)).ending.Finished?
  {
    var rows := Rows(b, scope, Groups(b, scope), now);
    forall r | r in rows ensures r.typeName == Some(kind.Spec().name) {
      var a :| 0 <= a < |rows| && rows[a] == r;
      GroupsExact(b, kind, scope, a, now);
    }
    EmitFinishes(rows, kind);
  }

  /** A kind is summarized in full exactly when the call is not too late for its
      bucket and the interval last given to the bucket is not negative. */
  ghost predicate Completes(c: Clock, now: real) {
    c.Admits(now, None) && c.interval >= 0
  }

  lemma KindCompletes(s: Store<Key, Msg>, kind: Kind, now: real)
    requires BucketMatches(kind, s.bucket)
    ensures StatsOfKind(s, now).1.ending == if Completes(s.clock, now) then Finished else ValueError
  {
    var s1 := s.Access(now, None);
    assert BucketMatches(kind, s1.bucket);
    StatsFinish(s1.bucket, kind, ByProgram, now);
    if s.clock.Admits(now, None) {
      SecondCallSameTime(s, now, None);
      StatsFinish(s1.bucket, kind, ByHost, now);
    }
  }

  /** `summarize` runs to its end iff that holds of all three buckets, and when it
      does not, what stops it is a ValueError and never a KeyError. */
  lemma SummaryCompletes(s: State, now: real)
    requires RecordsMatch(s)
    ensures Summarize(s, now).1.ending ==
            if forall kind: Kind :: Completes(s.At(kind).clock, now) then Finished else ValueError
  {
    forall kind: Kind ensures StatsOfKind(s.At(kind), now).1.ending == if Completes(s.At(kind).clock, now) then Finished else ValueError {
      assert BucketMatches(kind, s.At(kind).bucket);
      KindCompletes(s.At(kind), kind, now);
    }
    assert s.At(Pool) == s.pool && s.At(Totals) == s.totals && s.At(Process) == s.process;
  }
}
