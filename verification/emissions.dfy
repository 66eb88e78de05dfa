/** The output of `summarize`, listed against what it ought to contain. */
module Emissions {
  import opened Wrappers
  import opened Protocol
  import opened Translation
  import opened Expiry
  import opened Buckets
  import opened Grouping
  import opened Aggregation
  import opened RecordInvariant
  import opened SummaryRows
  import opened MessageHistory

  /** Where one external value comes from. */
  datatype Origin = Origin(kind: Kind, group: Group, field: nat)

  ghost function LiveMembers(s: State, o: Origin): set<Key> {
    Members(s.At(o.kind).bucket, o.group)
  }

  /** A value is due for each group with a live record, and each field that the type
      names and all the group's records have. */
  ghost predicate Due(s: State, o: Origin) {
    && LiveMembers(s, o) != {}
    && o.field < |o.kind.Spec().fields|
    && HasField(s.At(o.kind).bucket, LiveMembers(s, o), o.field)
  }

  /** The value that is due: the sum of the field over the live records of the group,
      with the interval of the first of them in sorted order. */
  ghost predicate IsEmission(s: State, now: real, o: Origin, v: Msg)
    requires o.field < |o.kind.Spec().fields|
  {
    var f := o.kind.Spec().fields[o.field];
    && v.host == Some(o.group.host)
    && v.pluginInstance == Some(ProgramLabel(o.group))
    && v.typeInstance == Some(f.name)
    && v.typeName == ExternalTypeName(f.dsType)
    && v.time == Some(now)
    && v.values == [Total(s.At(o.kind).bucket, LiveMembers(s, o), o.field)]
    && (forall k :: First(LiveMembers(s, o), k) ==> v.interval == s.At(o.kind).bucket[k].value.interval)
    && PluginAgreed(s.At(o.kind).bucket, LiveMembers(s, o), v.plugin)
  }

  ghost predicate Annotates(s: State, now: real, os: seq<Origin>, out: seq<Msg>) {
    && |os| == |out|
    && forall n :: 0 <= n < |os| ==> Due(s, os[n]) && IsEmission(s, now, os[n], out[n])
  }

  ghost predicate NoRepeats<T(!new)>(xs: seq<T>) {
    forall i, j :: 0 <= i < j < |xs| ==> xs[i] != xs[j]
  }

  /** Pool, totals, process; programs before hosts; groups in order; fields as declared. */
  ghost predicate Before(o: Origin, o': Origin) {
    if o.kind != o'.kind then o.kind.Index() < o'.kind.Index()
    else if o.group.Program? != o'.group.Program? then o.group.Program?
    else if o.group != o'.group then GroupLess(o.group, o'.group)
    else o.field < o'.field
  }

  ghost predicate InOrder(os: seq<Origin>) {
    forall a, b :: 0 <= a < b < |os| ==> Before(os[a], os[b])
  }

  lemma InOrderConcat(os: seq<Origin>, os': seq<Origin>)
    requires InOrder(os) && InOrder(os') && forall o, o' :: o in os && o' in os' ==> Before(o, o')
    ensures InOrder(os + os')
  {
    var all := os + os';
    forall a, b | 0 <= a < b < |all| ensures Before(all[a], all[b]) {
      assert a < |os| ==> all[a] in os;
      assert |os| <= b ==> all[b] in os';
    }
  }

  ghost predicate InSection(kind: Kind, scope: Scope, o: Origin) {
    o.kind == kind && (scope.ByProgram? <==> o.group.Program?)
  }

  lemma AnnotatesConcat(s: State, now: real, os: seq<Origin>, out: seq<Msg>, os': seq<Origin>, out': seq<Msg>)
    requires Annotates(s, now, os, out) && Annotates(s, now, os', out')
    ensures Annotates(s, now, os + os', out + out')
  {
  }

  lemma NoRepeatsConcat<T(!new)>(xs: seq<T>, ys: seq<T>)
    requires NoRepeats(xs) && NoRepeats(ys) && forall x :: x in xs ==> x !in ys
    ensures NoRepeats(xs + ys)
  {
    var zs := xs + ys;
    forall i, j | 0 <= i < j < |zs| ensures zs[i] != zs[j] {
      assert i < |xs| ==> zs[i] in xs;
      assert |xs| <= j ==> zs[j] in ys;
    }
  }

  // ----- One row -----

  ghost function RowOrigins(kind: Kind, p: Group, n: nat): (os: seq<Origin>)
    ensures |os| == n && NoRepeats(os) && InOrder(os)
    ensures forall o :: o in os <==> o.kind == kind && o.group == p && o.field < n
  {
    var os := seq(n, (i: nat) => Origin(kind, p, i));
    assert forall i: nat :: i < n ==> os[i] == Origin(kind, p, i);
    assert forall o: Origin :: o.kind == kind && o.group == p && o.field < n ==> o == os[o.field];
    os
  }

  lemma RowDue(s: State, now: real, kind: Kind, p: Group, r: Msg, i: nat)
    requires IsRowOf(s.At(kind).bucket, kind, p, now, r)
    requires Members(s.At(kind).bucket, p) != {}
    ensures Due(s, Origin(kind, p, i)) <==> i < Width(kind.Spec().fields, r)
  {
  }

  lemma {:induction false} RowEmission(s: State, now: real, kind: Kind, p: Group, r: Msg, i: nat)
    requires IsRowOf(s.At(kind).bucket, kind, p, now, r)
    requires Translatable(kind.Spec()) && i < Width(kind.Spec().fields, r)
    ensures |Split(kind.Spec().fields, r, 0)| == Width(kind.Spec().fields, r)
    ensures IsEmission(s, now, Origin(kind, p, i), Split(kind.Spec().fields, r, 0)[i])
  {
    SplitField(kind.Spec().fields, r, i);
    assert r.values[i] == Total(s.At(kind).bucket, Members(s.At(kind).bucket, p), i);
  }

  lemma {:induction false} RowAnnotated(s: State, now: real, kind: Kind, p: Group, r: Msg)
    requires IsRowOf(s.At(kind).bucket, kind, p, now, r)
    requires Members(s.At(kind).bucket, p) != {}
    requires Translatable(kind.Spec())
    ensures var fields := kind.Spec().fields;
      && Annotates(s, now, RowOrigins(kind, p, Width(fields, r)), Split(fields, r, 0))
      && forall o :: o in RowOrigins(kind, p, Width(fields, r)) <==> Due(s, o) && o.kind == kind && o.group == p
  {
    var n := Width(kind.Spec().fields, r);
    SplitAt(kind.Spec().fields, r, 0);
    forall i: nat ensures Due(s, Origin(kind, p, i)) <==> i < n {
      RowDue(s, now, kind, p, r, i);
    }
    forall i | 0 <= i < n
      ensures IsEmission(s, now, RowOrigins(kind, p, n)[i], Split(kind.Spec().fields, r, 0)[i])
    {
      RowEmission(s, now, kind, p, r, i);
    }
    forall o ensures o in RowOrigins(kind, p, n) <==> Due(s, o) && o.kind == kind && o.group == p {
      assert o.kind == kind && o.group == p ==> o == Origin(kind, p, o.field);
    }
  }

  // ----- One kind and scope -----

  ghost function SectionOrigins(kind: Kind, ps: seq<Group>, rows: seq<Msg>): seq<Origin>
    requires |ps| == |rows|
  {
    if ps == [] then []
    else RowOrigins(kind, ps[0], Width(kind.Spec().fields, rows[0])) + SectionOrigins(kind, ps[1..], rows[1..])
  }

  ghost predicate RowsOf(s: State, kind: Kind, ps: seq<Group>, rows: seq<Msg>, now: real) {
    && |ps| == |rows|
    && forall a :: 0 <= a < |ps| ==>
                     IsRowOf(s.At(kind).bucket, kind, ps[a], now, rows[a]) && Members(s.At(kind).bucket, ps[a]) != {}
  }

  ghost predicate GroupsOrdered(ps: seq<Group>) {
    forall a, b :: 0 <= a < b < |ps| ==> GroupLess(ps[a], ps[b])
  }

  lemma {:induction false} SectionInOrder(kind: Kind, ps: seq<Group>, rows: seq<Msg>)
    requires |ps| == |rows| && GroupsOrdered(ps)
    ensures InOrder(SectionOrigins(kind, ps, rows))
    ensures forall o :: o in SectionOrigins(kind, ps, rows) ==> o.kind == kind && o.group in ps
    decreases |ps|
  {
    if ps != [] {
      SectionInOrder(kind, ps[1..], rows[1..]);
      InOrderConcat(RowOrigins(kind, ps[0], Width(kind.Spec().fields, rows[0])), SectionOrigins(kind, ps[1..], rows[1..]));
    }
  }

  lemma {:induction false} SectionAnnotated(s: State, now: real, kind: Kind, ps: seq<Group>, rows: seq<Msg>)
    requires RowsOf(s, kind, ps, rows, now) && NoRepeats(ps)
    ensures var os := SectionOrigins(kind, ps, rows);
      && Emit(rows).ending.Finished?
      && Annotates(s, now, os, Emit(rows).out)
      && NoRepeats(os)
      && forall o :: o in os <==> Due(s, o) && o.kind == kind && o.group in ps
    decreases |ps|
  {
    if ps != [] {
      ReceivedTypeIsFound(kind.Index());
      SectionAnnotated(s, now, kind, ps[1..], rows[1..]);
      RowAnnotated(s, now, kind, ps[0], rows[0]);
      var first := RowOrigins(kind, ps[0], Width(kind.Spec().fields, rows[0]));
      var rest := SectionOrigins(kind, ps[1..], rows[1..]);
      AnnotatesConcat(s, now, first, Split(kind.Spec().fields, rows[0], 0), rest, Emit(rows[1..]).out);
      assert ps[0] !in ps[1..];
      NoRepeatsConcat(first, rest);
      assert forall p :: p in ps <==> p == ps[0] || p in ps[1..];
    }
  }

  ghost function GroupsSeen(b: Bucket, scope: Scope): (ps: seq<Group>)
    ensures |ps| == |Groups(b, scope)|
  {
    var groups := Groups(b, scope);
    seq(|groups|, a requires 0 <= a < |groups| => GroupOf(scope, groups[a][0]))
  }

  lemma SeenIsLive(b: Bucket, scope: Scope, a: nat)
    requires a < |Groups(b, scope)|
    ensures var p := GroupsSeen(b, scope)[a]; Members(b, p) != {} && (scope.ByProgram? <==> p.Program?)
  {
    var g := Groups(b, scope)[a];
    assert Listed(b, g);
    assert g[0] in g;
    assert g[0] in Members(b, GroupOf(scope, g[0]));
  }

  lemma LiveIsSeen(b: Bucket, scope: Scope, k: Key)
    requires k in b
    ensures GroupOf(scope, k) in GroupsSeen(b, scope)
  {
    var groups, ps := Groups(b, scope), GroupsSeen(b, scope);
    GroupsOnce(scope, b.Keys);
    var a :| 0 <= a < |groups| && k in groups[a];
    assert IsGroup(scope, b.Keys, groups[a], GroupOf(scope, groups[a][0]));
    assert ps[a] == GroupOf(scope, k);
  }

  lemma SeenIffLive(b: Bucket, scope: Scope, p: Group)
    ensures p in GroupsSeen(b, scope) <==> Members(b, p) != {} && (scope.ByProgram? <==> p.Program?)
  {
    var ps := GroupsSeen(b, scope);
    if p in ps {
      var a :| 0 <= a < |ps| && ps[a] == p;
      SeenIsLive(b, scope, a);
    }
    if Members(b, p) != {} && (scope.ByProgram? <==> p.Program?) {
      var k :| k in Members(b, p);
      LiveIsSeen(b, scope, k);
    }
  }

  lemma SeenOnce(b: Bucket, scope: Scope)
    ensures NoRepeats(GroupsSeen(b, scope))
  {
    GroupsOnce(scope, b.Keys);
    var groups, ps := Groups(b, scope), GroupsSeen(b, scope);
    forall i, j | 0 <= i < j < |ps| ensures ps[i] != ps[j] {
      assert GroupOf(scope, groups[i][0]) != GroupOf(scope, groups[j][0]);
    }
  }

  lemma SeenInOrder(b: Bucket, scope: Scope)
    ensures GroupsOrdered(GroupsSeen(b, scope))
  {
    var ps := GroupsSeen(b, scope);
    forall i, j | 0 <= i < j < |ps| ensures GroupLess(ps[i], ps[j]) {
      GroupsInOrder(scope, b.Keys, i, j);
    }
  }

  lemma SectionExact(s: State, now: real, kind: Kind, scope: Scope) returns (os: seq<Origin>)
    requires BucketMatches(kind, s.At(kind).bucket)
    ensures var b := s.At(kind).bucket;
      Annotates(s, now, os, Emit(Rows(b, scope, Groups(b, scope), now)).out)
    ensures NoRepeats(os) && InOrder(os)
    ensures forall o :: o in os <==> Due(s, o) && InSection(kind, scope, o)
  {
    var b := s.At(kind).bucket;
    var ps, rows := GroupsSeen(b, scope), Rows(b, scope, Groups(b, scope), now);
    SeenOnce(b, scope);
    forall p ensures p in ps <==> Members(b, p) != {} && (scope.ByProgram? <==> p.Program?) {
      SeenIffLive(b, scope, p);
    }
    forall a | 0 <= a < |ps| ensures IsRowOf(b, kind, ps[a], now, rows[a]) && Members(b, ps[a]) != {} {
      GroupsExact(b, kind, scope, a, now);
      assert ps[a] in ps;
    }
    SectionAnnotated(s, now, kind, ps, rows);
    SeenInOrder(b, scope);
    SectionInOrder(kind, ps, rows);
    os := SectionOrigins(kind, ps, rows);
  }

  // ----- The whole summary -----

  /** The part of a summary that a value belongs to comes before the one that fails:
      its kind is reached and its clock admits the time, and host rows, which ask the
      bucket a second time, need an interval that is not negative. */
  ghost predicate Reached(s: State, now: real, o: Origin) {
    && SummaryReaches(ClocksOf(s), now, o.kind)
    && s.At(o.kind).clock.Admits(now, None)
    && (o.group.Host? ==> s.At(o.kind).clock.interval >= 0)
  }

  /** The part of `Reached` that one bucket decides. */
  ghost predicate Admitted(c: Clock, now: real, o: Origin) {
    c.Admits(now, None) && (o.group.Host? ==> c.interval >= 0)
  }

  lemma KindExact(s: State, s': State, now: real, kind: Kind) returns (os: seq<Origin>)
    requires BucketMatches(kind, s.At(kind).bucket) && s'.At(kind) == StatsOfKind(s.At(kind), now).0
    ensures Annotates(s', now, os, StatsOfKind(s.At(kind), now).1.out)
    ensures NoRepeats(os) && InOrder(os)
    ensures forall o :: o in os <==> Due(s', o) && o.kind == kind && Admitted(s.At(kind).clock, now, o)
  {
    var c, b := s.At(kind).clock, s'.At(kind).bucket;
    if !c.Admits(now, None) {
      os := [];
    } else {
      SecondCallSameTime(s.At(kind), now, None);
      assert b == Evict(s.At(kind).bucket, now);
      StatsFinish(b, kind, ByProgram, now);
      StatsFinish(b, kind, ByHost, now);
      os := SectionExact(s', now, kind, ByProgram);
      if c.interval >= 0 {
        var hosts := SectionExact(s', now, kind, ByHost);
        AnnotatesConcat(s', now, os, Emit(Rows(b, ByProgram, Groups(b, ByProgram), now)).out,
                        hosts, Emit(Rows(b, ByHost, Groups(b, ByHost), now)).out);
        NoRepeatsConcat(os, hosts);
        InOrderConcat(os, hosts);
        os := os + hosts;
      }
    }
  }

  /** What a kind adds to the output: nothing if the summary does not get to it. */
  ghost function OutOf(s: State, now: real, kind: Kind): seq<Msg> {
    if SummaryReaches(ClocksOf(s), now, kind) then StatsOfKind(s.At(kind), now).1.out else []
  }

  /** The output is what the kinds reached yield, one after the other. */
  lemma SummaryParts(s: State, now: real)
    requires RecordsMatch(s)
    ensures Summarize(s, now).1.out == OutOf(s, now, Pool) + OutOf(s, now, Totals) + OutOf(s, now, Process)
  {
    assert BucketMatches(Pool, s.At(Pool).bucket) && BucketMatches(Totals, s.At(Totals).bucket);
    KindCompletes(s.pool, Pool, now);
    KindCompletes(s.totals, Totals, now);
  }

  lemma KindReached(s: State, now: real, kind: Kind) returns (os: seq<Origin>)
    requires RecordsMatch(s)
    ensures Annotates(Summarize(s, now).0, now, os, OutOf(s, now, kind)) && NoRepeats(os) && InOrder(os)
    ensures forall o :: o in os <==> Due(Summarize(s, now).0, o) && o.kind == kind && Reached(s, now, o)
  {
    if SummaryReaches(ClocksOf(s), now, kind) {
      ReachesByClocks(s, now, kind);
      SummarizeAt(s, now, kind);
      assert BucketMatches(kind, s.At(kind).bucket);
      os := KindExact(s, Summarize(s, now).0, now, kind);
    } else {
      os := [];
    }
  }

  /** However a summary ends, it has yielded exactly the values due in the parts before
      the failing one: for every group with a live record and every field, the sum over
      exactly the live records, nothing missing, nothing extra and nothing twice, in order
      of type, of programs before hosts, of host and program, and of field. */
  lemma OutputExact(s: State, now: real) returns (os: seq<Origin>)
    requires RecordsMatch(s)
    ensures Annotates(Summarize(s, now).0, now, os, Summarize(s, now).1.out) && NoRepeats(os) && InOrder(os)
    ensures forall o :: o in os <==> Due(Summarize(s, now).0, o) && Reached(s, now, o)
  {
    var s' := Summarize(s, now).0;
    SummaryParts(s, now);
    var pool := KindReached(s, now, Pool);
    var totals := KindReached(s, now, Totals);
    var process := KindReached(s, now, Process);
    AnnotatesConcat(s', now, pool, OutOf(s, now, Pool), totals, OutOf(s, now, Totals));
    AnnotatesConcat(s', now, pool + totals, OutOf(s, now, Pool) + OutOf(s, now, Totals), process, OutOf(s, now, Process));
    NoRepeatsConcat(pool, totals);
    NoRepeatsConcat(pool + totals, process);
    InOrderConcat(pool, totals);
    InOrderConcat(pool + totals, process);
    os := pool + totals + process;
  }

  /** A finished summary yields every value that is due, in order. */
  lemma SummaryExact(s: State, now: real) returns (os: seq<Origin>)
    requires RecordsMatch(s) && Summarize(s, now).1.ending.Finished?
    ensures Annotates(Summarize(s, now).0, now, os, Summarize(s, now).1.out)
    ensures NoRepeats(os) && InOrder(os)
    ensures forall o :: o in os <==> Due(Summarize(s, now).0, o)
  {
    SummaryCompletes(s, now);
    os := OutputExact(s, now);
    forall o ensures Reached(s, now, o) {
      assert Completes(s.At(o.kind).clock, now) && Completes(s.At(Pool).clock, now) && Completes(s.At(Totals).clock, now);
    }
  }
}
