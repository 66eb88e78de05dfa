/** The values of the output, as sums over the clients that sent them. */
module ClientSums {
  import opened Wrappers
  import opened Protocol
  import opened CollectdTypes
  import opened Bytes
  import opened Summation
  import opened Grouping
  import opened Aggregation
  import opened MessageHistory
  import opened SummaryRows
  import opened SummaryLaws
  import opened Pipeline

  /** A client's target: what happened to its connections, and how many pools it has. */
  datatype Target = Target(trace: seq<Client.Event>, pools: nat)

  /** A count under its external name. */
  datatype Count =
    | NumPools | CheckedOut | CheckedIn | Detached | Connections
    | Checkouts | Invalidated | Connects | Disconnects
  {
    function Name(): string {
      match this
      case NumPools => "numpools"
      case CheckedOut => "checkedout"
      case CheckedIn => "checkedin"
      case Detached => "detached"
      case Connections => "connections"
      case Checkouts => "checkouts"
      case Invalidated => "invalidated"
      case Connects => "connects"
      case Disconnects => "disconnects"
    }

    function InKind(): Kind {
      match this
      case Checkouts => Totals
      case Invalidated => Totals
      case Connects => Totals
      case Disconnects => Totals
      case _ => Pool
    }

    function Position(): nat {
      match this
      case NumPools => 0
      case CheckedOut => 1
      case CheckedIn => 2
      case Detached => 3
      case Connections => 4
      case Checkouts => 0
      case Invalidated => 1
      case Connects => 2
      case Disconnects => 3
    }

    /** The count, told from what happened to the connections. */
    ghost function Of(t: Target): int
      requires Client.PoolAfter(t.trace).Some?
    {
      var p := Client.PoolAfter(t.trace).value;
      match this
      case NumPools => t.pools
      case CheckedOut => |set id | id in p && p[id].place.Out? && !p[id].invalid|
      case CheckedIn => |set id | id in p && p[id].place.In?|
      case Detached => |set id | id in p && p[id].place.Detached?|
      case Connections => |p|
      case Checkouts => Client.Tally(t.trace, (e: Client.Event) => e.Checkout?)
      case Invalidated => Client.Tally(t.trace, (e: Client.Event) => e.Invalidate?)
      case Connects => Client.Tally(t.trace, (e: Client.Event) => e.Connect?)
      case Disconnects => Client.Tally(t.trace, (e: Client.Event) => e.Close? || e.CloseDetached?)
    }
  }

  lemma NamedInType(c: Count)
    ensures c.Position() < |c.InKind().Spec().fields| && FieldName(c.InKind(), c.Position()) == c.Name()
  {
  }

  /** What a client's snapshot has at the position of a count is that count. */
  lemma SnapshotTells(c: Count, t: Target)
    requires Client.PoolAfter(t.trace).Some?
    ensures c.Position() < |SnapshotOf(c.InKind().Spec(), t.trace, t.pools)|
    ensures SnapshotOf(c.InKind().Spec(), t.trace, t.pools)[c.Position()] == c.Of(t)
  {
    Client.PoolReported(t.trace, t.pools);
    Client.TotalsReported(t.trace);
    Client.EndingsCounted(t.trace);
    assert POOL != TOTALS;
  }

  /** A message as a client sends it: its type's name, its labels and its snapshot. */
  ghost predicate IsReport(v: Msg, kind: Kind, k: Key, t: Target) {
    && Client.PoolAfter(t.trace).Some?
    && v.typeName == Some(if kind.Totals? then "sqlalchemy_totals" else "sqlalchemy_pool")
    && v.host == Some(k.host) && v.pluginInstance == Some(k.program) && v.typeInstance == Some(k.token)
    && v.values == SnapshotOf(kind.Spec(), t.trace, t.pools)
  }

  /** The last unexpired message stored under `k` is a report of the target. */
  ghost predicate LastReport(all: seq<Event>, kind: Kind, k: Key, t: Target) {
    exists i :: LastStored(all, kind, k, i) && IsReport(all[i].v, kind, k, t)
  }

  /** Every datagram that decodes as a pool or totals message was sent by a client. */
  ghost predicate AllSent(ins: seq<Input>) {
    forall x :: x in ins && x.Datagram? && Decoded(x.b).Some? ==> SentByClient(x.b)
  }

  lemma ReportOf(b: seq<Byte>, kind: Kind, k: Key) returns (t: Target)
    requires SentByClient(b) && Decoded(b).Some? && FromWire(Decoded(b).value) && KeyOf(Decoded(b).value) == k
    requires KindNamed(Decoded(b).value.typeName) == Some(kind) && !kind.Process?
    ensures IsReport(Decoded(b).value, kind, k, t)
  {
    var ty, host, program, token, now, interval, trace, pools :| SentFrom(b, ty, host, program, token, now, interval, trace, pools);
    SnapshotArrives(b, ty, host, program, token, now, interval, trace, pools);
    t := Target(trace, pools);
    assert ty == kind.Spec();
  }

  lemma {:induction false} EventIsReport(ins: seq<Input>, e: Event, kind: Kind, k: Key) returns (t: Target)
    requires AllSent(ins) && e in ServerEvents(ins) && e.Receive? && KeyOf(e.v) == k
    requires KindNamed(e.v.typeName) == Some(kind) && !kind.Process?
    ensures IsReport(e.v, kind, k, t)
  {
    var front, x := ins[..|ins| - 1], ins[|ins| - 1];
    assert x in ins;
    if e in ServerEvents(front) {
      t := EventIsReport(front, e, kind, k);
    } else {
      t := ReportOf(x.b, kind, k);
    }
  }

  /** A live record was left by a client's report, and holds its counts. */
  lemma RecordIsReport(ins: seq<Input>, now: real, kind: Kind, k: Key) returns (t: Target)
    requires AllSent(ins) && !kind.Process?
    requires k in Run(ServerEvents(ins) + [Summary(now)]).At(kind).bucket
    ensures LastReport(ServerEvents(ins) + [Summary(now)], kind, k, t)
    ensures IsReport(Run(ServerEvents(ins) + [Summary(now)]).At(kind).bucket[k].value, kind, k, t)
  {
    var all := ServerEvents(ins) + [Summary(now)];
    BucketHoldsLastMessages(all, kind, k);
    var i :| LastStored(all, kind, k, i);
    assert all[i] in ServerEvents(ins);
    t := EventIsReport(ins, all[i], kind, k);
  }

  ghost function AddUp(m: map<Key, int>): int {
    if m == map[] then 0
    else
      var k :| k in m;
      m[k] + AddUp(m - {k})
  }

  lemma {:induction false} AddUpRemove(m: map<Key, int>, k: Key)
    requires k in m
    ensures AddUp(m) == m[k] + AddUp(m - {k})
    decreases |m|
  {
    var x :| x in m && AddUp(m) == m[x] + AddUp(m - {x});
    if x != k {
      AddUpRemove(m - {x}, k);
      AddUpRemove(m - {k}, x);
      assert m - {x} - {k} == m - {k} - {x};
    }
  }

  /** The counts of some targets. */
  ghost function CountsOf(c: Count, ts: map<Key, Target>): map<Key, int>
    requires forall k :: k in ts ==> Client.PoolAfter(ts[k].trace).Some?
  {
    map k | k in ts :: c.Of(ts[k])
  }

  lemma ReportTells(c: Count, v: Msg, k: Key, t: Target)
    requires IsReport(v, c.InKind(), k, t)
    ensures Element(v, c.Position()) == c.Of(t)
  {
    SnapshotTells(c, t);
  }

  lemma {:induction false} TotalIsSum(b: Bucket, i: nat, m: map<Key, int>)
    requires forall k :: k in m ==> k in b && Element(b[k].value, i) == m[k]
    ensures Total(b, m.Keys, i) == AddUp(m)
    decreases |m|
  {
    if k :| k in m {
      TotalIsSum(b, i, m - {k});
      assert (m - {k}).Keys == m.Keys - {k};
      TotalRemove(b, m.Keys, i, k);
      AddUpRemove(m, k);
    } else {
      assert m == map[] && m.Keys == {};
    }
  }

  lemma {:induction false} TotalIsSumOfCounts(b: Bucket, c: Count, ts: map<Key, Target>)
    requires forall k :: k in ts ==> Client.PoolAfter(ts[k].trace).Some?
    requires forall k :: k in ts ==> k in b && IsReport(b[k].value, c.InKind(), k, ts[k])
    ensures Total(b, ts.Keys, c.Position()) == AddUp(CountsOf(c, ts))
  {
    var m := CountsOf(c, ts);
    forall k | k in m ensures Element(b[k].value, c.Position()) == m[k] {
      ReportTells(c, b[k].value, k, ts[k]);
    }
    TotalIsSum(b, c.Position(), m);
    assert m.Keys == ts.Keys;
  }

  /** The targets behind some live records. */
  lemma {:induction false} TargetsOf(ins: seq<Input>, now: real, kind: Kind, s: set<Key>) returns (ts: map<Key, Target>)
    requires AllSent(ins) && !kind.Process? && s <= Run(ServerEvents(ins) + [Summary(now)]).At(kind).bucket.Keys
    ensures ts.Keys == s
    ensures forall k :: k in s ==>
                          && LastReport(ServerEvents(ins) + [Summary(now)], kind, k, ts[k])
                          && IsReport(Run(ServerEvents(ins) + [Summary(now)]).At(kind).bucket[k].value, kind, k, ts[k])
  {
    if s == {} {
      ts := map[];
    } else {
      var k :| k in s;
      var t := RecordIsReport(ins, now, kind, k);
      var rest := TargetsOf(ins, now, kind, s - {k});
      ts := rest[k := t];
    }
  }

  /** From the clients' events to the output, count by count: if all datagrams that decode
      were sent by clients whose connections respect their lifecycle, then whatever value a
      summary shows under one of the nine names is the sum of that very count over the
      targets behind the live records of the group, each of which is the one that the
      last unexpired message of its process reported. */
  lemma ShownIsSumOfCounts(ins: seq<Input>, now: real, c: Count, h: string, program: string, n: nat) returns (ts: map<Key, Target>)
    requires AllSent(ins) && forall kind: Kind :: Completes(ClocksAfter(ServerEvents(ins)).At(kind), now)
    requires NoProgramNamedHost(Run(ServerEvents(ins) + [Summary(now)])) || program != "host"
    requires n < |Summarize(Run(ServerEvents(ins)), now).1.out|
    requires Shows(Summarize(Run(ServerEvents(ins)), now).1.out[n], h, program, c.Name())
    ensures ts.Keys == Members(Run(ServerEvents(ins) + [Summary(now)]).At(c.InKind()).bucket, LabelledGroup(h, program))
    ensures forall k :: k in ts ==>
                          && LastReport(ServerEvents(ins) + [Summary(now)], c.InKind(), k, ts[k])
                          && Client.PoolAfter(ts[k].trace).Some?
    ensures Summarize(Run(ServerEvents(ins)), now).1.out[n].values == [AddUp(CountsOf(c, ts))]
  {
    var all := ServerEvents(ins) + [Summary(now)];
    var b := Run(all).At(c.InKind()).bucket;
    var os := SummaryAfterRun(ServerEvents(ins), now);
    NamedInType(c);
    ShownField(Run(all), now, os, Summarize(Run(ServerEvents(ins)), now).1.out, n, h, program, c.InKind(), c.Position());
    ts := TargetsOf(ins, now, c.InKind(), Members(b, LabelledGroup(h, program)));
    TotalIsSumOfCounts(b, c, ts);
  }
}
