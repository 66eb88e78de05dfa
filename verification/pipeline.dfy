/** From a client's sets to the server's rows. */
module Pipeline {
  import opened Wrappers
  import opened Protocol
  import opened CollectdTypes
  import opened Bytes
  import opened Binary64
  import opened Codec
  import opened RoundTrips
  import opened Aggregation
  import opened MessageHistory
  import opened SummaryRows
  import opened SummaryLaws
  import Client = ConnectionEvents

  /** The types a sender packs and those a receiver unpacks. */
  const SENT: Registry := map[POOL.name := POOL, TOTALS.name := TOTALS]
  const KNOWN: Registry := map[POOL.name := POOL, TOTALS.name := TOTALS, PROCESS.name := PROCESS]

  function Wholes(xs: seq<int>): (ds: seq<Datum>)
    ensures |ds| == |xs| && forall i :: 0 <= i < |xs| ==> ds[i] == Whole(xs[i])
  {
    seq(|xs|, i requires 0 <= i < |xs| => Whole(xs[i]))
  }

  /** What `Sender.send` hands to the packer for one type. */
  function Outgoing(t: Type, host: string, program: string, token: string, now: real, interval: int, xs: seq<int>): Values<Datum> {
    Values(Some(t.name), Some(token), Some("sqlalchemy"), Some(program), Some(host), Some(now), interval, Wholes(xs))
  }

  /** A decoded element as a count; None when it is not a whole number below 2^53. */
  function AsCount(d: Datum): Option<int> {
    match d
    case Whole(n) => Some(n)
    case Double(w) => WholeOf(w)
  }

  function AsCounts(ds: seq<Datum>): Option<seq<int>> {
    if ds == [] then Some([])
    else
      var first, rest := AsCount(ds[0]), AsCounts(ds[1..]);
      if first.Some? && rest.Some? then Some([first.value] + rest.value) else None
  }

  /** The record the server works on. */
  function Incoming(v: Values<Datum>): Option<Msg> {
    var counts := AsCounts(v.values);
    if counts.None? then None
    else Some(Values(v.typeName, v.typeInstance, v.plugin, v.pluginInstance, v.host, v.time, v.interval, counts.value))
  }

  lemma {:induction false} ReceivedCounts(fields: seq<Field>, xs: seq<int>, i: nat)
    requires |fields| == |xs| && i <= |fields|
    requires forall j :: 0 <= j < |xs| ==> -TWO_53 < xs[j] < TWO_53
    ensures AsCounts(Received(fields, Wholes(xs), i)) == Some(xs[i..])
    decreases |fields| - i
  {
    if i < |fields| {
      ReceivedCounts(fields, xs, i + 1);
      WholeRoundTrip(xs[i]);
      var ds := Received(fields, Wholes(xs), i);
      assert ds[1..] == Received(fields, Wholes(xs), i + 1);
      assert xs[i..] == [xs[i]] + xs[i + 1..];
    }
  }

  /** What the decoder delivers always carries its strings and its time, as the
      receiver takes for granted. */
  lemma DecodedIsComplete(known: Registry, b: seq<Byte>)
    requires UnpackBytes(known, b).Success? && UnpackBytes(known, b).value.Some?
    requires Incoming(UnpackBytes(known, b).value.value).Some?
    ensures FromWire(Incoming(UnpackBytes(known, b).value.value).value)
    ensures UnpackBytes(known, b).value.value.typeName.Some? && UnpackBytes(known, b).value.value.typeName.value in known
  {
  }

  lemma BothRegistered()
    ensures Registered(SENT) && Registered(KNOWN)
  {
  }

  /** The bytes a sender puts on the wire. */
  function Send(v: Values<Datum>): Result<seq<Byte>, Error> {
    BothRegistered();
    PackValues(SENT, v)
  }

  /** A vector of counts goes through packer, wire and unpacker unchanged, whether its
      fields are doubles or integers on the way. */
  lemma CountsArrive(t: Type, host: string, program: string, token: string, now: real, interval: int, xs: seq<int>)
    requires t == POOL || t == TOTALS
    requires |xs| == |t.fields| && forall j :: 0 <= j < |xs| ==> -TWO_53 < xs[j] < TWO_53
    requires Send(Outgoing(t, host, program, token, now, interval, xs)).Success?
    ensures var r := UnpackBytes(KNOWN, Send(Outgoing(t, host, program, token, now, interval, xs)).value);
      && r.Success? && r.value.Some?
      && Incoming(r.value.value) == Some(Values(Some(t.name), Some(token), Some("sqlalchemy"), Some(program), Some(host),
                                                Some(Trunc(now) as real), interval, xs))
  {
    BothRegistered();
    var v := Outgoing(t, host, program, token, now, interval, xs);
    assert SENT[t.name] == t && t.name in KNOWN;
    UnpackPacked(SENT, KNOWN, v);
    ReceivedCounts(t.fields, xs, 0);
    assert xs[0..] == xs;
  }

  lemma {:induction false} ReceivedCountsOrNothing(fields: seq<Field>, xs: seq<int>, i: nat)
    requires |fields| == |xs| && i <= |fields|
    ensures var counts := AsCounts(Received(fields, Wholes(xs), i)); counts == None || counts == Some(xs[i..])
    decreases |fields| - i
  {
    if i < |fields| {
      ReceivedCountsOrNothing(fields, xs, i + 1);
      if WordOf(xs[i]).Some? {
        WholeOrNothing(xs[i]);
      }
      var ds := Received(fields, Wholes(xs), i);
      assert ds[0] == OnWire(fields[i].dsType, Whole(xs[i]));
      assert ds[1..] == Received(fields, Wholes(xs), i + 1);
      assert xs[i..] == [xs[i]] + xs[i + 1..];
    } else {
      assert xs[i..] == [];
    }
  }

  // ----- Accounting, from the clients' events to the server's rows -----

  /** The record the server gets from a datagram; None when it gets none. */
  function Decoded(b: seq<Byte>): Option<Msg> {
    var r := UnpackBytes(KNOWN, b);
    if r.Success? && r.value.Some? then Incoming(r.value.value) else None
  }

  predicate IsPoolMessage(b: seq<Byte>) {
    Decoded(b).Some? && KindNamed(Decoded(b).value.typeName) == Some(Pool)
  }

  /** What comes to the server: a datagram, or the request for a summary. */
  datatype Input = Datagram(b: seq<Byte>) | Ask(now: real)

  lemma DecodedFromWire(b: seq<Byte>)
    requires Decoded(b).Some?
    ensures FromWire(Decoded(b).value)
  {
    DecodedIsComplete(KNOWN, b);
  }

  /** The receiver's events: datagrams that cannot be decoded leave no trace. */
  function ServerEvents(ins: seq<Input>): seq<Event> {
    if ins == [] then []
    else
      var before, x := ServerEvents(ins[..|ins| - 1]), ins[|ins| - 1];
      match x
      case Ask(now) => before + [Summary(now)]
      case Datagram(b) =>
        if Decoded(b).None? then before
        else
          DecodedFromWire(b);
          before + [Receive(Decoded(b).value)]
  }

  /** A datagram that `Sender.send` makes of a client's target: its pool or its totals
      snapshot, after any trace in which connections respect their lifecycle. */
  ghost predicate SentByClient(b: seq<Byte>) {
    exists t, host, program, token, now, interval, trace, pools ::
      SentFrom(b, t, host, program, token, now, interval, trace, pools)
  }

  ghost predicate SentFrom(b: seq<Byte>, t: Type, host: string, program: string, token: string, now: real, interval: int,
                           trace: seq<Client.Event>, pools: nat) {
    && (t == POOL || t == TOTALS)
    && Client.PoolAfter(trace).Some?
    && Send(Outgoing(t, host, program, token, now, interval, SnapshotOf(t, trace, pools))) == Success(b)
  }

  ghost function SnapshotOf(t: Type, trace: seq<Client.Event>, pools: nat): seq<int> {
    if t == POOL then Client.PoolSnapshot(Client.Run(trace), pools) else Client.TotalsSnapshot(Client.Run(trace))
  }

  lemma SnapshotFits(t: Type, trace: seq<Client.Event>, pools: nat)
    requires t == POOL || t == TOTALS
    ensures |SnapshotOf(t, trace, pools)| == |t.fields|
  {
  }

  /** What a client sends, the server gets unchanged or not at all. */
  lemma SnapshotArrives(b: seq<Byte>, t: Type, host: string, program: string, token: string, now: real, interval: int,
                        trace: seq<Client.Event>, pools: nat)
    requires SentFrom(b, t, host, program, token, now, interval, trace, pools) && Decoded(b).Some?
    ensures Decoded(b).value == Values(Some(t.name), Some(token), Some("sqlalchemy"), Some(program), Some(host),
                                       Some(Trunc(now) as real), interval, SnapshotOf(t, trace, pools))
  {
    BothRegistered();
    var xs := SnapshotOf(t, trace, pools);
    var v := Outgoing(t, host, program, token, now, interval, xs);
    SnapshotFits(t, trace, pools);
    assert SENT[t.name] == t && t.name in KNOWN;
    UnpackPacked(SENT, KNOWN, v);
    ReceivedCountsOrNothing(t.fields, xs, 0);
    assert xs[0..] == xs;
  }

  lemma SentIsAccountable(b: seq<Byte>)
    requires SentByClient(b) && IsPoolMessage(b)
    ensures Accountable(Decoded(b).value)
  {
    var t, host, program, token, now, interval, trace, pools :|
      SentFrom(b, t, host, program, token, now, interval, trace, pools);
    SnapshotArrives(b, t, host, program, token, now, interval, trace, pools);
    assert t == POOL;
    Client.ConnectionPartition(trace);
  }

  lemma {:induction false} EventsAccountable(ins: seq<Input>, e: Event)
    requires forall x :: x in ins && x.Datagram? && IsPoolMessage(x.b) ==> SentByClient(x.b)
    requires e in ServerEvents(ins) && e.Receive? && KindNamed(e.v.typeName) == Some(Pool)
    ensures Accountable(e.v)
  {
    var front, x := ins[..|ins| - 1], ins[|ins| - 1];
    assert x in ins;
    if e in ServerEvents(front) {
      EventsAccountable(front, e);
    } else {
      SentIsAccountable(x.b);
    }
  }

  /** From the clients' events to the output: if every pool message that reaches the
      server is one a client sent, then of the values any summary yields, those for connections
      checked out, checked in and detached never exceed that for connections, in every
      program row and, unless a live program is named "host", in every host row. */
  lemma {:induction false} RowsAccountable(ins: seq<Input>, now: real, h: string, program: string, a: nat, b: nat, c: nat, d: nat)
    requires forall kind: Kind :: Completes(ClocksAfter(ServerEvents(ins)).At(kind), now)
    requires forall x :: x in ins && x.Datagram? && IsPoolMessage(x.b) ==> SentByClient(x.b)
    requires NoProgramNamedHost(Run(ServerEvents(ins) + [Summary(now)])) || program != "host"
    requires ShowPoolRow(Summarize(Run(ServerEvents(ins)), now).1.out, h, program, a, b, c, d)
    ensures PartsWithinWhole(Summarize(Run(ServerEvents(ins)), now).1.out, a, b, c, d)
  {
    var events := ServerEvents(ins);
    forall e | e in events && e.Receive? && KindNamed(e.v.typeName) == Some(Pool) ensures Accountable(e.v) {
      EventsAccountable(ins, e);
    }
    AccountingSurvives(events, now, h, program, a, b, c, d);
  }
}
