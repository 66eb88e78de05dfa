/** connmon/stat.py on values: what messages and time do to the console's figures. */
module ConsoleFigures {
  import opened Wrappers

  /** The figures of one program on one host, or of a host as a whole. */
  datatype Prog = Prog(
    lastTime: real,
    checkoutCount: Option<int>,
    maxCheckedout: int,
    processCount: Option<int>,
    maxProcessCount: int,
    connectionCount: Option<int>,
    maxConnections: int,
    totalConnects: Option<int>,
    intervalConnects: Option<int>,
    totalCheckouts: Option<int>,
    intervalCheckouts: Option<int>,
    lastTotalCheckoutTime: Option<real>,
    checkoutsPerSecond: Option<real>,
    interval: int)

  const NEW_PROG := Prog(0.0, None, 0, None, 0, None, 0, None, None, None, None, None, None, 0)

  /** A decoded message: the field it is about, its vector, its time and interval. */
  datatype Report = Report(field: string, values: seq<int>, time: real, interval: int)

  datatype Problem = Fine | IndexError | ZeroDivisionError

  function Max(a: int, b: int): int {
    if a >= b then a else b
  }

  const FIELDS := {"numprocs", "checkedout", "connections", "connects", "checkouts"}

  /** `update_total_checkouts`. A stored time of 0 counts as no time. */
  function UpdateCheckouts(p: Prog, x: int, time: real, interval: int): (Prog, Problem) {
    var q :=
      if p.lastTotalCheckoutTime.GetOr(0.0) != 0.0 then p.(intervalCheckouts := Some(x - p.totalCheckouts.GetOr(0)))
      else p;
    var delta := time - p.lastTotalCheckoutTime.GetOr(0.0);
    var rated := p.lastTotalCheckoutTime.GetOr(0.0) != 0.0 && delta >= interval as real && p.totalCheckouts.GetOr(0) > 0;
    if rated && delta == 0.0 then (q, ZeroDivisionError)
    else
      var r := if rated then q.(checkoutsPerSecond := Some((x - p.totalCheckouts.GetOr(0)) as real / delta)) else q;
      (r.(totalCheckouts := Some(x), lastTotalCheckoutTime := Some(time)), Fine)
  }

  /** The updater registered for a field, on the first element of the vector. */
  function UpdateField(p: Prog, field: string, x: int, time: real, interval: int): (Prog, Problem) {
    if field == "numprocs" then (p.(processCount := Some(x), maxProcessCount := Max(x, p.maxProcessCount)), Fine)
    else if field == "checkedout" then (p.(checkoutCount := Some(x), maxCheckedout := Max(p.maxCheckedout, x)), Fine)
    else if field == "connections" then (p.(connectionCount := Some(x), maxConnections := Max(p.maxConnections, x)), Fine)
    else if field == "connects" then
      (p.(intervalConnects := if p.totalConnects.Some? then Some(x - p.totalConnects.value) else p.intervalConnects,
          totalConnects := Some(x)), Fine)
    else if field == "checkouts" then UpdateCheckouts(p, x, time, interval)
    else (p, Fine)
  }

  /** `_update` once the program is known; other fields change nothing. */
  function Update(p: Prog, r: Report): (Prog, Problem) {
    if r.field !in FIELDS then (p, Fine)
    else if r.values == [] then (p, IndexError)
    else
      var (q, problem) := UpdateField(p, r.field, r.values[0], r.time, r.interval);
      if problem.Fine? then (q.(interval := r.interval, lastTime := r.time), Fine) else (q, problem)
  }

  function Kill(p: Prog): Prog {
    p.(processCount := Some(0), connectionCount := Some(0), checkoutCount := Some(0), checkoutsPerSecond := Some(0.0))
  }

  // ----- One program over its life -----

  datatype Event = Received(r: Report) | Killed

  function Step(p: Prog, e: Event): Prog {
    match e
    case Received(r) => Update(p, r).0
    case Killed => Kill(p)
  }

  function Run(es: seq<Event>): Prog {
    if es == [] then NEW_PROG else Step(Run(es[..|es| - 1]), es[|es| - 1])
  }

  lemma {:induction false} RunAppend(es: seq<Event>, e: Event)
    ensures Run(es + [e]) == Step(Run(es), e)
  {
    assert (es + [e])[..|es|] == es;
  }

  /** The values received for one field, in order. */
  function ValuesOf(es: seq<Event>, field: string): seq<int> {
    if es == [] then []
    else
      var e := es[|es| - 1];
      ValuesOf(es[..|es| - 1], field)
      + if e.Received? && e.r.field == field && e.r.values != [] then [e.r.values[0]] else []
  }

  /** The greatest of 0 and some values. */
  ghost predicate IsHighWater(m: int, xs: seq<int>) {
    (m == 0 || m in xs) && m >= 0 && forall x :: x in xs ==> x <= m
  }

  lemma HighWaterAppend(m: int, xs: seq<int>, x: int)
    requires IsHighWater(m, xs)
    ensures IsHighWater(Max(m, x), xs + [x])
  {
    assert x in xs + [x] && forall y :: y in xs ==> y in xs + [x];
  }

  predicate Counts(e: Event, field: string) {
    e.Received? && e.r.field == field && e.r.values != []
  }

  lemma StepMaxima(p: Prog, e: Event)
    ensures var q := Step(p, e);
      && q.maxProcessCount == (if Counts(e, "numprocs") then Max(p.maxProcessCount, e.r.values[0]) else p.maxProcessCount)
      && q.maxCheckedout == (if Counts(e, "checkedout") then Max(p.maxCheckedout, e.r.values[0]) else p.maxCheckedout)
      && q.maxConnections == (if Counts(e, "connections") then Max(p.maxConnections, e.r.values[0]) else p.maxConnections)
  {
  }

  lemma {:induction false} HighWaterStep(es: seq<Event>, field: string, m: int)
    requires es != [] && IsHighWater(m, ValuesOf(es[..|es| - 1], field))
    ensures var e := es[|es| - 1];
      IsHighWater(if Counts(e, field) then Max(m, e.r.values[0]) else m, ValuesOf(es, field))
  {
    var e := es[|es| - 1];
    if Counts(e, field) {
      HighWaterAppend(m, ValuesOf(es[..|es| - 1], field), e.r.values[0]);
    } else {
      assert ValuesOf(es, field) == ValuesOf(es[..|es| - 1], field);
    }
  }

  /** The maxima are the greatest of 0 and all values received since the program was
      first seen, whatever was killed in between. */
  lemma {:induction false} MaximaAreHighWater(es: seq<Event>)
    ensures IsHighWater(Run(es).maxProcessCount, ValuesOf(es, "numprocs"))
    ensures IsHighWater(Run(es).maxCheckedout, ValuesOf(es, "checkedout"))
    ensures IsHighWater(Run(es).maxConnections, ValuesOf(es, "connections"))
  {
    if es != [] {
      var front, e := es[..|es| - 1], es[|es| - 1];
      MaximaAreHighWater(front);
      StepMaxima(Run(front), e);
      HighWaterStep(es, "numprocs", Run(front).maxProcessCount);
      HighWaterStep(es, "checkedout", Run(front).maxCheckedout);
      HighWaterStep(es, "connections", Run(front).maxConnections);
    }
  }

  // ----- What is current, and since when -----

  /** The fields that have a figure. */
  predicate IsFigure(field: string) {
    field == "numprocs" || field == "checkedout" || field == "connections" || field == "connects" || field == "checkouts"
  }

  /** An update fails for want of a value iff its field has a figure and its vector is
      empty, and then changes nothing. */
  lemma IndexErrorIff(p: Prog, r: Report)
    ensures Update(p, r).1.IndexError? <==> IsFigure(r.field) && r.values == []
    ensures Update(p, r).1.IndexError? ==> Update(p, r).0 == p
  {
  }

  /** The reports of figures whose update did not fail, in order. */
  function Heard(es: seq<Event>): seq<Report> {
    if es == [] then []
    else
      var front, e := es[..|es| - 1], es[|es| - 1];
      Heard(front) + if e.Received? && IsFigure(e.r.field) && Update(Run(front), e.r).1.Fine? then [e.r] else []
  }

  /** Time and interval of the last such report; 0 before any. */
  function LastHeard(es: seq<Event>): (real, int) {
    if Heard(es) == [] then (0.0, 0) else (Heard(es)[|Heard(es)| - 1].time, Heard(es)[|Heard(es)| - 1].interval)
  }

  lemma HeardStep(p: Prog, e: Event)
    ensures var q := Step(p, e);
      if e.Received? && IsFigure(e.r.field) && Update(p, e.r).1.Fine? then q.lastTime == e.r.time && q.interval == e.r.interval
      else q.lastTime == p.lastTime && q.interval == p.interval
  {
  }

  /** After any run a program's time and interval are those of the last report of a figure
      whose update did not fail, kills notwithstanding. */
  lemma {:induction false} TimeIsLastHeard(es: seq<Event>)
    ensures (Run(es).lastTime, Run(es).interval) == LastHeard(es)
  {
    if es != [] {
      TimeIsLastHeard(es[..|es| - 1]);
      HeardStep(Run(es[..|es| - 1]), es[|es| - 1]);
    }
  }

  /** The last value received for a field, or 0 if a kill came after it; None before both. */
  function Current(es: seq<Event>, field: string): Option<int> {
    if es == [] then None
    else
      var e := es[|es| - 1];
      if e.Killed? then Some(0)
      else if Counts(e, field) then Some(e.r.values[0])
      else Current(es[..|es| - 1], field)
  }

  lemma CurrentStep(p: Prog, e: Event)
    ensures var q := Step(p, e);
      && q.processCount == (if e.Killed? then Some(0) else if Counts(e, "numprocs") then Some(e.r.values[0]) else p.processCount)
      && q.connectionCount == (if e.Killed? then Some(0) else if Counts(e, "connections") then Some(e.r.values[0]) else p.connectionCount)
      && q.checkoutCount == (if e.Killed? then Some(0) else if Counts(e, "checkedout") then Some(e.r.values[0]) else p.checkoutCount)
  {
  }

  /** After any run the three current figures are the last values received for their
      fields, or 0 if a kill came after; and these are what the sums add up. */
  lemma {:induction false} FiguresAreCurrent(es: seq<Event>)
    ensures Run(es).processCount == Current(es, "numprocs")
    ensures Run(es).connectionCount == Current(es, "connections")
    ensures Run(es).checkoutCount == Current(es, "checkedout")
  {
    if es != [] {
      FiguresAreCurrent(es[..|es| - 1]);
      CurrentStep(Run(es[..|es| - 1]), es[|es| - 1]);
    }
  }

  // ----- Checkouts: totals, growth and rate -----

  /** A checkout report that is taken in: its update does not fail. */
  predicate Takes(p: Prog, e: Event) {
    Counts(e, "checkouts") && Update(p, e.r).1.Fine?
  }

  /** The checkout reports that were taken in, in order. */
  function Taken(es: seq<Event>): (rs: seq<Report>)
    ensures forall r :: r in rs ==> r.values != []
  {
    if es == [] then []
    else
      var front, e := es[..|es| - 1], es[|es| - 1];
      Taken(front) + if Takes(Run(front), e) then [e.r] else []
  }

  lemma TakeOne(p: Prog, e: Event)
    ensures var q := Step(p, e);
      if Takes(p, e) then q.totalCheckouts == Some(e.r.values[0]) && q.lastTotalCheckoutTime == Some(e.r.time)
      else q.totalCheckouts == p.totalCheckouts && q.lastTotalCheckoutTime == p.lastTotalCheckoutTime
  {
  }

  /** Total and time are those of the last report taken in; so a total comes with its
      time, and the updater's assertion that there is a total never fails. */
  lemma {:induction false} TotalIsLastTaken(es: seq<Event>)
    ensures if Taken(es) == [] then Run(es).totalCheckouts == None && Run(es).lastTotalCheckoutTime == None
            else var last := Taken(es)[|Taken(es)| - 1];
                 Run(es).totalCheckouts == Some(last.values[0]) && Run(es).lastTotalCheckoutTime == Some(last.time)
  {
    if es != [] {
      TotalIsLastTaken(es[..|es| - 1]);
      TakeOne(Run(es[..|es| - 1]), es[|es| - 1]);
    }
  }

  lemma {:induction false} TotalComesWithTime(es: seq<Event>)
    ensures Run(es).totalCheckouts.Some? <==> Run(es).lastTotalCheckoutTime.Some?
  {
    TotalIsLastTaken(es);
  }

  /** After any run, a report makes the rate divide by zero iff the last report taken in
      had the same time, not 0, and a positive total, and this one an interval of 0 or
      less. */
  lemma {:induction false} DividesByZeroIff(es: seq<Event>, r: Report)
    ensures Update(Run(es), r).1.ZeroDivisionError? <==>
            && r.field == "checkouts" && r.values != [] && r.time != 0.0 && r.interval <= 0
            && Taken(es) != []
            && Taken(es)[|Taken(es)| - 1].time == r.time && Taken(es)[|Taken(es)| - 1].values[0] > 0
  {
    TotalIsLastTaken(es);
  }

  /** Whether two reports make a rate. */
  predicate Rates(a: Report, r: Report)
    requires a.values != [] && r.values != []
  {
    a.time != 0.0 && a.values[0] > 0 && r.time - a.time >= r.interval as real
  }

  /** The rate times the time between two reports is the growth between them, where
      these make a rate; otherwise the rate stays what it was. */
  ghost predicate RateFollows(before: Option<real>, after: Option<real>, a: Report, r: Report)
    requires a.values != [] && r.values != []
  {
    if Rates(a, r) then after.Some? && after.value * (r.time - a.time) == (r.values[0] - a.values[0]) as real
    else after == before
  }

  /** After any run, a report that is taken in makes the rate follow from it and the
      report taken in before it; the first one leaves the rate alone. */
  lemma {:induction false} RateTimesTimeIsGrowth(es: seq<Event>, r: Report)
    requires Takes(Run(es), Received(r))
    ensures var before, after := Run(es).checkoutsPerSecond, Run(es + [Received(r)]).checkoutsPerSecond;
      if Taken(es) == [] then after == before else RateFollows(before, after, Taken(es)[|Taken(es)| - 1], r)
  {
    TotalIsLastTaken(es);
    RunAppend(es, Received(r));
    if Taken(es) != [] {
      RateOfStep(Run(es), r, Taken(es)[|Taken(es)| - 1]);
    }
  }

  lemma RateOfStep(p: Prog, r: Report, a: Report)
    requires Takes(p, Received(r)) && a.values != []
    requires p.totalCheckouts == Some(a.values[0]) && p.lastTotalCheckoutTime == Some(a.time)
    ensures RateFollows(p.checkoutsPerSecond, Step(p, Received(r)).checkoutsPerSecond, a, r)
  {
    if Rates(a, r) {
      assert Step(p, Received(r)).checkoutsPerSecond == Some((r.values[0] - a.values[0]) as real / (r.time - a.time));
      DivideThenMultiply((r.values[0] - a.values[0]) as real, r.time - a.time);
    }
  }

  lemma DivideThenMultiply(a: real, b: real)
    requires b != 0.0
    ensures a / b * b == a
  {
  }

  /** The growth figures that were shown, added up. */
  ghost function ShownCheckouts(es: seq<Event>): int {
    if es == [] then 0
    else
      var front, e := es[..|es| - 1], es[|es| - 1];
      ShownCheckouts(front) + if Takes(Run(front), e) && Taken(front) != [] then Run(es).intervalCheckouts.GetOr(0) else 0
  }

  ghost function ShownConnects(es: seq<Event>): int {
    if es == [] then 0
    else
      var front, e := es[..|es| - 1], es[|es| - 1];
      ShownConnects(front)
      + if Counts(e, "connects") && Run(front).totalConnects.Some? then Run(es).intervalConnects.GetOr(0) else 0
  }

  function Growth(xs: seq<int>): int {
    if xs == [] then 0 else xs[|xs| - 1] - xs[0]
  }

  function Last(xs: seq<int>): Option<int> {
    if xs == [] then None else Some(xs[|xs| - 1])
  }

  lemma GrowthShown(p: Prog, e: Event, last: int, time: real)
    requires Takes(p, e) && p.totalCheckouts == Some(last) && p.lastTotalCheckoutTime == Some(time) && time != 0.0
    ensures Step(p, e).intervalCheckouts == Some(e.r.values[0] - last)
  {
  }

  /** The interval figures telescope over the reports taken in: together they are the
      last total less the first. A time of 0 would be taken for none. */
  lemma {:induction false} CheckoutsTelescope(es: seq<Event>)
    requires forall r :: r in Taken(es) ==> r.time != 0.0
    ensures ShownCheckouts(es) ==
            if Taken(es) == [] then 0 else Taken(es)[|Taken(es)| - 1].values[0] - Taken(es)[0].values[0]
  {
    if es != [] {
      var front, e := es[..|es| - 1], es[|es| - 1];
      assert forall r :: r in Taken(front) ==> r in Taken(es);
      CheckoutsTelescope(front);
      TotalIsLastTaken(front);
      if Takes(Run(front), e) && Taken(front) != [] {
        var last := Taken(front)[|Taken(front)| - 1];
        assert last in Taken(front);
        GrowthShown(Run(front), e, last.values[0], last.time);
      }
    }
  }

  lemma ConnectsStep(p: Prog, e: Event)
    ensures var q := Step(p, e);
      if Counts(e, "connects")
      then q.totalConnects == Some(e.r.values[0])
           && (p.totalConnects.Some? ==> q.intervalConnects == Some(e.r.values[0] - p.totalConnects.value))
      else q.totalConnects == p.totalConnects
  {
  }

  lemma {:induction false} ConnectsTelescope(es: seq<Event>)
    ensures ShownConnects(es) == Growth(ValuesOf(es, "connects"))
    ensures Run(es).totalConnects == Last(ValuesOf(es, "connects"))
  {
    if es != [] {
      ConnectsTelescope(es[..|es| - 1]);
      ConnectsStep(Run(es[..|es| - 1]), es[|es| - 1]);
    }
  }

  // ----- All programs, as time passes -----

  type Key = (string, string)

  function Age(p: Prog, now: real): real {
    now - p.lastTime
  }

  /** One ageing pass: too old programs go, old ones are set to zero. */
  function Aged(m: map<Key, Prog>, now: real): map<Key, Prog> {
    map k | k in m && Age(m[k], now) <= (m[k].interval * 5) as real ::
      if Age(m[k], now) > (m[k].interval * 2) as real then Kill(m[k]) else m[k]
  }

  /** The pass at one program, and the pass with some programs still to come. */
  function AgedAt(m: map<Key, Prog>, k: Key, now: real): map<Key, Prog>
    requires k in m
  {
    if Age(m[k], now) > (m[k].interval * 5) as real then m - {k}
    else if Age(m[k], now) > (m[k].interval * 2) as real then m[k := Kill(m[k])]
    else m
  }

  function AgedBut(m: map<Key, Prog>, todo: set<Key>, now: real): map<Key, Prog> {
    map k | k in m && (k in todo || k in Aged(m, now)) :: if k in todo then m[k] else Aged(m, now)[k]
  }

  lemma AgedButOne(m: map<Key, Prog>, todo: set<Key>, k: Key, now: real)
    requires todo <= m.Keys && k in todo
    ensures AgedAt(AgedBut(m, todo, now), k, now) == AgedBut(m, todo - {k}, now)
    ensures AgedBut(m, m.Keys, now) == m && AgedBut(m, {}, now) == Aged(m, now)
  {
  }

  /** A program or host not seen before starts with nothing. */
  function Entered<K(==)>(m: map<K, Prog>, k: K): (n: map<K, Prog>)
    ensures k in n
  {
    if k in m then m else m[k := NEW_PROG]
  }

  /** One message about program or host `k`. */
  function Told<K(==)>(m: map<K, Prog>, k: K, r: Report): map<K, Prog>
    requires k in m
  {
    m[k := Update(m[k], r).0]
  }

  /** One message, filed under its host as a whole or under one of its programs. */
  function Noted(hosts: map<string, Prog>, progs: map<Key, Prog>, h: string, p: Option<string>, r: Report):
    (map<string, Prog>, map<Key, Prog>, Problem)
  {
    if p.GetOr("host") == "host"
    then (Told(Entered(hosts, h), h, r), progs, Update(Entered(hosts, h)[h], r).1)
    else (hosts, Told(Entered(progs, (h, p.value)), (h, p.value), r), Update(Entered(progs, (h, p.value))[(h, p.value)], r).1)
  }

  datatype Figure = Processes | Connections | Checkouts | CheckoutRate

  function FigureOf(p: Prog, f: Figure): real {
    match f
    case Processes => p.processCount.GetOr(0) as real
    case Connections => p.connectionCount.GetOr(0) as real
    case Checkouts => p.checkoutCount.GetOr(0) as real
    case CheckoutRate => p.checkoutsPerSecond.GetOr(0.0)
  }

  /** The sum of a figure over all programs. */
  ghost function SumOf(m: map<Key, Prog>, f: Figure): real {
    if m == map[] then 0.0
    else
      var k :| k in m;
      FigureOf(m[k], f) + SumOf(m - {k}, f)
  }

  lemma {:induction false} SumRemove(m: map<Key, Prog>, f: Figure, k: Key)
    requires k in m
    ensures SumOf(m, f) == FigureOf(m[k], f) + SumOf(m - {k}, f)
    decreases |m|
  {
    var x :| x in m && SumOf(m, f) == FigureOf(m[x], f) + SumOf(m - {x}, f);
    if x != k {
      SumRemove(m - {x}, f, k);
      SumRemove(m - {k}, f, x);
      assert m - {x} - {k} == m - {k} - {x};
    }
  }

  /** The figures of all programs together, and their maxima. */
  datatype Shown = Shown(
    hosts: nat,
    processes: int,
    connections: int,
    checkouts: int,
    checkoutsPerSecond: Option<real>,
    maxHosts: nat,
    maxProcesses: int,
    maxCheckouts: int,
    maxConnections: int)
  {
    function Next(h: nat, p: int, c: int, o: int, rate: real): Shown {
      Shown(h, p, c, o, Some(rate), Max(maxHosts, h), Max(maxProcesses, p), Max(maxCheckouts, o), Max(maxConnections, c))
    }
  }

  /** Figures taken over some programs: the number of their hosts, their four sums, and
      maxima raised to these. */
  ghost predicate SumsUp(before: Shown, after: Shown, m: map<Key, Prog>) {
    && after.hosts == |set k | k in m :: k.0|
    && after.processes as real == SumOf(m, Processes)
    && after.connections as real == SumOf(m, Connections)
    && after.checkouts as real == SumOf(m, Checkouts)
    && after.checkoutsPerSecond == Some(SumOf(m, CheckoutRate))
    && after.maxHosts == Max(before.maxHosts, after.hosts)
    && after.maxProcesses == Max(before.maxProcesses, after.processes)
    && after.maxCheckouts == Max(before.maxCheckouts, after.checkouts)
    && after.maxConnections == Max(before.maxConnections, after.connections)
  }

  lemma {:induction false} NextSumsUp(before: Shown, m: map<Key, Prog>, p: int, c: int, o: int, rate: real)
    requires p as real == SumOf(m, Processes) && c as real == SumOf(m, Connections)
    requires o as real == SumOf(m, Checkouts) && rate == SumOf(m, CheckoutRate)
    ensures SumsUp(before, before.Next(|set k | k in m :: k.0|, p, c, o, rate), m)
  {
  }

  function Recent(m: map<Key, Prog>, now: real): map<Key, Prog> {
    map k | k in m && Age(m[k], now) <= (m[k].interval * 5) as real && Age(m[k], now) <= (m[k].interval * 2) as real :: m[k]
  }

  lemma AgedWithout(m: map<Key, Prog>, now: real, k: Key)
    ensures Aged(m - {k}, now) == Aged(m, now) - {k}
    ensures Recent(m - {k}, now) == Recent(m, now) - {k}
  {
  }

  lemma {:induction false} AgedSumsOne(m: map<Key, Prog>, now: real, f: Figure, k: Key)
    requires k in m
    ensures SumOf(Aged(m, now), f) - SumOf(Aged(m - {k}, now), f) == SumOf(Recent(m, now), f) - SumOf(Recent(m - {k}, now), f)
  {
    AgedWithout(m, now, k);
    if k in Aged(m, now) {
      SumRemove(Aged(m, now), f, k);
    } else {
      assert Aged(m, now) - {k} == Aged(m, now);
    }
    if k in Recent(m, now) {
      SumRemove(Recent(m, now), f, k);
    } else {
      assert Recent(m, now) - {k} == Recent(m, now);
    }
  }

  /** After an ageing pass no survivor is older than five intervals, and until another
      message comes the sums are those of the programs heard of within two. */
  lemma {:induction false} AgedSums(m: map<Key, Prog>, now: real, f: Figure)
    ensures forall k :: k in Aged(m, now) ==> Age(Aged(m, now)[k], now) <= (Aged(m, now)[k].interval * 5) as real
    ensures SumOf(Aged(m, now), f) == SumOf(Recent(m, now), f)
    decreases |m|
  {
    if m == map[] {
      assert Aged(m, now) == map[] && Recent(m, now) == map[];
    } else {
      var k :| k in m;
      AgedSums(m - {k}, now, f);
      AgedSumsOne(m, now, f, k);
    }
  }

  // ----- Runs of the console -----

  /** A message about a host or one of its programs, or an ageing pass. */
  datatype Happening = Message(host: string, program: Option<string>, r: Report) | Ageing(now: real)

  function Advance(hosts: map<string, Prog>, progs: map<Key, Prog>, x: Happening): (map<string, Prog>, map<Key, Prog>) {
    match x
    case Message(h, p, r) =>
      var (hosts', progs', _) := Noted(hosts, progs, h, p, r);
      (hosts', progs')
    case Ageing(now) => (hosts, Aged(progs, now))
  }

  /** Hosts and programs after a run. */
  function After(xs: seq<Happening>): (map<string, Prog>, map<Key, Prog>) {
    if xs == [] then (map[], map[])
    else
      var (hosts, progs) := After(xs[..|xs| - 1]);
      Advance(hosts, progs, xs[|xs| - 1])
  }

  lemma {:induction false} AfterAppend(xs: seq<Happening>, x: Happening)
    ensures After(xs + [x]) == Advance(After(xs).0, After(xs).1, x)
  {
    assert (xs + [x])[..|xs|] == xs;
  }

  predicate AboutProgram(x: Happening, k: Key) {
    x.Message? && x.program.GetOr("host") != "host" && (x.host, x.program.value) == k
  }

  predicate AboutHost(x: Happening, h: string) {
    x.Message? && x.program.GetOr("host") == "host" && x.host == h
  }

  /** The messages and kills of one program since it was last entered, told without any
      other program; None while it is not known. */
  function OwnEvents(xs: seq<Happening>, k: Key): Option<seq<Event>> {
    if xs == [] then None
    else
      var before, x := OwnEvents(xs[..|xs| - 1], k), xs[|xs| - 1];
      if AboutProgram(x, k) then Some(before.GetOr([]) + [Received(x.r)])
      else if x.Message? || before.None? then before
      else
        var (t, interval) := LastHeard(before.value);
        if x.now > t + (5 * interval) as real then None
        else if x.now > t + (2 * interval) as real then Some(before.value + [Killed])
        else before
  }

  /** All messages about a host as a whole. */
  function HostEvents(xs: seq<Happening>, h: string): seq<Event> {
    if xs == [] then []
    else HostEvents(xs[..|xs| - 1], h) + if AboutHost(xs[|xs| - 1], h) then [Received(xs[|xs| - 1].r)] else []
  }

  lemma ProgramAdvances(hosts: map<string, Prog>, progs: map<Key, Prog>, x: Happening, k: Key)
    ensures var after := Advance(hosts, progs, x).1;
      if AboutProgram(x, k) then k in after && after[k] == Update(Entered(progs, k)[k], x.r).0
      else if x.Message? then (k in after <==> k in progs) && (k in progs ==> after[k] == progs[k])
      else (k in after <==> k in Aged(progs, x.now)) && (k in after ==> after[k] == Aged(progs, x.now)[k])
  {
  }

  /** After any run of messages and ageing passes, the programs shown are those that are
      known, and each is where its own messages and kills since it was last entered lead
      to, whatever came about others. */
  lemma {:induction false} ProgramsAreTheirOwn(xs: seq<Happening>, k: Key)
    ensures k in After(xs).1 <==> OwnEvents(xs, k).Some?
    ensures k in After(xs).1 ==> After(xs).1[k] == Run(OwnEvents(xs, k).value)
  {
    if xs != [] {
      var front, x := xs[..|xs| - 1], xs[|xs| - 1];
      ProgramsAreTheirOwn(front, k);
      ProgramAdvances(After(front).0, After(front).1, x, k);
      var before := OwnEvents(front, k).GetOr([]);
      TimeIsLastHeard(before);
      if AboutProgram(x, k) {
        RunAppend(before, Received(x.r));
      } else {
        RunAppend(before, Killed);
      }
    }
  }

  /** Message `m` is the last about the program. */
  ghost predicate LastAbout(xs: seq<Happening>, k: Key, m: int) {
    0 <= m < |xs| && AboutProgram(xs[m], k) && forall j :: m < j < |xs| ==> !AboutProgram(xs[j], k)
  }

  /** The program's messages and kills up to its message `m`, since it was last entered. */
  function UpTo(xs: seq<Happening>, k: Key, m: nat): seq<Event>
    requires m < |xs|
  {
    OwnEvents(xs[..m + 1], k).GetOr([])
  }

  /** No ageing pass since message `m` came later than five intervals, of the last report
      heard, after that report. */
  ghost predicate NotOutlived(xs: seq<Happening>, k: Key, m: nat)
    requires m < |xs|
  {
    var (t, interval) := LastHeard(UpTo(xs, k, m));
    forall j :: m < j < |xs| && xs[j].Ageing? ==> xs[j].now <= t + (5 * interval) as real
  }

  lemma KillKeepsTime(es: seq<Event>)
    ensures LastHeard(es + [Killed]) == LastHeard(es)
  {
    assert (es + [Killed])[..|es|] == es;
    assert Heard(es + [Killed]) == Heard(es);
  }

  lemma {:induction false} SinceLastMessage(xs: seq<Happening>, k: Key, m: nat)
    requires LastAbout(xs, k, m)
    ensures OwnEvents(xs, k).Some? <==> NotOutlived(xs, k, m)
    ensures OwnEvents(xs, k).Some? ==> LastHeard(OwnEvents(xs, k).value) == LastHeard(UpTo(xs, k, m))
  {
    if m == |xs| - 1 {
      assert xs[..m + 1] == xs;
    } else {
      var front, x := xs[..|xs| - 1], xs[|xs| - 1];
      SinceLastMessage(front, k, m);
      assert front[..m + 1] == xs[..m + 1];
      NotOutlivedLonger(xs, k, m);
      if OwnEvents(front, k).Some? {
        KillKeepsTime(OwnEvents(front, k).value);
      }
    }
  }

  lemma NotOutlivedLonger(xs: seq<Happening>, k: Key, m: nat)
    requires m < |xs| - 1
    ensures var front, x := xs[..|xs| - 1], xs[|xs| - 1];
      var (t, interval) := LastHeard(UpTo(xs, k, m));
      NotOutlived(xs, k, m) <==> NotOutlived(front, k, m) && (x.Ageing? ==> x.now <= t + (5 * interval) as real)
  {
    var front := xs[..|xs| - 1];
    assert front[..m + 1] == xs[..m + 1];
    if NotOutlived(xs, k, m) {
      forall j | m < j < |front| && front[j].Ageing? ensures xs[j] == front[j] {
      }
    }
  }

  lemma {:induction false} NeverHeardOf(xs: seq<Happening>, k: Key)
    requires forall m :: !LastAbout(xs, k, m)
    ensures OwnEvents(xs, k) == None
  {
    if xs != [] {
      var front := xs[..|xs| - 1];
      assert !LastAbout(xs, k, |xs| - 1);
      forall m ensures !LastAbout(front, k, m) {
        assert !LastAbout(xs, k, m);
      }
      NeverHeardOf(front, k);
    }
  }

  /** A program is known iff it has had a message and no ageing pass since its last one
      came more than five intervals, of the last report heard, after that report. */
  lemma {:induction false} KnownIff(xs: seq<Happening>, k: Key)
    ensures k in After(xs).1 <==> exists m: nat :: LastAbout(xs, k, m) && NotOutlived(xs, k, m)
  {
    ProgramsAreTheirOwn(xs, k);
    if m: nat :| LastAbout(xs, k, m) {
      SinceLastMessage(xs, k, m);
      forall n: nat | LastAbout(xs, k, n) ensures n == m {
      }
    } else {
      forall m ensures !LastAbout(xs, k, m) {
      }
      NeverHeardOf(xs, k);
    }
  }

  /** An ageing pass zeroes the current figures of a program it leaves iff it comes more
      than two intervals, of the last report heard, after that report. */
  lemma {:induction false} ZeroedIff(xs: seq<Happening>, now: real, k: Key)
    requires k in After(xs + [Ageing(now)]).1
    ensures OwnEvents(xs, k).Some? && k in After(xs).1
    ensures var p, q := After(xs).1[k], After(xs + [Ageing(now)]).1[k];
      var (t, interval) := LastHeard(OwnEvents(xs, k).value);
      if now > t + (2 * interval) as real
      then q == p.(processCount := Some(0), connectionCount := Some(0), checkoutCount := Some(0), checkoutsPerSecond := Some(0.0))
      else q == p
  {
    AfterAppend(xs, Ageing(now));
    ProgramsAreTheirOwn(xs, k);
    TimeIsLastHeard(OwnEvents(xs, k).value);
  }

  /** The figures the console shows for a program are its own current ones. */
  lemma {:induction false} ShownFigures(xs: seq<Happening>, k: Key)
    requires k in After(xs).1
    ensures OwnEvents(xs, k).Some?
    ensures var es, p := OwnEvents(xs, k).value, After(xs).1[k];
      && FigureOf(p, Processes) == Current(es, "numprocs").GetOr(0) as real
      && FigureOf(p, Connections) == Current(es, "connections").GetOr(0) as real
      && FigureOf(p, Checkouts) == Current(es, "checkedout").GetOr(0) as real
      && FigureOf(p, CheckoutRate) == p.checkoutsPerSecond.GetOr(0.0)
  {
    ProgramsAreTheirOwn(xs, k);
    FiguresAreCurrent(OwnEvents(xs, k).value);
  }

  lemma HostAdvances(hosts: map<string, Prog>, progs: map<Key, Prog>, x: Happening, h: string)
    ensures var after := Advance(hosts, progs, x).0;
      if AboutHost(x, h) then h in after && after[h] == Update(Entered(hosts, h)[h], x.r).0
      else (h in after <==> h in hosts) && (h in hosts ==> after[h] == hosts[h])
  {
  }

  /** And each host is where all the messages about it as a whole lead to. */
  lemma {:induction false} HostsAreTheirOwn(xs: seq<Happening>, h: string)
    ensures h in After(xs).0 <==> HostEvents(xs, h) != []
    ensures h in After(xs).0 ==> After(xs).0[h] == Run(HostEvents(xs, h))
  {
    if xs != [] {
      var front, x := xs[..|xs| - 1], xs[|xs| - 1];
      HostsAreTheirOwn(front, h);
      HostAdvances(After(front).0, After(front).1, x, h);
      if AboutHost(x, h) {
        RunAppend(HostEvents(front, h), Received(x.r));
      } else {
        assert HostEvents(xs, h) == HostEvents(front, h);
      }
    }
  }

  /** So the maxima the console shows for a program are the greatest of 0 and the values
      it received since it was last entered. */
  lemma {:induction false} ShownMaxima(xs: seq<Happening>, k: Key)
    requires k in After(xs).1
    ensures OwnEvents(xs, k).Some?
    ensures var es, p := OwnEvents(xs, k).value, After(xs).1[k];
      && IsHighWater(p.maxProcessCount, ValuesOf(es, "numprocs"))
      && IsHighWater(p.maxCheckedout, ValuesOf(es, "checkedout"))
      && IsHighWater(p.maxConnections, ValuesOf(es, "connections"))
  {
    ProgramsAreTheirOwn(xs, k);
    MaximaAreHighWater(OwnEvents(xs, k).value);
  }
}

/** connmon/stat.py, `HostProg` and `Stat`. */
module Console {
  import opened Wrappers
  import opened ConsoleFigures

  class HostProg {
    const hostname: string
    const progname: Option<string>
    var lastTime: real
    var checkoutCount: Option<int>
    var maxCheckedout: int
    var processCount: Option<int>
    var maxProcessCount: int
    var connectionCount: Option<int>
    var maxConnections: int
    var totalConnects: Option<int>
    var intervalConnects: Option<int>
    var totalCheckouts: Option<int>
    var intervalCheckouts: Option<int>
    var lastTotalCheckoutTime: Option<real>
    var checkoutsPerSecond: Option<real>
    var interval: int
    ghost var events: seq<Event>

    function State(): Prog
      reads this
    {
      Prog(lastTime, checkoutCount, maxCheckedout, processCount, maxProcessCount, connectionCount, maxConnections,
           totalConnects, intervalConnects, totalCheckouts, intervalCheckouts, lastTotalCheckoutTime,
           checkoutsPerSecond, interval)
    }

    /** The figures are where the program's own messages and ageing lead to. */
    ghost predicate Valid()
      reads this
    {
      State() == Run(events)
    }

    constructor (hostname: string, progname: Option<string>)
      ensures this.hostname == hostname && this.progname == progname
      ensures Valid() && events == []
    {
      this.hostname, this.progname := hostname, progname;
      lastTime, interval, events := 0.0, 0, [];
      checkoutCount, processCount, connectionCount := None, None, None;
      maxCheckedout, maxProcessCount, maxConnections := 0, 0, 0;
      totalConnects, intervalConnects, totalCheckouts, intervalCheckouts := None, None, None, None;
      lastTotalCheckoutTime, checkoutsPerSecond := None, None;
    }

    ghost method Log(e: Event)
      modifies this`events
      ensures events == old(events) + [e] && Run(events) == Step(Run(old(events)), e)
    {
      events := events + [e];
      assert events[..|events| - 1] == old(events);
    }

    method KillProcesses()
      requires Valid()
      modifies this
      ensures Valid() && events == old(events) + [Killed] && State() == Kill(old(State()))
    {
      Log(Killed);
      processCount, connectionCount, checkoutCount := Some(0), Some(0), Some(0);
      checkoutsPerSecond := Some(0.0);
    }

    method UpdateTotalCheckouts(x: int, time: real, sendInterval: int) returns (problem: Problem)
      modifies this
      ensures (State(), problem) == UpdateCheckouts(old(State()), x, time, sendInterval) && events == old(events)
    {
      if lastTotalCheckoutTime.GetOr(0.0) != 0.0 {
        intervalCheckouts := Some(x - totalCheckouts.GetOr(0));
        var timeDelta := time - lastTotalCheckoutTime.value;
        if timeDelta >= sendInterval as real && totalCheckouts.GetOr(0) > 0 {
          if timeDelta == 0.0 {
            return ZeroDivisionError;
          }
          checkoutsPerSecond := Some(intervalCheckouts.value as real / timeDelta);
        }
      }
      totalCheckouts := Some(x);
      lastTotalCheckoutTime := Some(time);
      return Fine;
    }

    /** The updater registered for a field. */
    method UpdateField(field: string, x: int, time: real, sendInterval: int) returns (problem: Problem)
      modifies this
      ensures (State(), problem) == ConsoleFigures.UpdateField(old(State()), field, x, time, sendInterval)
      ensures events == old(events)
    {
      problem := Fine;
      if field == "numprocs" {
        processCount := Some(x);
        maxProcessCount := Max(x, maxProcessCount);
      } else if field == "checkedout" {
        checkoutCount := Some(x);
        maxCheckedout := Max(maxCheckedout, x);
      } else if field == "connections" {
        connectionCount := Some(x);
        maxConnections := Max(maxConnections, x);
      } else if field == "connects" {
        if totalConnects.Some? {
          intervalConnects := Some(x - totalConnects.value);
        }
        totalConnects := Some(x);
      } else if field == "checkouts" {
        problem := UpdateTotalCheckouts(x, time, sendInterval);
      }
    }

    /** Everything `_update` does to the program it has found. */
    method Receive(r: Report) returns (problem: Problem)
      requires Valid()
      modifies this
      ensures Valid() && events == old(events) + [Received(r)] && (State(), problem) == Update(old(State()), r)
    {
      Log(Received(r));
      if r.field !in FIELDS {
        return Fine;
      }
      if r.values == [] {
        return IndexError;
      }
      problem := UpdateField(r.field, r.values[0], r.time, r.interval);
      if problem.Fine? {
        interval, lastTime := r.interval, r.time;
      }
    }
  }

  class Stat {
    var hostprogs: map<Key, HostProg>
    var hosts: map<string, HostProg>
    var hostCount: nat
    var processCount: int
    var connectionCount: int
    var checkoutCount: int
    var checkoutsPerSecond: Option<real>
    var maxHostCount: nat
    var maxProcessCount: int
    var maxCheckedout: int
    var maxConnections: int

    ghost var happenings: seq<Happening>

    /** Programs sit under their own names, so that no two entries share an object. */
    ghost predicate Sound()
      reads `hostprogs, `hosts, hostprogs.Values, hosts.Values
    {
      && (forall k :: k in hostprogs ==> hostprogs[k].hostname == k.0 && hostprogs[k].progname == Some(k.1) && hostprogs[k].Valid())
      && (forall h :: h in hosts ==> hosts[h].hostname == h && hosts[h].progname == None && hosts[h].Valid())
    }

    /** Hosts and programs are where the messages and ageing passes so far lead to. */
    ghost predicate Valid()
      reads `hostprogs, `hosts, `happenings, hostprogs.Values, hosts.Values
    {
      Sound() && (Hosts(), Progs()) == After(happenings)
    }

    function Progs(): map<Key, Prog>
      reads `hostprogs, hostprogs.Values
    {
      map k | k in hostprogs :: hostprogs[k].State()
    }

    function Hosts(): map<string, Prog>
      reads `hosts, hosts.Values
    {
      map h | h in hosts :: hosts[h].State()
    }

    constructor ()
      ensures Valid() && happenings == []
      ensures Totals() == Shown(0, 0, 0, 0, None, 0, 0, 0, 0)
    {
      hostprogs, hosts, checkoutsPerSecond, happenings := map[], map[], None, [];
      hostCount, processCount, connectionCount, checkoutCount := 0, 0, 0, 0;
      maxHostCount, maxProcessCount, maxCheckedout, maxConnections := 0, 0, 0, 0;
    }

    twostate lemma OneMoved(k: Key)
      requires hostprogs == old(hostprogs) && k in hostprogs
      requires forall x :: x in hostprogs ==> old(allocated(hostprogs[x]))
      requires forall x :: x in hostprogs && x != k ==> hostprogs[x].State() == old(hostprogs[x].State())
      ensures Progs() == old(Progs())[k := hostprogs[k].State()]
    {
    }

    twostate lemma NoneMoved()
      requires unchanged(this`hostprogs, this`hosts, old(hostprogs.Values), old(hosts.Values))
      ensures Progs() == old(Progs()) && Hosts() == old(Hosts())
      ensures old(Sound()) ==> Sound()
    {
    }

    method KillOne(k: Key)
      requires Sound() && k in hostprogs
      modifies hostprogs[k]
      ensures Sound() && Progs() == old(Progs())[k := Kill(old(Progs())[k])] && Hosts() == old(Hosts())
    {
      hostprogs[k].KillProcesses();
      assert forall x :: x in hostprogs && x != k ==> hostprogs[x] != hostprogs[k];
      assert forall h :: h in hosts ==> hosts[h] != hostprogs[k];
      OneMoved(k);
      assert Hosts() == old(Hosts());
    }

    method DropOne(k: Key)
      requires Sound()
      modifies this`hostprogs
      ensures Sound() && hostprogs == old(hostprogs) - {k}
      ensures Progs() == old(Progs()) - {k} && Hosts() == old(Hosts())
    {
      hostprogs := hostprogs - {k};
      assert Progs() == old(Progs()) - {k};
    }

    /** One turn of the ageing loop. */
    method AgeOne(k: Key, now: real)
      requires Sound() && k in hostprogs
      modifies this`hostprogs, hostprogs[k]
      ensures Sound() && Progs() == AgedAt(old(Progs()), k, now) && Hosts() == old(Hosts())
      ensures forall x :: x in hostprogs ==> x in old(hostprogs) && hostprogs[x] == old(hostprogs)[x]
    {
      var hostprog := hostprogs[k];
      var age := now - hostprog.lastTime;
      if age > (hostprog.interval * 5) as real {
        DropOne(k);
      } else if age > (hostprog.interval * 2) as real {
        KillOne(k);
      }
    }

    /** The ageing half of `_process_hostprogs`. */
    method AgeAll(now: real)
      requires Sound()
      modifies this`hostprogs, hostprogs.Values
      ensures Sound() && Progs() == Aged(old(Progs()), now) && Hosts() == old(Hosts())
    {
      var todo := hostprogs.Keys;
      ghost var m := Progs();
      while todo != {}
        invariant todo <= hostprogs.Keys && Sound()
        invariant forall x :: x in hostprogs ==> x in old(hostprogs) && hostprogs[x] == old(hostprogs)[x]
        invariant Progs() == AgedBut(m, todo, now) && Hosts() == old(Hosts())
        decreases todo
      {
        var k :| k in todo;
        AgedButOne(m, todo, k, now);
        AgeOne(k, now);
        todo := todo - {k};
        assert todo <= AgedBut(m, todo, now).Keys;
      }
    }

    /** `_get_hostprog`, for a program of a host. */
    method GetProgram(hostname: string, progname: string) returns (hostprog: HostProg)
      requires Sound() && progname != "host"
      modifies this`hostprogs
      ensures Sound() && (hostname, progname) in hostprogs && hostprog == hostprogs[(hostname, progname)]
      ensures Progs() == Entered(old(Progs()), (hostname, progname))
      ensures hostprog in old(hostprogs.Values) || fresh(hostprog)
    {
      var k := (hostname, progname);
      if k !in hostprogs {
        hostprog := new HostProg(hostname, Some(progname));
        hostprogs := hostprogs[k := hostprog];
        assert Progs() == Entered(old(Progs()), k);
      } else {
        hostprog := hostprogs[k];
        assert Progs() == old(Progs());
      }
    }

    /** One message to a program that is already there. */
    method Deliver(k: Key, r: Report) returns (problem: Problem)
      requires Sound() && k in hostprogs
      modifies hostprogs[k]
      ensures Sound() && Progs() == Told(old(Progs()), k, r) && Hosts() == old(Hosts())
      ensures problem == ConsoleFigures.Update(old(Progs())[k], r).1
    {
      problem := hostprogs[k].Receive(r);
      assert forall x :: x in hostprogs && x != k ==> hostprogs[x] != hostprogs[k];
      assert forall h :: h in hosts ==> hosts[h] != hostprogs[k];
      OneMoved(k);
      assert Hosts() == old(Hosts());
    }

    /** `_update`, for a message about a program of a host. */
    method UpdateProgram(hostname: string, progname: string, r: Report) returns (problem: Problem)
      requires Sound() && progname != "host"
      modifies this`hostprogs, hostprogs.Values
      ensures Sound() && Hosts() == old(Hosts())
      ensures Progs() == Told(Entered(old(Progs()), (hostname, progname)), (hostname, progname), r)
      ensures problem == ConsoleFigures.Update(Entered(old(Progs()), (hostname, progname))[(hostname, progname)], r).1
    {
      var _ := GetProgram(hostname, progname);
      assert Hosts() == old(Hosts());
      problem := Deliver((hostname, progname), r);
    }

    /** `_get_hostprog`, for a host as a whole. */
    method GetHost(hostname: string) returns (hostprog: HostProg)
      requires Sound()
      modifies this`hosts
      ensures Sound() && hostname in hosts && hostprog == hosts[hostname]
      ensures Hosts() == Entered(old(Hosts()), hostname)
      ensures hostprog in old(hosts.Values) || fresh(hostprog)
    {
      if hostname !in hosts {
        hostprog := new HostProg(hostname, None);
        hosts := hosts[hostname := hostprog];
        assert Hosts() == Entered(old(Hosts()), hostname);
      } else {
        hostprog := hosts[hostname];
        assert Hosts() == old(Hosts());
      }
    }

    twostate lemma OneHostMoved(h: string)
      requires hosts == old(hosts) && h in hosts
      requires forall x :: x in hosts ==> old(allocated(hosts[x]))
      requires forall x :: x in hosts && x != h ==> hosts[x].State() == old(hosts[x].State())
      ensures Hosts() == old(Hosts())[h := hosts[h].State()]
    {
    }

    /** One message about a host that is already there; programs are untouched. */
    method DeliverHost(hostname: string, r: Report) returns (problem: Problem)
      requires Sound() && hostname in hosts
      modifies hosts[hostname]
      ensures Sound() && Progs() == old(Progs()) && Hosts() == Told(old(Hosts()), hostname, r)
      ensures problem == ConsoleFigures.Update(old(Hosts())[hostname], r).1
    {
      problem := hosts[hostname].Receive(r);
      assert forall k :: k in hostprogs ==> hostprogs[k] != hosts[hostname];
      assert forall x :: x in hosts && x != hostname ==> hosts[x] != hosts[hostname];
      OneHostMoved(hostname);
      assert Progs() == old(Progs());
    }

    /** `_update`, for a message labelled "host" or not labelled at all. */
    method UpdateHost(hostname: string, r: Report) returns (problem: Problem)
      requires Sound()
      modifies this`hosts, hosts.Values
      ensures Sound() && Progs() == old(Progs())
      ensures Hosts() == Told(Entered(old(Hosts()), hostname), hostname, r)
      ensures problem == ConsoleFigures.Update(Entered(old(Hosts()), hostname)[hostname], r).1
    {
      var _ := GetHost(hostname);
      assert Progs() == old(Progs());
      problem := DeliverHost(hostname, r);
    }

    /** A message without a program, or for the program "host", is about the host as a
        whole. */
    method Dispatch(hostname: string, progname: Option<string>, r: Report) returns (problem: Problem)
      requires Sound()
      modifies this`hostprogs, this`hosts, hostprogs.Values, hosts.Values
      ensures Sound()
      ensures (Hosts(), Progs(), problem) == Noted(old(Hosts()), old(Progs()), hostname, progname, r)
    {
      if progname.GetOr("host") == "host" {
        problem := UpdateHost(hostname, r);
      } else {
        problem := UpdateProgram(hostname, progname.value, r);
      }
    }

    ghost method Log(x: Happening)
      requires Sound() && (Hosts(), Progs()) == Advance(After(happenings).0, After(happenings).1, x)
      modifies this`happenings
      ensures Valid() && happenings == old(happenings) + [x]
      ensures Hosts() == old(Hosts()) && Progs() == old(Progs())
    {
      var xs := happenings + [x];
      AfterAppend(happenings, x);
      assert (Hosts(), Progs()) == After(xs);
      happenings := xs;
      NoneMoved();
    }

    /** `_update`, for one message received. */
    method Update(hostname: string, progname: Option<string>, r: Report) returns (problem: Problem)
      requires Valid()
      modifies this`hostprogs, this`hosts, this`happenings, hostprogs.Values, hosts.Values
      ensures Valid() && happenings == old(happenings) + [Message(hostname, progname, r)]
      ensures (Hosts(), Progs(), problem) == Noted(old(Hosts()), old(Progs()), hostname, progname, r)
    {
      problem := Dispatch(hostname, progname, r);
      Log(Message(hostname, progname, r));
    }

    /** The four sums of `update_host_stats`, taken over the programs' figures. */
    static method Sums(progs: map<Key, Prog>) returns (processes: int, connections: int, checkouts: int, rate: real)
      ensures processes as real == SumOf(progs, Processes)
      ensures connections as real == SumOf(progs, Connections)
      ensures checkouts as real == SumOf(progs, Checkouts)
      ensures rate == SumOf(progs, CheckoutRate)
    {
      processes, connections, checkouts, rate := 0, 0, 0, 0.0;
      var left := progs;
      while left != map[]
        invariant processes as real + SumOf(left, Processes) == SumOf(progs, Processes)
        invariant connections as real + SumOf(left, Connections) == SumOf(progs, Connections)
        invariant checkouts as real + SumOf(left, Checkouts) == SumOf(progs, Checkouts)
        invariant rate + SumOf(left, CheckoutRate) == SumOf(progs, CheckoutRate)
        decreases |left|
      {
        var k :| k in left;
        SumRemove(left, Processes, k);
        SumRemove(left, Connections, k);
        SumRemove(left, Checkouts, k);
        SumRemove(left, CheckoutRate, k);
        processes := processes + left[k].processCount.GetOr(0);
        connections := connections + left[k].connectionCount.GetOr(0);
        checkouts := checkouts + left[k].checkoutCount.GetOr(0);
        rate := rate + left[k].checkoutsPerSecond.GetOr(0.0);
        left := left - {k};
      }
    }

    /** What the console shows of all programs together. */
    function Totals(): Shown
      reads `hostCount, `processCount, `connectionCount, `checkoutCount, `checkoutsPerSecond,
            `maxHostCount, `maxProcessCount, `maxCheckedout, `maxConnections
    {
      Shown(hostCount, processCount, connectionCount, checkoutCount, checkoutsPerSecond,
            maxHostCount, maxProcessCount, maxCheckedout, maxConnections)
    }

    /** The assignments of `update_host_stats`. */
    method SetFigures(hosts: nat, processes: int, connections: int, checkouts: int, rate: real)
      modifies this`hostCount, this`processCount, this`connectionCount, this`checkoutCount, this`checkoutsPerSecond,
               this`maxHostCount, this`maxProcessCount, this`maxCheckedout, this`maxConnections
      ensures Totals() == old(Totals()).Next(hosts, processes, connections, checkouts, rate)
    {
      hostCount, processCount, connectionCount, checkoutCount := hosts, processes, connections, checkouts;
      checkoutsPerSecond := Some(rate);
      maxHostCount, maxProcessCount := Max(maxHostCount, hosts), Max(maxProcessCount, processes);
      maxCheckedout, maxConnections := Max(maxCheckedout, checkouts), Max(maxConnections, connections);
    }

    /** `update_host_stats`. */
    method UpdateHostStats()
      modifies this`hostCount, this`processCount, this`connectionCount, this`checkoutCount, this`checkoutsPerSecond,
               this`maxHostCount, this`maxProcessCount, this`maxCheckedout, this`maxConnections
      ensures Progs() == old(Progs()) && Hosts() == old(Hosts()) && (old(Sound()) ==> Sound())
      ensures SumsUp(old(Totals()), Totals(), old(Progs()))
    {
      var progs := Progs();
      var processes, connections, checkouts, rate := Sums(progs);
      NextSumsUp(Totals(), progs, processes, connections, checkouts, rate);
      SetFigures(|set k | k in progs :: k.0|, processes, connections, checkouts, rate);
      NoneMoved();
    }

    /** First the sums, then the ageing. */
    method SumAndAge(now: real)
      requires Sound()
      modifies this`hostprogs, this`hostCount, this`processCount, this`connectionCount, this`checkoutCount,
               this`checkoutsPerSecond, this`maxHostCount, this`maxProcessCount, this`maxCheckedout, this`maxConnections,
               hostprogs.Values
      ensures Sound() && Progs() == Aged(old(Progs()), now) && Hosts() == old(Hosts())
      ensures SumsUp(old(Totals()), Totals(), old(Progs()))
    {
      UpdateHostStats();
      AgeAll(now);
    }

    /** One turn of `_process_hostprogs`. */
    method ProcessHostprogs(now: real)
      requires Valid()
      modifies this, hostprogs.Values
      ensures Valid() && happenings == old(happenings) + [Ageing(now)]
      ensures Progs() == Aged(old(Progs()), now) && Hosts() == old(Hosts())
      ensures SumsUp(old(Totals()), Totals(), old(Progs()))
    {
      SumAndAge(now);
      Log(Ageing(now));
    }
  }
}
