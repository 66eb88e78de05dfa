/** Sender timing against bucket expiry: when a process that keeps sending stays counted. */
module Freshness {
  import opened Wrappers
  import opened Protocol
  import opened Expiry
  import opened Grouping
  import opened Aggregation
  import opened RecordInvariant
  import opened SummaryRows
  import opened MessageHistory
  import opened SummaryLaws
  import opened Emissions
  import opened SendLoop

  /** An event at the server, when it happens there, and when its message was sent. */
  datatype Timed = Timed(e: Event, at: real, sent: real)

  function Events(tr: seq<Timed>): (es: seq<Event>)
    ensures |es| == |tr| && forall i :: 0 <= i < |tr| ==> es[i] == tr[i].e
  {
    seq(|tr|, i requires 0 <= i < |tr| => tr[i].e)
  }

  /** Messages are stamped with times that have come and intervals that are not
      negative, and summaries are for the current time. */
  ghost predicate OnTime(x: Timed) {
    x.at >= 0.0 &&
    match x.e
    case Receive(v) => 0.0 <= v.time.value <= x.at && v.interval >= 0
    case Summary(now) => now == x.at
  }

  ghost predicate Timely(tr: seq<Timed>) {
    && (forall i :: 0 <= i < |tr| ==> OnTime(tr[i]))
    && (forall i, j :: 0 <= i < j < |tr| ==> tr[i].at <= tr[j].at)
  }

  lemma TimelyPrefix(tr: seq<Timed>, n: nat)
    requires Timely(tr) && n <= |tr|
    ensures Timely(tr[..n]) && Events(tr[..n]) == Events(tr)[..n]
  {
  }

  lemma TruncBounds(t: real)
    requires t >= 0.0
    ensures 0.0 <= Trunc(t) as real <= t < Trunc(t) as real + 1.0
  {
  }

  lemma TruncOfWhole(n: int)
    ensures Trunc(n as real) == n
  {
  }

  // ----- No summary fails -----

  /** What a bucket's clock has seen lies in the past. */
  ghost predicate Tame(c: Clock, now: real) {
    0.0 <= c.last <= now && c.interval >= 0
  }

  lemma TickTame(cs: Clocks, x: Timed, kind: Kind)
    requires OnTime(x) && forall kind: Kind :: Tame(cs.At(kind), x.at)
    ensures Tame(Tick(cs, x.e).At(kind), x.at)
  {
    assert Tame(cs.At(Pool), x.at) && Tame(cs.At(Totals), x.at) && Tame(cs.At(Process), x.at);
  }

  lemma {:induction false} AlwaysTame(tr: seq<Timed>, now: real)
    requires Timely(tr) && now >= 0.0 && (tr != [] ==> tr[|tr| - 1].at <= now)
    ensures forall kind: Kind :: Tame(ClocksAfter(Events(tr)).At(kind), now)
  {
    if tr != [] {
      var n := |tr| - 1;
      TimelyPrefix(tr, n);
      if n > 0 {
        assert tr[n - 1].at <= tr[n].at;
      }
      AlwaysTame(tr[..n], tr[n].at);
      forall kind: Kind ensures Tame(ClocksAfter(Events(tr)).At(kind), now) {
        TickTame(ClocksAfter(Events(tr[..n])), tr[n], kind);
      }
    }
  }

  lemma TameCompletes(c: Clock, now: real)
    requires Tame(c, now)
    ensures Completes(c, now)
  {
    TruncBounds(c.last);
    TruncBounds(now);
  }

  lemma ClocksComplete(tr: seq<Timed>, n: nat)
    requires Timely(tr) && n < |tr|
    ensures forall kind: Kind :: Completes(ClocksAfter(Events(tr)[..n]).At(kind), tr[n].at)
  {
    TimelyPrefix(tr, n);
    if n > 0 {
      assert tr[n - 1].at <= tr[n].at;
    }
    AlwaysTame(tr[..n], tr[n].at);
    forall kind: Kind ensures Completes(ClocksAfter(Events(tr)[..n]).At(kind), tr[n].at) {
      TameCompletes(ClocksAfter(Events(tr[..n])).At(kind), tr[n].at);
    }
  }

  /** In a timely run every summary runs to its end. */
  lemma SummariesFinish(tr: seq<Timed>, n: nat)
    requires Timely(tr) && n < |tr| && tr[n].e.Summary?
    ensures Summarize(Run(Events(tr)[..n]), tr[n].e.now).1.ending.Finished?
  {
    var front := Events(tr)[..n];
    ClocksComplete(tr, n);
    RunTicks(front);
    RecordsAlwaysMatch(front);
    forall kind: Kind ensures Completes(Run(front).At(kind).clock, tr[n].at) {
      assert Run(front).At(kind).clock == ClocksAfter(front).At(kind);
    }
    SummaryCompletes(Run(front), tr[n].at);
  }

  // ----- A process that keeps sending -----

  /** How a process sends: its interval, the longest gap between two readings of its
      loop's clock, the longest delay of a message, and how many rounds in a row may be
      lost. */
  datatype Sending = Sending(interval: int, gap: real, delay: real, lost: nat)
  {
    ghost predicate Proper() {
      interval > 0 && gap >= 0.0 && delay >= 0.0
    }

    /** The longest time that some turns of sending take. */
    function Turns(n: nat): real {
      n as real * (interval as real + gap)
    }
  }

  /** A message that refreshes the record of `k` in the bucket of `kind`. */
  ghost predicate Reports(x: Timed, kind: Kind, k: Key) {
    && x.e.Receive? && KeyOf(x.e.v) == k
    && if kind.Process? then k.token != "" && KindNamed(x.e.v.typeName).Some? else KindNamed(x.e.v.typeName) == Some(kind)
  }

  /** A report as the process sends it, with the whole seconds of its sending time,
      delivered in time. */
  ghost predicate Punctual(x: Timed, c: Sending) {
    && x.e.Receive? && x.e.v.interval == c.interval && x.e.v.time.value == Trunc(x.sent) as real
    && 0.0 <= x.sent <= x.at <= x.sent + c.delay
  }

  /** Some report sent at the given time gets through. */
  ghost predicate Arrives(tr: seq<Timed>, kind: Kind, k: Key, sent: real) {
    exists n :: 0 <= n < |tr| && Reports(tr[n], kind, k) && tr[n].sent == sent
  }

  /** The reports of `k` are punctual and are those of the given sends, perhaps several
      of one send and perhaps overtaking each other; while later rounds get through, at
      most `lost` in a row do not. */
  ghost predicate Delivered(tr: seq<Timed>, c: Sending, kind: Kind, k: Key, sends: seq<real>) {
    && (forall n :: 0 <= n < |tr| && Reports(tr[n], kind, k) ==> Punctual(tr[n], c) && tr[n].sent in sends)
    && (forall a, b :: 0 <= a < b < |sends| && Arrives(tr, kind, k, sends[a]) && Arrives(tr, kind, k, sends[b]) ==>
                         exists r :: a < r <= a + c.lost + 1 && r < |sends| && Arrives(tr, kind, k, sends[r]))
  }

  /** A run of the server in which the reports of `k` come from a worker loop with the
      given readings of the clock. */
  ghost predicate Watched(tr: seq<Timed>, c: Sending, kind: Kind, k: Key, clock: seq<real>, start: real) {
    && Timely(tr) && Steady(clock, c.gap)
    && Delivered(tr, c, kind, k, SendTimes(clock, c.interval as real, start))
  }

  ghost predicate Present(tr: seq<Timed>, kind: Kind, k: Key, n: nat)
    requires n < |tr|
  {
    k in Run(Events(tr[..n + 1])).At(kind).bucket
  }

  /** From its first report to its last, the process is in the bucket. */
  ghost predicate Stays(tr: seq<Timed>, kind: Kind, k: Key) {
    forall i: nat, n: nat, j: nat :: i <= n <= j < |tr| && Reports(tr[i], kind, k) && Reports(tr[j], kind, k) ==>
                                       Present(tr, kind, k, n)
  }

  // ----- What decides whether it stays -----

  function Lifetime(kind: Kind, interval: int): int {
    if kind.Process? then 5 * interval else 2 * interval
  }

  /** How many rounds later a message can be that overtakes another: the greatest number
      of intervals that make less than the delay. */
  function Overtaken(interval: int, delay: real): nat
    requires interval > 0
    decreases if delay > 0.0 then delay.Floor else 0
  {
    if delay <= interval as real then 0 else 1 + Overtaken(interval, delay - interval as real)
  }

  /** How much older than the newest the last report to arrive can be. */
  function Lead(c: Sending): real
    requires c.interval > 0
  {
    var turns := c.Turns(Overtaken(c.interval, c.delay));
    if turns <= c.delay then turns else c.delay
  }

  /** Messages come soon enough for the server to take them. */
  ghost predicate Prompt(c: Sending) {
    c.delay <= Slack(2 * c.interval) as real
  }

  /** The oldest a report gets, and a second for the truncation, fit the record's slack. */
  ghost predicate Safe(c: Sending, kind: Kind)
    requires c.interval > 0
  {
    Prompt(c) && c.Turns(c.lost + 1) + Lead(c) + c.delay + 1.0 <= Slack(Lifetime(kind, c.interval)) as real
  }

  lemma {:induction false} OvertakenExact(interval: int, delay: real, d: nat)
    requires interval > 0 && delay >= 0.0
    ensures d > 0 ==> (Times(d, interval as real) < delay <==> d <= Overtaken(interval, delay))
    decreases d
  {
    if d > 0 {
      TimesMonotone(0, d - 1, interval as real);
      if delay > interval as real {
        OvertakenExact(interval, delay - interval as real, d - 1);
      }
    }
  }

  // ----- What reports do to the bucket -----

  lemma ReportAdmitted(clock: Clock, c: Sending, x: Timed, slack: int)
    requires c.Proper() && Prompt(c) && Punctual(x, c) && Tame(clock, x.at)
    requires slack >= 2 * c.interval
    ensures clock.Admits(x.e.v.time.value, Some(slack))
  {
    TruncBounds(x.sent);
    TruncOfWhole(Trunc(x.sent));
    TruncBounds(clock.last);
    assert Slack(2 * c.interval) <= Slack(slack);
    assert Trunc(clock.last) as real < Trunc(x.sent) as real + 1.0 + c.delay;
  }

  /** A punctual report is kept, by its own bucket and by the process bucket. */
  lemma ReportKept(cs: Clocks, c: Sending, x: Timed, kind: Kind, k: Key)
    requires c.Proper() && Prompt(c) && Punctual(x, c) && Reports(x, kind, k)
    requires forall kind: Kind :: Tame(cs.At(kind), x.at)
    ensures KeptIn(cs, x.e.v, kind) && Kept(cs, x.e.v, kind).interval == Lifetime(kind, c.interval)
    ensures Kept(cs, x.e.v, kind).ts == Trunc(x.sent) as real
  {
    var own := KindNamed(x.e.v.typeName).value;
    assert Tame(cs.At(own), x.at) && Tame(cs.At(Process), x.at);
    ReportAdmitted(cs.At(own), c, x, c.interval * 2);
    ReportAdmitted(cs.process, c, x, c.interval * 5);
  }

  lemma {:induction false} EffectAt(tr: seq<Timed>, kind: Kind, k: Key, i: nat)
    requires Timely(tr) && i < |tr| && (kind.Process? ==> k.token != "")
    ensures var x, f := tr[i], MessageHistory.Effects(Events(tr), kind)[i];
      && (f.sweep.Some? ==> f.sweep.value <= x.at)
      && (x.e.Summary? ==> f.sweep == Some(x.at))
      && (Stores(f, k) ==> Reports(x, kind, k))
  {
    MessageHistory.EffectsAt(Events(tr), kind, i);
    ClocksComplete(tr, i);
    assert Completes(ClocksAfter(Events(tr)[..i]).At(kind), tr[i].at);
    assert Completes(ClocksAfter(Events(tr)[..i]).At(Pool), tr[i].at) && Completes(ClocksAfter(Events(tr)[..i]).At(Totals), tr[i].at);
  }

  lemma {:induction false} ReportStores(tr: seq<Timed>, c: Sending, kind: Kind, k: Key, i: nat)
    requires c.Proper() && Prompt(c) && Timely(tr) && i < |tr| && Reports(tr[i], kind, k) && Punctual(tr[i], c)
    ensures var f := MessageHistory.Effects(Events(tr), kind)[i];
      && Stores(f, k)
      && f.store.value.1.ts == Trunc(tr[i].sent) as real && f.store.value.1.interval == Lifetime(kind, c.interval)
  {
    MessageHistory.EffectsAt(Events(tr), kind, i);
    TimelyPrefix(tr, i);
    if i > 0 {
      assert tr[i - 1].at <= tr[i].at;
    }
    AlwaysTame(tr[..i], tr[i].at);
    ReportKept(ClocksAfter(Events(tr)[..i]), c, tr[i], kind, k);
  }

  lemma {:induction false} BucketIsEffects(tr: seq<Timed>, kind: Kind, k: Key)
    ensures k in Run(Events(tr)).At(kind).bucket <==> exists i :: Live(MessageHistory.Effects(Events(tr), kind), i, k)
  {
    RunIsEffects(Events(tr), kind);
    PresentIffLive(MessageHistory.Effects(Events(tr), kind), k);
  }

  /** As long as the last report is not too old, its record is there. */
  lemma FreshRecordStays(tr: seq<Timed>, c: Sending, kind: Kind, k: Key, i: nat, age: real)
    requires c.Proper() && Prompt(c) && Timely(tr)
    requires i < |tr| && Reports(tr[i], kind, k) && Punctual(tr[i], c)
    requires forall j :: i < j < |tr| ==> !Reports(tr[j], kind, k) && tr[j].at <= tr[i].sent + age
    requires age + 1.0 <= Slack(Lifetime(kind, c.interval)) as real
    ensures k in Run(Events(tr)).At(kind).bucket
  {
    var fs := MessageHistory.Effects(Events(tr), kind);
    ReportStores(tr, c, kind, k, i);
    TruncBounds(tr[i].sent);
    forall j | i < j < |tr| ensures Spares(fs[j], k, fs[i].store.value.1) {
      EffectAt(tr, kind, k, j);
    }
    assert Live(fs, i, k);
    BucketIsEffects(tr, kind, k);
  }

  /** A summary evicts the record if the last report is too old. */
  lemma OldRecordGoes(tr: seq<Timed>, c: Sending, kind: Kind, k: Key, i: nat)
    requires c.Proper() && Prompt(c) && Timely(tr)
    requires |tr| == i + 2 && Reports(tr[i], kind, k) && Punctual(tr[i], c) && tr[i + 1].e.Summary?
    requires tr[i + 1].at > Trunc(tr[i].sent) as real + Slack(Lifetime(kind, c.interval)) as real
    ensures k !in Run(Events(tr)).At(kind).bucket
  {
    var fs := MessageHistory.Effects(Events(tr), kind);
    ReportStores(tr, c, kind, k, i);
    EffectAt(tr, kind, k, i + 1);
    assert forall x :: !Spares(fs[i], k, x);
    assert !Spares(fs[i + 1], k, fs[i].store.value.1);
    forall j ensures !Live(fs, j, k) {
    }
    BucketIsEffects(tr, kind, k);
  }

  // ----- Enough: a safe process stays -----

  lemma InOrder(sends: seq<real>, c: Sending, a: nat, b: nat)
    requires c.Proper() && Spaced(sends, c.interval as real, c.gap) && a < |sends| && b < |sends|
    ensures a < b <==> sends[a] < sends[b]
  {
    if a < b {
      RoundsApart(sends, c.interval as real, c.gap, a, b);
      TimesMonotone(0, b - a, c.interval as real);
    } else if b < a {
      RoundsApart(sends, c.interval as real, c.gap, b, a);
      TimesMonotone(0, a - b, c.interval as real);
    }
  }

  lemma TurnsApart(sends: seq<real>, c: Sending, a: nat, b: nat, n: nat)
    requires c.Proper() && Spaced(sends, c.interval as real, c.gap) && a < b <= a + n && b < |sends|
    ensures sends[b] <= sends[a] + c.Turns(n)
  {
    RoundsApart(sends, c.interval as real, c.gap, a, b);
    TimesMonotone(b - a, n, c.interval as real + c.gap);
    TimesIsProduct(n, c.interval as real + c.gap);
  }

  /** A message that arrives no later than another was sent at most so much later: with
      a delay of at most the interval, not later at all. */
  lemma LeadBound(sends: seq<real>, c: Sending, a: nat, b: nat, atA: real, atB: real)
    requires c.Proper() && Spaced(sends, c.interval as real, c.gap) && a < |sends| && b < |sends|
    requires sends[b] <= atB <= atA <= sends[a] + c.delay
    ensures b > a ==> b - a <= Overtaken(c.interval, c.delay) && c.delay > c.interval as real
    ensures sends[b] <= sends[a] + Lead(c)
  {
    var k := Overtaken(c.interval, c.delay);
    assert Lead(c) >= 0.0 by {
      TimesIsProduct(k, c.interval as real + c.gap);
      TimesMonotone(0, k, c.interval as real + c.gap);
    }
    if b > a {
      RoundsApart(sends, c.interval as real, c.gap, a, b);
      OvertakenExact(c.interval, c.delay, b - a);
      TurnsApart(sends, c, a, b, k);
    } else {
      InOrder(sends, c, a, b);
    }
  }

  /** The newest report among those that have arrived. */
  lemma {:induction false} Newest(tr: seq<Timed>, kind: Kind, k: Key, q: nat, n: nat) returns (p: nat)
    requires q <= n < |tr| && Reports(tr[q], kind, k)
    ensures p <= n && Reports(tr[p], kind, k)
    ensures forall x :: 0 <= x <= n && Reports(tr[x], kind, k) ==> tr[x].sent <= tr[p].sent
    decreases n
  {
    if exists x :: 0 <= x < n && Reports(tr[x], kind, k) {
      var x :| 0 <= x < n && Reports(tr[x], kind, k);
      p := Newest(tr, kind, k, x, n - 1);
      if Reports(tr[n], kind, k) && tr[n].sent > tr[p].sent {
        p := n;
      }
    } else {
      p := q;
    }
  }

  lemma RoundOf(tr: seq<Timed>, c: Sending, kind: Kind, k: Key, sends: seq<real>, n: nat) returns (r: nat)
    requires Delivered(tr, c, kind, k, sends) && n < |tr| && Reports(tr[n], kind, k)
    ensures r < |sends| && sends[r] == tr[n].sent && Arrives(tr, kind, k, sends[r]) && Punctual(tr[n], c)
  {
    assert tr[n].sent in sends;
    r :| 0 <= r < |sends| && sends[r] == tr[n].sent;
  }

  lemma TurnsNotNegative(c: Sending, n: nat)
    requires c.Proper()
    ensures c.Turns(n) >= 0.0
  {
    TimesIsProduct(n, c.interval as real + c.gap);
    TimesMonotone(0, n, c.interval as real + c.gap);
  }

  lemma NextArrival(tr: seq<Timed>, c: Sending, kind: Kind, k: Key, sends: seq<real>, a: nat, b: nat) returns (r: nat)
    requires Delivered(tr, c, kind, k, sends)
    requires a < b < |sends| && Arrives(tr, kind, k, sends[a]) && Arrives(tr, kind, k, sends[b])
    ensures a < r <= a + c.lost + 1 && r < |sends| && Arrives(tr, kind, k, sends[r])
  {
    r :| a < r <= a + c.lost + 1 && r < |sends| && Arrives(tr, kind, k, sends[r]);
  }

  /** A report of a later round, no later than the rounds that may be lost allow. */
  lemma NextRound(tr: seq<Timed>, c: Sending, kind: Kind, k: Key, sends: seq<real>, a: nat, b: nat) returns (x: nat)
    requires c.Proper() && Delivered(tr, c, kind, k, sends) && Spaced(sends, c.interval as real, c.gap)
    requires a < b < |sends| && Arrives(tr, kind, k, sends[a]) && Arrives(tr, kind, k, sends[b])
    ensures x < |tr| && Reports(tr[x], kind, k) && Punctual(tr[x], c)
    ensures sends[a] < tr[x].sent <= sends[a] + c.Turns(c.lost + 1)
  {
    var r := NextArrival(tr, c, kind, k, sends, a, b);
    x :| 0 <= x < |tr| && Reports(tr[x], kind, k) && tr[x].sent == sends[r];
    InOrder(sends, c, a, r);
    TurnsApart(sends, c, a, r, c.lost + 1);
  }

  lemma RoundsInOrder(tr: seq<Timed>, c: Sending, kind: Kind, k: Key, sends: seq<real>, p: nat, j: nat) returns (a: nat, b: nat)
    requires c.Proper() && Delivered(tr, c, kind, k, sends) && Spaced(sends, c.interval as real, c.gap)
    requires p < |tr| && j < |tr| && Reports(tr[p], kind, k) && Reports(tr[j], kind, k)
    ensures a < |sends| && sends[a] == tr[p].sent && Arrives(tr, kind, k, sends[a])
    ensures b < |sends| && sends[b] == tr[j].sent && Arrives(tr, kind, k, sends[b])
    ensures Punctual(tr[j], c) && (a < b || tr[j].sent <= tr[p].sent)
  {
    a := RoundOf(tr, c, kind, k, sends, p);
    b := RoundOf(tr, c, kind, k, sends, j);
    InOrder(sends, c, a, b);
  }

  lemma NewerOrLast(tr: seq<Timed>, c: Sending, kind: Kind, k: Key, sends: seq<real>, p: nat, j: nat) returns (x: nat)
    requires c.Proper() && Delivered(tr, c, kind, k, sends) && Spaced(sends, c.interval as real, c.gap)
    requires p < |tr| && j < |tr| && Reports(tr[p], kind, k) && Reports(tr[j], kind, k)
    ensures x < |tr| && Reports(tr[x], kind, k) && Punctual(tr[x], c)
    ensures x == j || tr[x].sent > tr[p].sent
    ensures tr[x].sent <= tr[p].sent + c.Turns(c.lost + 1)
  {
    var a, b := RoundsInOrder(tr, c, kind, k, sends, p, j);
    TurnsNotNegative(c, c.lost + 1);
    if a < b {
      x := NextRound(tr, c, kind, k, sends, a, b);
    } else {
      x := j;
    }
  }

  lemma AtLater(tr: seq<Timed>, n: nat, x: nat)
    requires Timely(tr) && n <= x < |tr|
    ensures tr[n].at <= tr[x].at
  {
  }

  /** While more reports are to come, whatever happens is soon after the newest. */
  lemma NextReport(tr: seq<Timed>, c: Sending, kind: Kind, k: Key, sends: seq<real>, p: nat, n: nat, j: nat)
    requires c.Proper() && Timely(tr) && Delivered(tr, c, kind, k, sends) && Spaced(sends, c.interval as real, c.gap)
    requires p <= n <= j < |tr| && Reports(tr[p], kind, k) && Reports(tr[j], kind, k)
    requires forall x :: 0 <= x <= n && Reports(tr[x], kind, k) ==> tr[x].sent <= tr[p].sent
    ensures tr[n].at <= tr[p].sent + c.Turns(c.lost + 1) + c.delay
  {
    var x := NewerOrLast(tr, c, kind, k, sends, p, j);
    AtLater(tr, n, x);
  }

  lemma AgeBound(tr: seq<Timed>, c: Sending, kind: Kind, k: Key, sends: seq<real>, q: nat, n: nat, j: nat)
    requires c.Proper() && Timely(tr) && Delivered(tr, c, kind, k, sends) && Spaced(sends, c.interval as real, c.gap)
    requires q <= n <= j < |tr| && Reports(tr[q], kind, k) && Reports(tr[j], kind, k)
    requires forall x :: q < x <= n ==> !Reports(tr[x], kind, k)
    ensures tr[n].at <= tr[q].sent + Lead(c) + c.Turns(c.lost + 1) + c.delay
  {
    var p := Newest(tr, kind, k, q, n);
    NextReport(tr, c, kind, k, sends, p, n, j);
    var a := RoundOf(tr, c, kind, k, sends, q);
    var b := RoundOf(tr, c, kind, k, sends, p);
    assert p < q ==> tr[p].at <= tr[q].at;
    LeadBound(sends, c, a, b, tr[q].at, tr[p].at);
  }

  lemma {:induction false} LastReport(tr: seq<Timed>, kind: Kind, k: Key, i: nat, n: nat) returns (q: nat)
    requires i <= n < |tr| && Reports(tr[i], kind, k)
    ensures i <= q <= n && Reports(tr[q], kind, k) && forall x :: q < x <= n ==> !Reports(tr[x], kind, k)
    decreases n
  {
    if i == n || Reports(tr[n], kind, k) {
      q := n;
    } else {
      q := LastReport(tr, kind, k, i, n - 1);
    }
  }

  lemma StaysAt(tr: seq<Timed>, c: Sending, kind: Kind, k: Key, sends: seq<real>, i: nat, n: nat, j: nat)
    requires c.Proper() && Timely(tr) && Delivered(tr, c, kind, k, sends) && Spaced(sends, c.interval as real, c.gap)
    requires Safe(c, kind)
    requires i <= n <= j < |tr| && Reports(tr[i], kind, k) && Reports(tr[j], kind, k)
    ensures Present(tr, kind, k, n)
  {
    var q := LastReport(tr, kind, k, i, n);
    AgeBound(tr, c, kind, k, sends, q, n, j);
    assert Punctual(tr[q], c);
    StaysUpTo(tr, c, kind, k, q, n, Lead(c) + c.Turns(c.lost + 1) + c.delay);
  }

  lemma StaysUpTo(tr: seq<Timed>, c: Sending, kind: Kind, k: Key, q: nat, n: nat, age: real)
    requires c.Proper() && Prompt(c) && Timely(tr) && q <= n < |tr| && Reports(tr[q], kind, k) && Punctual(tr[q], c)
    requires forall x :: q < x <= n ==> !Reports(tr[x], kind, k)
    requires tr[n].at <= tr[q].sent + age && age + 1.0 <= Slack(Lifetime(kind, c.interval)) as real
    ensures Present(tr, kind, k, n)
  {
    var upto := tr[..n + 1];
    TimelyPrefix(tr, n + 1);
    forall x | q < x < |upto| ensures !Reports(upto[x], kind, k) && upto[x].at <= upto[q].sent + age {
      AtLater(tr, x, n);
    }
    FreshRecordStays(upto, c, kind, k, q, age);
  }

  /** No flicker. Whatever other processes send and whenever summaries are taken, a
      process stays in the bucket from its first report to its last if the turns of one
      more round than may be lost, what overtaking can add, the delay and one second fit
      the slack of its record, and the delay fits the slack of its message. */
  lemma NoFlicker(tr: seq<Timed>, c: Sending, kind: Kind, k: Key, clock: seq<real>, start: real)
    requires c.Proper() && Safe(c, kind) && Watched(tr, c, kind, k, clock, start)
    ensures Stays(tr, kind, k)
  {
    var sends := SendTimes(clock, c.interval as real, start);
    SendSpacing(clock, c.interval as real, c.gap, start);
    forall i: nat, n: nat, j: nat | i <= n <= j < |tr| && Reports(tr[i], kind, k) && Reports(tr[j], kind, k)
      ensures Present(tr, kind, k, n)
    {
      StaysAt(tr, c, kind, k, sends, i, n, j);
    }
  }

  /** With a delay of at most the interval messages cannot overtake each other, and what
      counts is 12/5 of the interval, rounded down, or six intervals. */
  lemma SafeInOrder(c: Sending, kind: Kind)
    requires c.Proper() && c.delay <= c.interval as real
    ensures Safe(c, kind) <==>
            c.Turns(c.lost + 1) + c.delay + 1.0 <= (if kind.Process? then 6 * c.interval else 12 * c.interval / 5) as real
  {
    assert c.Turns(0) == 0.0;
  }

  /** In particular, with no round lost: interval + gap + delay + 1 within 12/5 of the
      interval, and the delay within the interval. */
  lemma NoFlickerNothingLost(tr: seq<Timed>, c: Sending, kind: Kind, k: Key, clock: seq<real>, start: real)
    requires c.Proper() && c.lost == 0 && c.delay <= c.interval as real && !kind.Process?
    requires c.interval as real + c.gap + c.delay + 1.0 <= (12 * c.interval / 5) as real
    requires Watched(tr, c, kind, k, clock, start)
    ensures Stays(tr, kind, k)
  {
    assert c.Turns(1) == c.interval as real + c.gap;
    SafeInOrder(c, kind);
    NoFlicker(tr, c, kind, k, clock, start);
  }

  /** The output has a process count for the program of `k`, and `k` is among the counted. */
  ghost predicate CountedIn(out: seq<Msg>, b: Bucket, k: Key) {
    && k.token in LiveTokens(b, k.host, k.program)
    && exists a :: 0 <= a < |out| && out[a].host == Some(k.host) && out[a].pluginInstance == Some(k.program)
                   && IsNumprocs(out[a]) && out[a].values == [|LiveTokens(b, k.host, k.program)|]
  }

  lemma CountedAt(b: Bucket, out: seq<Msg>, k: Key, a: nat)
    requires a < |out| && IsNumprocs(out[a]) && k in b
    requires out[a].host == Some(k.host) && out[a].pluginInstance == Some(k.program)
    requires out[a].values == [LiveProcesses(b, Program(k.host, k.program))]
    ensures CountedIn(out, b, k)
  {
  }

  lemma {:induction false} ShownRight(all: seq<Event>, p: Group, v: Msg)
    requires ShowsCount(all, p, v) && Miscount(all, p) == 0
    ensures v.values == [LiveProcesses(Run(all).process.bucket, p)]
  {
  }

  lemma ProcessValueIsNumprocs(s: State, now: real, o: Origin, v: Msg)
    requires o.kind == Process && o.field == 0 && IsEmission(s, now, o, v)
    ensures IsNumprocs(v)
  {
  }

  lemma {:induction false} ProcessCounted(events: seq<Event>, now: real, k: Key)
    requires forall kind: Kind :: Completes(ClocksAfter(events).At(kind), now)
    requires k in Run(events + [Summary(now)]).process.bucket
    requires CountsRight(events + [Summary(now)], Program(k.host, k.program))
    ensures CountedIn(Summarize(Run(events), now).1.out, Run(events + [Summary(now)]).process.bucket, k)
  {
    var all, out, o := events + [Summary(now)], Summarize(Run(events), now).1.out, Origin(Process, Program(k.host, k.program), 0);
    var os := NumprocsByOrigin(events, now);
    assert k in Members(Run(all).process.bucket, o.group);
    var a := IndexOf(os, o);
    assert Due(Run(all), os[a]) && IsEmission(Run(all), now, os[a], out[a]);
    ProcessValueIsNumprocs(Run(all), now, o, out[a]);
    ShownRight(all, o.group, out[a]);
    CountedAt(Run(all).process.bucket, out, k, a);
  }

  /** And so it stays counted: every summary between the first report and the last ends
      normally and, if its program's live records count one each, yields a process count
      for the program that includes it. */
  lemma StaysCounted(tr: seq<Timed>, c: Sending, k: Key, clock: seq<real>, start: real, i: nat, n: nat, j: nat)
    requires c.Proper() && Safe(c, Process) && Watched(tr, c, Process, k, clock, start)
    requires i <= n <= j < |tr| && Reports(tr[i], Process, k) && Reports(tr[j], Process, k) && tr[n].e.Summary?
    requires CountsRight(Events(tr)[..n + 1], Program(k.host, k.program))
    ensures Summarize(Run(Events(tr)[..n]), tr[n].e.now).1.ending.Finished?
    ensures CountedIn(Summarize(Run(Events(tr)[..n]), tr[n].e.now).1.out, Run(Events(tr)[..n + 1]).process.bucket, k)
  {
    PresentMeanwhile(tr, c, Process, k, clock, start, i, n, j);
    PresentIsCounted(tr, k, n);
  }

  lemma PresentIsCounted(tr: seq<Timed>, k: Key, n: nat)
    requires Timely(tr) && n < |tr| && tr[n].e.Summary?
    requires k in Run(Events(tr)[..n + 1]).process.bucket && CountsRight(Events(tr)[..n + 1], Program(k.host, k.program))
    ensures Summarize(Run(Events(tr)[..n]), tr[n].e.now).1.ending.Finished?
    ensures CountedIn(Summarize(Run(Events(tr)[..n]), tr[n].e.now).1.out, Run(Events(tr)[..n + 1]).process.bucket, k)
  {
    SummaryAt(tr, n);
    SummariesFinish(tr, n);
    CountedAfter(Events(tr)[..n], Events(tr)[..n + 1], tr[n].e.now, k);
  }

  lemma {:induction false} CountedAfter(events: seq<Event>, all: seq<Event>, now: real, k: Key)
    requires all == events + [Summary(now)] && forall kind: Kind :: Completes(ClocksAfter(events).At(kind), now)
    requires k in Run(all).process.bucket && CountsRight(all, Program(k.host, k.program))
    ensures CountedIn(Summarize(Run(events), now).1.out, Run(all).process.bucket, k)
  {
    ProcessCounted(events, now, k);
  }

  lemma PresentMeanwhile(tr: seq<Timed>, c: Sending, kind: Kind, k: Key, clock: seq<real>, start: real, i: nat, n: nat, j: nat)
    requires c.Proper() && Safe(c, kind) && Watched(tr, c, kind, k, clock, start)
    requires i <= n <= j < |tr| && Reports(tr[i], kind, k) && Reports(tr[j], kind, k)
    ensures k in Run(Events(tr)[..n + 1]).At(kind).bucket
  {
    NoFlicker(tr, c, kind, k, clock, start);
    assert Present(tr, kind, k, n);
    TimelyPrefix(tr, n + 1);
  }

  lemma SummaryAt(tr: seq<Timed>, n: nat)
    requires Timely(tr) && n < |tr| && tr[n].e.Summary?
    ensures Events(tr)[..n + 1] == Events(tr)[..n] + [Summary(tr[n].e.now)] == Events(tr[..n + 1])
    ensures forall kind: Kind :: Completes(ClocksAfter(Events(tr)[..n]).At(kind), tr[n].e.now)
  {
    TimelyPrefix(tr, n + 1);
    ClocksComplete(tr, n);
  }

  // ----- No less: an unsafe process can be evicted -----

  const SAMPLE_KEY := Key("host", "prog", "token")

  /** The bucket that samples are addressed to; they refresh the process record too. */
  function Own(kind: Kind): Kind {
    if kind.Totals? then Totals else Pool
  }

  function Sample(kind: Kind, interval: int, sent: real): Message {
    Values(Some(Own(kind).Spec().name), Some("token"), None, Some("prog"), Some("host"), Some(Trunc(sent) as real), interval, [])
  }

  function Sampled(kind: Kind, c: Sending, sent: real, at: real): Timed {
    Timed(Receive(Sample(kind, c.interval, sent)), at, sent)
  }

  lemma SampleKind(kind: Kind, interval: int, sent: real)
    ensures KindNamed(Sample(kind, interval, sent).typeName) == Some(Own(kind))
  {
  }

  lemma SampledReports(kind: Kind, c: Sending, sent: real, at: real)
    requires c.Proper() && 0.0 <= sent <= at <= sent + c.delay
    ensures var x := Sampled(kind, c, sent, at);
      OnTime(x) && Reports(x, kind, SAMPLE_KEY) && Punctual(x, c)
  {
    TruncBounds(sent);
    SampleKind(kind, c.interval, sent);
  }

  // ----- Too long a delay -----

  lemma ClocksAfterSummary(now: real, kind: Kind)
    requires !kind.Process?
    ensures ClocksAfter([Summary(now)]).At(kind) == Clock(now, 0)
  {
    assert [Summary(now)][..0] == [];
    assert ClocksAfter([Summary(now)]) == Tick(ClocksAfter([]), Summary(now));
  }

  lemma Outdated(at: real, sent: real, interval: int)
    requires interval > 0 && 0.0 <= sent < 1.0 && at >= Slack(2 * interval) as real + 1.0
    ensures !Clock(at, 0).Admits(Trunc(sent) as real, Some(interval * 2))
  {
    TruncBounds(sent);
    TruncOfWhole(0);
    TruncBounds(at);
  }

  lemma SampleRejected(tr: seq<Timed>, kind: Kind, c: Sending, sent: real, at: real)
    requires c.Proper() && 0.0 <= sent < 1.0 && at >= Slack(2 * c.interval) as real + 1.0
    requires tr == [Timed(Summary(at), at, at), Sampled(kind, c, sent, at)]
    ensures SAMPLE_KEY !in Run(Events(tr)).At(kind).bucket
  {
    var es, v := Events(tr), Sample(kind, c.interval, sent);
    assert es[..1] == [Summary(at)];
    SampleKind(kind, c.interval, sent);
    ClocksAfterSummary(at, Own(kind));
    Outdated(at, sent, c.interval);
    EffectTells(es, kind, SAMPLE_KEY, 0);
    EffectTells(es, kind, SAMPLE_KEY, 1);
    BucketIsEffects(tr, kind, SAMPLE_KEY);
  }

  lemma LoneReportWatched(tr: seq<Timed>, c: Sending, kind: Kind, sent: real, at: real)
    requires c.Proper() && 0.0 <= sent <= at <= sent + c.delay
    requires tr == [Timed(Summary(at), at, at), Sampled(kind, c, sent, at)]
    ensures Timely(tr) && Delivered(tr, c, kind, SAMPLE_KEY, [sent]) && Reports(tr[1], kind, SAMPLE_KEY)
  {
    SampledReports(kind, c, sent, at);
    assert !Reports(tr[0], kind, SAMPLE_KEY);
  }

  lemma UnderWayTooLong(slack: real, delay: real) returns (sent: real)
    requires delay > slack >= 0.0
    ensures 0.0 <= sent < 1.0 && sent + delay >= slack + 1.0
  {
    sent := if delay < slack + 1.0 then slack + 1.0 - delay else 0.0;
  }

  /** If messages may be under way for longer than the slack of their bucket, one can
      be rejected, and leaves nothing in any bucket: the longer life of the process
      record does not help. */
  lemma PromptIsNeeded(c: Sending, kind: Kind) returns (tr: seq<Timed>, clock: seq<real>, start: real)
    requires c.Proper() && !Prompt(c)
    ensures Watched(tr, c, kind, SAMPLE_KEY, clock, start) && !Stays(tr, kind, SAMPLE_KEY)
  {
    var sent := UnderWayTooLong(Slack(2 * c.interval) as real, c.delay);
    var at := sent + c.delay;
    clock := [sent];
    start := SendFirst(sent, c.interval as real);
    tr := [Timed(Summary(at), at, at), Sampled(kind, c, sent, at)];
    LoneReportWatched(tr, c, kind, sent, at);
    SampleRejected(tr, kind, c, sent, at);
    LoneReportGone(tr, kind);
  }

  lemma LoneReportGone(tr: seq<Timed>, kind: Kind)
    requires |tr| == 2 && Reports(tr[1], kind, SAMPLE_KEY) && SAMPLE_KEY !in Run(Events(tr)).At(kind).bucket
    ensures !Stays(tr, kind, SAMPLE_KEY)
  {
    assert tr[..1 + 1] == tr;
    assert !Present(tr, kind, SAMPLE_KEY, 1);
  }

  // ----- Too old a report -----

  /** The time between the rounds that overtake the first: as long as the delay allows. */
  function Pace(c: Sending): real
    requires c.interval > 0
  {
    var k := Overtaken(c.interval, c.delay);
    if k == 0 then 0.0 else Lead(c) / k as real
  }

  lemma MultiplyBack(a: real, n: nat)
    requires n > 0
    ensures n as real * (a / n as real) == a
  {
  }

  lemma Between(n: nat, a: real, x: real, b: real)
    requires n > 0 && n as real * a < n as real * x <= n as real * b
    ensures a < x <= b
  {
  }

  lemma LeadRange(c: Sending)
    requires c.Proper() && c.gap > 0.0
    ensures var k := Overtaken(c.interval, c.delay);
      && 0.0 <= Lead(c) <= c.delay && (k == 0 ==> Lead(c) == 0.0)
      && (k > 0 ==> k as real * c.interval as real < Lead(c) <= c.Turns(k))
  {
    var k := Overtaken(c.interval, c.delay);
    TurnsNotNegative(c, k);
    if k == 0 {
      assert c.Turns(0) == 0.0;
    } else {
      OvertakenExact(c.interval, c.delay, k);
      TimesIsProduct(k, c.interval as real);
      WiderTurns(k as real, c.interval as real, c.gap);
    }
  }

  lemma WiderTurns(n: real, interval: real, gap: real)
    requires n > 0.0 && gap > 0.0
    ensures n * interval < n * (interval + gap)
  {
    assert n * (interval + gap) == n * interval + n * gap;
    assert n * gap > 0.0;
  }

  lemma PaceFits(c: Sending)
    requires c.Proper() && c.gap > 0.0
    ensures var k := Overtaken(c.interval, c.delay);
      && Times(k, Pace(c)) == Lead(c) && 0.0 <= Lead(c) <= c.delay
      && (k > 0 ==> c.interval as real < Pace(c) <= c.interval as real + c.gap)
  {
    var k := Overtaken(c.interval, c.delay);
    LeadRange(c);
    if k > 0 {
      TimesIsProduct(k, Pace(c));
      MultiplyBack(Lead(c), k);
      Between(k, c.interval as real, Pace(c), c.interval as real + c.gap);
    }
  }

  /** When round `i` is sent: up to the round that overtakes the first as its delay
      allows, then as late as the loop may. */
  function SendAt(c: Sending, first: real, i: nat): real
    requires c.interval > 0
  {
    var k := Overtaken(c.interval, c.delay);
    if i <= k then first + Times(i, Pace(c)) else first + Lead(c) + Times(i - k, c.interval as real + c.gap)
  }

  function Sends(c: Sending, first: real): (sends: seq<real>)
    requires c.interval > 0
    ensures |sends| == Overtaken(c.interval, c.delay) + c.lost + 2
    ensures forall i :: 0 <= i < |sends| ==> sends[i] == SendAt(c, first, i)
  {
    seq(Overtaken(c.interval, c.delay) + c.lost + 2, (i: nat) => SendAt(c, first, i))
  }

  lemma SendsSpaced(c: Sending, first: real)
    requires c.Proper() && c.gap > 0.0
    ensures Spaced(Sends(c, first), c.interval as real, c.gap)
    ensures SendAt(c, first, 0) == first && SendAt(c, first, Overtaken(c.interval, c.delay)) == first + Lead(c)
  {
    PaceFits(c);
    var sends, turn := Sends(c, first), c.interval as real + c.gap;
    forall i | 0 <= i < |sends| - 1 ensures c.interval as real < sends[i + 1] - sends[i] <= turn {
      assert sends[i] == SendAt(c, first, i) && sends[i + 1] == SendAt(c, first, i + 1);
      assert Times(1, turn) == Times(0, turn) + turn;
    }
  }

  /** The messages of the next `k` rounds, each arriving when it is sent. */
  function Overtakers(c: Sending, kind: Kind, first: real, k: nat): (xs: seq<Timed>)
    requires c.interval > 0
    ensures |xs| == k && forall i :: 0 <= i < k ==> xs[i] == Sampled(kind, c, SendAt(c, first, i + 1), SendAt(c, first, i + 1))
  {
    seq(k, (i: nat) => Sampled(kind, c, SendAt(c, first, i + 1), SendAt(c, first, i + 1)))
  }

  /** The first round's message arrives right after that of the latest round that can
      overtake it; then rounds are lost; the next message takes all its time, and a
      summary comes just before it. */
  function LateRun(c: Sending, kind: Kind, first: real): seq<Timed>
    requires c.interval > 0
  {
    var k := Overtaken(c.interval, c.delay);
    var last := SendAt(c, first, k + c.lost + 1);
    Overtakers(c, kind, first, k) + Latecomers(c, kind, first, SendAt(c, first, k), last)
  }

  /** The first round's message at some time, and the last round's as late as may be. */
  function Latecomers(c: Sending, kind: Kind, first: real, at: real, last: real): seq<Timed> {
    [Sampled(kind, c, first, at),
     Timed(Summary(last + c.delay), last + c.delay, last + c.delay),
     Sampled(kind, c, last, last + c.delay)]
  }

  lemma TailOf<T>(xs: seq<T>, ys: seq<T>)
    ensures (xs + ys)[|xs|..] == ys
  {
  }

  lemma LateRunAt(c: Sending, kind: Kind, first: real, n: nat)
    requires c.Proper() && c.gap > 0.0 && first >= 0.0
    ensures var k, tr := Overtaken(c.interval, c.delay), LateRun(c, kind, first);
      var last := SendAt(c, first, k + c.lost + 1);
      && |tr| == k + 3
      && (n < k ==> tr[n] == Sampled(kind, c, SendAt(c, first, n + 1), SendAt(c, first, n + 1)))
      && tr[k] == Sampled(kind, c, first, first + Lead(c))
      && tr[k + 1] == Timed(Summary(last + c.delay), last + c.delay, last + c.delay)
      && tr[k + 2] == Sampled(kind, c, last, last + c.delay)
  {
    LateRunThird(c, kind, first);
    SendsSpaced(c, first);
  }

  lemma LateRunThird(c: Sending, kind: Kind, first: real)
    requires c.Proper()
    ensures var k, tr := Overtaken(c.interval, c.delay), LateRun(c, kind, first);
      var last := SendAt(c, first, k + c.lost + 1);
      |tr| == k + 3 && tr[k..] == Latecomers(c, kind, first, SendAt(c, first, k), last)
  {
    var k := Overtaken(c.interval, c.delay);
    TailOf(Overtakers(c, kind, first, k), Latecomers(c, kind, first, SendAt(c, first, k), SendAt(c, first, k + c.lost + 1)));
  }

  /** Rounds are sent after the first, and the message of the first arrives in time. */
  lemma SentLater(c: Sending, first: real, i: nat)
    requires c.Proper() && c.gap > 0.0 && i < Overtaken(c.interval, c.delay) + c.lost + 2
    ensures SendAt(c, first, i) >= first && 0.0 <= Lead(c) <= c.delay
  {
    SendsSpaced(c, first);
    PaceFits(c);
    assert Sends(c, first)[i] == SendAt(c, first, i) && Sends(c, first)[0] == SendAt(c, first, 0);
    InOrder(Sends(c, first), c, 0, i);
  }

  lemma LateRunOnTime(c: Sending, kind: Kind, first: real, n: nat)
    requires c.Proper() && c.gap > 0.0 && first >= 0.0 && n < Overtaken(c.interval, c.delay) + 3
    ensures |LateRun(c, kind, first)| == Overtaken(c.interval, c.delay) + 3
    ensures var k, x := Overtaken(c.interval, c.delay), LateRun(c, kind, first)[n];
      && OnTime(x) && (Reports(x, kind, SAMPLE_KEY) <==> n != k + 1)
      && (n != k + 1 ==> Punctual(x, c) && x.sent == SendAt(c, first, if n < k then n + 1 else if n == k then 0 else k + c.lost + 1))
  {
    var k, x := Overtaken(c.interval, c.delay), LateRun(c, kind, first)[n];
    LateRunAt(c, kind, first, n);
    SentLater(c, first, if n < k then n + 1 else if n == k then 0 else k + c.lost + 1);
    if n == k {
      SendsSpaced(c, first);
    }
    if n != k + 1 {
      SampledReports(kind, c, x.sent, x.at);
    }
  }

  lemma LateRunArrivals(c: Sending, kind: Kind, first: real, i: nat)
    requires c.Proper() && c.gap > 0.0 && first >= 0.0
    requires i <= Overtaken(c.interval, c.delay) || i == Overtaken(c.interval, c.delay) + c.lost + 1
    ensures Arrives(LateRun(c, kind, first), kind, SAMPLE_KEY, SendAt(c, first, i))
  {
    var k := Overtaken(c.interval, c.delay);
    var n := if i == 0 then k else if i <= k then i - 1 else k + 2;
    LateRunAt(c, kind, first, n);
    LateRunOnTime(c, kind, first, n);
  }

  lemma LateRunReports(c: Sending, kind: Kind, first: real, n: nat)
    requires c.Proper() && c.gap > 0.0 && first >= 0.0 && n < |LateRun(c, kind, first)|
    requires Reports(LateRun(c, kind, first)[n], kind, SAMPLE_KEY)
    ensures Punctual(LateRun(c, kind, first)[n], c) && LateRun(c, kind, first)[n].sent in Sends(c, first)
  {
    var k := Overtaken(c.interval, c.delay);
    LateRunAt(c, kind, first, n);
    LateRunOnTime(c, kind, first, n);
    var i := if n < k then n + 1 else if n == k then 0 else k + c.lost + 1;
    assert Sends(c, first)[i] == LateRun(c, kind, first)[n].sent;
  }

  lemma LateRunNext(c: Sending, kind: Kind, first: real, a: nat)
    requires c.Proper() && c.gap > 0.0 && first >= 0.0 && a + 1 < |Sends(c, first)|
    ensures exists r :: a < r <= a + c.lost + 1 && r < |Sends(c, first)|
                        && Arrives(LateRun(c, kind, first), kind, SAMPLE_KEY, Sends(c, first)[r])
  {
    var k := Overtaken(c.interval, c.delay);
    var r := if a < k then a + 1 else k + c.lost + 1;
    LateRunArrivals(c, kind, first, r);
    assert Sends(c, first)[r] == SendAt(c, first, r);
  }

  lemma LateRunDelivered(c: Sending, kind: Kind, first: real)
    requires c.Proper() && c.gap > 0.0 && first >= 0.0
    ensures Delivered(LateRun(c, kind, first), c, kind, SAMPLE_KEY, Sends(c, first))
  {
    var tr, sends := LateRun(c, kind, first), Sends(c, first);
    forall n | 0 <= n < |tr| && Reports(tr[n], kind, SAMPLE_KEY) ensures Punctual(tr[n], c) && tr[n].sent in sends {
      LateRunReports(c, kind, first, n);
    }
    forall a, b | 0 <= a < b < |sends| && Arrives(tr, kind, SAMPLE_KEY, sends[a]) && Arrives(tr, kind, SAMPLE_KEY, sends[b])
      ensures exists r :: a < r <= a + c.lost + 1 && r < |sends| && Arrives(tr, kind, SAMPLE_KEY, sends[r])
    {
      LateRunNext(c, kind, first, a);
    }
  }

  /** The round at whose sending, or a delay after it, event `n` happens. */
  lemma LateRunHappens(c: Sending, kind: Kind, first: real, n: nat) returns (i: nat)
    requires c.Proper() && c.gap > 0.0 && first >= 0.0 && n < Overtaken(c.interval, c.delay) + 3
    ensures var k := Overtaken(c.interval, c.delay);
      && i == (if n < k then n + 1 else if n == k then k else k + c.lost + 1)
      && |LateRun(c, kind, first)| == k + 3
      && LateRun(c, kind, first)[n].at == Sends(c, first)[i] + if n > k then c.delay else 0.0
  {
    var k := Overtaken(c.interval, c.delay);
    LateRunAt(c, kind, first, n);
    SendsSpaced(c, first);
    i := if n < k then n + 1 else if n == k then k else k + c.lost + 1;
    assert Sends(c, first)[i] == SendAt(c, first, i);
  }

  lemma LateRunInOrder(c: Sending, kind: Kind, first: real, n: nat, m: nat)
    requires c.Proper() && c.gap > 0.0 && first >= 0.0 && n < m < Overtaken(c.interval, c.delay) + 3
    ensures |LateRun(c, kind, first)| == Overtaken(c.interval, c.delay) + 3
    ensures LateRun(c, kind, first)[n].at <= LateRun(c, kind, first)[m].at
  {
    var i := LateRunHappens(c, kind, first, n);
    var j := LateRunHappens(c, kind, first, m);
    SendsSpaced(c, first);
    InOrder(Sends(c, first), c, i, j);
  }

  lemma LateRunTimely(c: Sending, kind: Kind, first: real)
    requires c.Proper() && c.gap > 0.0 && first >= 0.0
    ensures Timely(LateRun(c, kind, first))
  {
    var k, tr := Overtaken(c.interval, c.delay), LateRun(c, kind, first);
    LateRunAt(c, kind, first, 0);
    assert |tr| == k + 3;
    forall n | 0 <= n < |tr| ensures OnTime(tr[n]) {
      LateRunOnTime(c, kind, first, n);
    }
    forall n, m | 0 <= n < m < |tr| ensures tr[n].at <= tr[m].at {
      LateRunInOrder(c, kind, first, n, m);
    }
  }

  lemma LateRunGone(c: Sending, kind: Kind, first: real, tr: seq<Timed>, k: nat)
    requires c.Proper() && Prompt(c) && 0.0 <= first < 1.0 && |tr| == k + 3 && Timely(tr)
    requires Reports(tr[k], kind, SAMPLE_KEY) && Punctual(tr[k], c) && tr[k].sent == first && tr[k + 1].e.Summary?
    requires tr[k + 1].at > Slack(Lifetime(kind, c.interval)) as real
    ensures !Present(tr, kind, SAMPLE_KEY, k + 1)
  {
    TimelyPrefix(tr, k + 2);
    TruncBounds(first);
    OldRecordGoes(tr[..k + 2], c, kind, SAMPLE_KEY, k);
    assert tr[..k + 1 + 1] == tr[..k + 2];
  }

  lemma LastSend(c: Sending, first: real)
    requires c.Proper()
    ensures SendAt(c, first, Overtaken(c.interval, c.delay) + c.lost + 1) == first + Lead(c) + c.Turns(c.lost + 1)
  {
    TimesIsProduct(c.lost + 1, c.interval as real + c.gap);
  }

  lemma LateSummary(c: Sending, kind: Kind, first: real)
    requires c.Proper() && c.gap > 0.0 && first >= 0.0
    ensures var k, tr := Overtaken(c.interval, c.delay), LateRun(c, kind, first);
      && |tr| == k + 3 && tr[k + 1].e.Summary? && tr[k].sent == first
      && tr[k + 1].at == first + Lead(c) + c.Turns(c.lost + 1) + c.delay
  {
    LateRunAt(c, kind, first, 0);
    LastSend(c, first);
  }

  lemma LateRunReportsAround(c: Sending, kind: Kind, first: real)
    requires c.Proper() && c.gap > 0.0 && first >= 0.0
    ensures var k, tr := Overtaken(c.interval, c.delay), LateRun(c, kind, first);
      && |tr| == k + 3 && Reports(tr[k], kind, SAMPLE_KEY) && Punctual(tr[k], c) && Reports(tr[k + 2], kind, SAMPLE_KEY)
  {
    var k := Overtaken(c.interval, c.delay);
    LateRunAt(c, kind, first, 0);
    LateRunOnTime(c, kind, first, k);
    LateRunOnTime(c, kind, first, k + 2);
  }

  lemma LateRunEvicts(c: Sending, kind: Kind, first: real)
    requires c.Proper() && c.gap > 0.0 && 0.0 <= first < 1.0 && Prompt(c)
    requires first + Lead(c) + c.Turns(c.lost + 1) + c.delay > Slack(Lifetime(kind, c.interval)) as real
    ensures !Stays(LateRun(c, kind, first), kind, SAMPLE_KEY)
  {
    LateSummary(c, kind, first);
    LateRunTimely(c, kind, first);
    LateRunReportsAround(c, kind, first);
    LateRunGone(c, kind, first, LateRun(c, kind, first), Overtaken(c.interval, c.delay));
  }

  lemma SendingTime(slack: real, age: real) returns (sent: real)
    requires age + 1.0 > slack
    ensures 0.0 <= sent < 1.0 && sent + age > slack
  {
    sent := if age > slack then 0.0 else (slack - age + 1.0) / 2.0;
  }

  /** If the oldest a report gets, and a second, exceed the slack of its record, a
      summary can evict a process that keeps sending. */
  lemma SlackIsNeeded(c: Sending, kind: Kind) returns (tr: seq<Timed>, clock: seq<real>, start: real)
    requires c.Proper() && c.gap > 0.0 && Prompt(c) && !Safe(c, kind)
    ensures Watched(tr, c, kind, SAMPLE_KEY, clock, start) && !Stays(tr, kind, SAMPLE_KEY)
  {
    var first := SendingTime(Slack(Lifetime(kind, c.interval)) as real, Lead(c) + c.Turns(c.lost + 1) + c.delay);
    tr := LateRun(c, kind, first);
    SendsSpaced(c, first);
    clock, start := LoopCanSend(Sends(c, first), c.interval as real, c.gap);
    LateRunTimely(c, kind, first);
    LateRunDelivered(c, kind, first);
    LateRunEvicts(c, kind, first);
  }

  /** Every run with such a process keeps it in the bucket. */
  ghost predicate AlwaysStays(c: Sending, kind: Kind) {
    forall tr, k, clock, start :: Watched(tr, c, kind, k, clock, start) ==> Stays(tr, kind, k)
  }

  /** The condition is exact: it is met iff no run whatsoever makes the process flicker. */
  lemma NoFlickerIffSafe(c: Sending, kind: Kind)
    requires c.Proper() && c.gap > 0.0
    ensures Safe(c, kind) <==> AlwaysStays(c, kind)
  {
    if Safe(c, kind) {
      forall tr, k, clock, start | Watched(tr, c, kind, k, clock, start) ensures Stays(tr, kind, k) {
        NoFlicker(tr, c, kind, k, clock, start);
      }
    } else if Prompt(c) {
      var tr, clock, start := SlackIsNeeded(c, kind);
    } else {
      var tr, clock, start := PromptIsNeeded(c, kind);
    }
  }

  lemma OvertakingNumbers()
    ensures Overtaken(5, 5.8) == 1 && Sending(5, 0.2, 5.8, 0).Turns(1) == 5.2
    ensures !Safe(Sending(5, 0.2, 5.8, 0), Pool) && Prompt(Sending(5, 0.2, 5.8, 0))
  {
    var rest := 5.8 - 5.0;
    assert Overtaken(5, rest) == 0;
    assert Overtaken(5, 5.8) == 1 + Overtaken(5, rest);
  }

  /** Without the limit on overtaking the bound for ordered messages does not suffice:
      interval 5, gap 0.2 and delay 5.8 make exactly 12/5 of the interval with a second
      to spare, and yet a summary can evict the process. */
  lemma OvertakingMatters() returns (tr: seq<Timed>, clock: seq<real>, start: real)
    ensures var c := Sending(5, 0.2, 5.8, 0);
      && c.interval as real + c.gap + c.delay + 1.0 <= (12 * c.interval / 5) as real
      && Watched(tr, c, Pool, SAMPLE_KEY, clock, start) && !Stays(tr, Pool, SAMPLE_KEY)
  {
    OvertakingNumbers();
    tr, clock, start := SlackIsNeeded(Sending(5, 0.2, 5.8, 0), Pool);
  }
}
