/** client/worker.py: the loop that sends each target's statistics at intervals. */
module SendLoop {

  /** One reading of the clock: `last_called[0]` after it, and the sends it causes. */
  function Next(last: real, now: real, interval: real): real {
    if now - last > interval then now else last
  }

  function Fired(last: real, now: real, interval: real): seq<real> {
    if now - last > interval then [now] else []
  }

  /** When the loop last sent, having read the given clock times one after the other. */
  function LastCalled(clock: seq<real>, interval: real, start: real): real {
    if clock == [] then start
    else Next(LastCalled(clock[..|clock| - 1], interval, start), clock[|clock| - 1], interval)
  }

  /** The times at which it sent. */
  function SendTimes(clock: seq<real>, interval: real, start: real): seq<real> {
    if clock == [] then []
    else
      var front := clock[..|clock| - 1];
      SendTimes(front, interval, start) + Fired(LastCalled(front, interval, start), clock[|clock| - 1], interval)
  }

  /** Where the loop has got to with one target: `last_called[0]`, and the sends so far. */
  datatype Track = Track(last: real, sends: seq<real>)

  function Read(track: Track, now: real, interval: real): Track {
    Track(Next(track.last, now, interval), track.sends + Fired(track.last, now, interval))
  }

  function ReadAll(track: Track, clock: seq<real>, interval: real): Track {
    if clock == [] then track
    else Read(ReadAll(track, clock[..|clock| - 1], interval), clock[|clock| - 1], interval)
  }

  lemma {:induction false} ReadAllSends(track: Track, clock: seq<real>, interval: real)
    ensures ReadAll(track, clock, interval) ==
            Track(LastCalled(clock, interval, track.last), track.sends + SendTimes(clock, interval, track.last))
  {
    if clock != [] {
      ReadAllSends(track, clock[..|clock| - 1], interval);
    }
  }

  /** The clock never goes back and is read at least every `gap` seconds. */
  ghost predicate Steady(clock: seq<real>, gap: real) {
    forall i :: 0 <= i < |clock| - 1 ==> clock[i] <= clock[i + 1] <= clock[i] + gap
  }

  /** Sends are more than the interval apart, and late by at most one turn of the loop. */
  ghost predicate Spaced(sends: seq<real>, interval: real, gap: real) {
    forall i :: 0 <= i < |sends| - 1 ==> interval < sends[i + 1] - sends[i] <= interval + gap
  }

  lemma SteadyPrefix(clock: seq<real>, gap: real)
    requires clock != [] && Steady(clock, gap)
    ensures Steady(clock[..|clock| - 1], gap)
  {
    var front := clock[..|clock| - 1];
    forall i | 0 <= i < |front| - 1 ensures front[i] <= front[i + 1] <= front[i] + gap {
      assert front[i] == clock[i] && front[i + 1] == clock[i + 1];
    }
  }

  lemma SpacedAppend(sends: seq<real>, interval: real, gap: real, now: real)
    requires Spaced(sends, interval, gap)
    requires sends != [] ==> interval < now - sends[|sends| - 1] <= interval + gap
    ensures Spaced(sends + [now], interval, gap)
  {
  }

  lemma {:induction false} SendSpacing(clock: seq<real>, interval: real, gap: real, start: real)
    requires interval >= 0.0 && Steady(clock, gap)
    ensures var sends, last := SendTimes(clock, interval, start), LastCalled(clock, interval, start);
      && Spaced(sends, interval, gap)
      && (sends != [] ==> last == sends[|sends| - 1])
      && (clock != [] ==> clock[|clock| - 1] - last <= interval)
  {
    if clock != [] {
      var front, now := clock[..|clock| - 1], clock[|clock| - 1];
      SteadyPrefix(clock, gap);
      SendSpacing(front, interval, gap, start);
      if now - LastCalled(front, interval, start) > interval {
        if front != [] {
          assert clock[|front| - 1] <= now <= clock[|front| - 1] + gap;
        }
        SpacedAppend(SendTimes(front, interval, start), interval, gap, now);
      }
    }
  }

  function Times(n: nat, x: real): real {
    if n == 0 then 0.0 else Times(n - 1, x) + x
  }

  lemma OneMore(a: real, x: real)
    ensures (a + 1.0) * x == a * x + x
  {
  }

  lemma {:induction false} TimesIsProduct(n: nat, x: real)
    ensures Times(n, x) == n as real * x
  {
    if n > 0 {
      TimesIsProduct(n - 1, x);
      OneMore((n - 1) as real, x);
      assert n as real == (n - 1) as real + 1.0;
    }
  }

  lemma {:induction false} TimesMonotone(m: nat, n: nat, x: real)
    requires m <= n && x >= 0.0
    ensures Times(m, x) <= Times(n, x)
  {
    if m < n {
      TimesMonotone(m, n - 1, x);
    }
  }

  /** Two sends some rounds apart are more than so many intervals and at most so many
      turns apart. */
  lemma {:induction false} RoundsApart(sends: seq<real>, interval: real, gap: real, a: nat, b: nat)
    requires Spaced(sends, interval, gap) && a < b < |sends|
    ensures Times(b - a, interval) < sends[b] - sends[a] <= Times(b - a, interval + gap)
  {
    assert interval < sends[b - 1 + 1] - sends[b - 1] <= interval + gap;
    if a + 1 < b {
      RoundsApart(sends, interval, gap, a, b - 1);
    } else {
      assert Times(1, interval + gap) == Times(0, interval + gap) + (interval + gap);
      assert Times(1, interval) == Times(0, interval) + interval;
    }
  }

  // ----- Every spacing within these bounds can happen -----

  lemma EnoughGaps(x: real, gap: real) returns (n: nat)
    requires x >= 0.0 && gap > 0.0
    ensures x <= Times(n, gap)
  {
    n := (x / gap).Floor + 1;
    TimesIsProduct(n, gap);
    ScaleUp(x / gap, n as real, gap);
    assert x / gap * gap == x;
  }

  lemma ScaleUp(a: real, b: real, x: real)
    requires a <= b && x >= 0.0
    ensures a * x <= b * x
  {
  }

  lemma {:induction false} ReadQuietly(clock: seq<real>, interval: real, gap: real, start: real, t: real)
    requires Steady(clock, gap) && clock != [] && clock[|clock| - 1] <= t <= clock[|clock| - 1] + gap
    requires t <= LastCalled(clock, interval, start) + interval
    ensures Steady(clock + [t], gap)
    ensures SendTimes(clock + [t], interval, start) == SendTimes(clock, interval, start)
    ensures LastCalled(clock + [t], interval, start) == LastCalled(clock, interval, start)
  {
    assert (clock + [t])[..|clock|] == clock;
  }

  /** The loop reads its clock up to a time at which it need not send yet. */
  lemma {:induction false} WaitUntil(clock: seq<real>, interval: real, gap: real, start: real, t: real, n: nat) returns (longer: seq<real>)
    requires gap > 0.0 && Steady(clock, gap) && clock != []
    requires clock[|clock| - 1] <= t <= LastCalled(clock, interval, start) + interval
    requires t - clock[|clock| - 1] <= Times(n, gap)
    ensures Steady(longer, gap) && longer != [] && longer[|longer| - 1] == t
    ensures SendTimes(longer, interval, start) == SendTimes(clock, interval, start)
    ensures LastCalled(longer, interval, start) == LastCalled(clock, interval, start)
    decreases n
  {
    var now := clock[|clock| - 1];
    if t - now <= gap {
      ReadQuietly(clock, interval, gap, start, t);
      longer := clock + [t];
    } else {
      ReadQuietly(clock, interval, gap, start, now + gap);
      longer := WaitUntil(clock + [now + gap], interval, gap, start, t, n - 1);
    }
  }

  lemma {:induction false} SendNext(clock: seq<real>, interval: real, gap: real, start: real, now: real)
    requires Steady(clock, gap) && clock != [] && clock[|clock| - 1] <= now <= clock[|clock| - 1] + gap
    requires now - LastCalled(clock, interval, start) > interval
    ensures Steady(clock + [now], gap)
    ensures SendTimes(clock + [now], interval, start) == SendTimes(clock, interval, start) + [now]
    ensures LastCalled(clock + [now], interval, start) == now
  {
    assert (clock + [now])[..|clock|] == clock;
  }

  lemma SendFirst(now: real, interval: real) returns (start: real)
    requires interval >= 0.0
    ensures SendTimes([now], interval, start) == [now] && LastCalled([now], interval, start) == now
  {
    start := now - interval - 1.0;
    assert [now][..0] == [] && LastCalled([], interval, start) == start;
    assert SendTimes([now], interval, start) == SendTimes([], interval, start) + Fired(start, now, interval);
  }

  /** The bounds on spacing are exact: whatever sends keep to them, some steady clock
      makes the loop send then. */
  lemma {:induction false} LoopCanSend(sends: seq<real>, interval: real, gap: real) returns (clock: seq<real>, start: real)
    requires interval >= 0.0 && gap > 0.0 && Spaced(sends, interval, gap)
    ensures Steady(clock, gap) && SendTimes(clock, interval, start) == sends
    ensures sends != [] ==> clock != [] && clock[|clock| - 1] == LastCalled(clock, interval, start) == sends[|sends| - 1]
    decreases |sends|
  {
    if sends == [] {
      clock, start := [], 0.0;
    } else if |sends| == 1 {
      clock := sends;
      start := SendFirst(sends[0], interval);
      assert sends == [sends[0]];
    } else {
      var front, last, now := sends[..|sends| - 1], sends[|sends| - 2], sends[|sends| - 1];
      assert interval < sends[|sends| - 2 + 1] - sends[|sends| - 2] <= interval + gap;
      clock, start := LoopCanSend(front, interval, gap);
      var n := EnoughGaps(interval, gap);
      clock := WaitUntil(clock, interval, gap, start, last + interval, n);
      SendNext(clock, interval, gap, start, now);
      clock := clock + [now];
      assert sends == front + [now];
    }
  }
}

module Workers {
  import opened SendLoop

  /** How `sender.send` ends: normally, with an Exception that is logged, or with a
      BaseException that ends the thread. */
  datatype Outcome = Sent | Failed | Fatal

  datatype Attempt<T> = Attempt(target: T, at: real, outcome: Outcome)

  function TimesOf<T(==)>(attempts: seq<Attempt<T>>, t: T): seq<real> {
    if attempts == [] then []
    else
      TimesOf(attempts[..|attempts| - 1], t)
      + if attempts[|attempts| - 1].target == t then [attempts[|attempts| - 1].at] else []
  }

  /** Attempts are only added, none is made after a fatal one, and the thread is alive
      iff there was none. */
  ghost predicate StopsAtFatal<T>(before: seq<Attempt<T>>, after: seq<Attempt<T>>, alive: bool) {
    && |before| <= |after| && after[..|before|] == before
    && (forall n :: |before| <= n < |after| - 1 ==> !after[n].outcome.Fatal?)
    && (alive <==> |after| == |before| || !after[|after| - 1].outcome.Fatal?)
  }

  /** The first `n` tracks after one reading, the others as they were. */
  function ReadFirst(ts: seq<Track>, n: nat, now: real, interval: real): (rs: seq<Track>)
    ensures |rs| == |ts| && forall i :: 0 <= i < |ts| ==> rs[i] == if i < n then Read(ts[i], now, interval) else ts[i]
  {
    seq(|ts|, i requires 0 <= i < |ts| => if i < n then Read(ts[i], now, interval) else ts[i])
  }

  /** Every track after all readings. */
  function ReadEach(ts: seq<Track>, clock: seq<real>, interval: real): (rs: seq<Track>)
    ensures |rs| == |ts| && forall i :: 0 <= i < |ts| ==> rs[i] == ReadAll(ts[i], clock, interval)
  {
    seq(|ts|, i requires 0 <= i < |ts| => ReadAll(ts[i], clock, interval))
  }

  lemma ReadEachNext(ts: seq<Track>, clock: seq<real>, n: nat, interval: real)
    requires n < |clock|
    ensures ReadFirst(ReadEach(ts, clock[..n], interval), |ts|, clock[n], interval) == ReadEach(ts, clock[..n + 1], interval)
  {
    assert clock[..n + 1][..n] == clock[..n];
  }

  ghost function TimesIn(clock: seq<real>): set<real> {
    set now | now in clock
  }

  /** What was attempted came out as it had to, at the given times. */
  ghost predicate Logged<T>(before: seq<Attempt<T>>, after: seq<Attempt<T>>, times: set<real>, outcome: (T, real) -> Outcome) {
    forall n :: |before| <= n < |after| ==> after[n].at in times && after[n].outcome == outcome(after[n].target, after[n].at)
  }

  lemma LoggedChain<T>(a: seq<Attempt<T>>, b: seq<Attempt<T>>, c: seq<Attempt<T>>, times: set<real>, more: set<real>,
                       outcome: (T, real) -> Outcome)
    requires |a| <= |b| <= |c| && c[..|b|] == b && more <= times
    requires Logged(a, b, times, outcome) && Logged(b, c, more, outcome)
    ensures Logged(a, c, times, outcome)
  {
    forall n | |a| <= n < |c| ensures c[n].at in times && c[n].outcome == outcome(c[n].target, c[n].at) {
      assert n < |b| ==> c[n] == b[n];
    }
  }

  /** A stretch of the log: what was attempted, and whether the thread is alive after it. */
  ghost predicate Ran<T>(before: seq<Attempt<T>>, after: seq<Attempt<T>>, alive: bool, times: set<real>, outcome: (T, real) -> Outcome) {
    StopsAtFatal(before, after, alive) && Logged(before, after, times, outcome)
  }

  /** The last attempt is to the given target at the given time. */
  predicate LastIs<T(==)>(attempts: seq<Attempt<T>>, t: T, at: real) {
    attempts != [] && attempts[|attempts| - 1].target == t && attempts[|attempts| - 1].at == at
  }

  lemma RanChain<T>(a: seq<Attempt<T>>, b: seq<Attempt<T>>, c: seq<Attempt<T>>, alive: bool, times: set<real>, more: set<real>,
                    outcome: (T, real) -> Outcome)
    requires more <= times && Ran(a, b, true, times, outcome) && Ran(b, c, alive, more, outcome)
    ensures Ran(a, c, alive, times, outcome)
    ensures !alive ==> |c| > |a| && c[|c| - 1].outcome.Fatal?
  {
    StopsChain(a, b, c, alive);
    LoggedChain(a, b, c, times, more, outcome);
  }

  lemma StopsChain<T>(a: seq<Attempt<T>>, b: seq<Attempt<T>>, c: seq<Attempt<T>>, alive: bool)
    requires StopsAtFatal(a, b, true) && StopsAtFatal(b, c, alive)
    ensures StopsAtFatal(a, c, alive)
  {
    assert c[..|a|] == b[..|a|];
    forall n | |a| <= n < |c| - 1 ensures !c[n].outcome.Fatal? {
      assert n < |b| ==> c[n] == b[n];
    }
    assert |c| == |b| > |a| ==> c[|c| - 1] == b[|b| - 1];
  }

  lemma {:induction false} TimesOfAppend<T>(attempts: seq<Attempt<T>>, a: Attempt<T>, t: T)
    ensures TimesOf(attempts + [a], t) == TimesOf(attempts, t) + if a.target == t then [a.at] else []
  {
    assert (attempts + [a])[..|attempts|] == attempts;
  }

  class Worker<T(==, !new)> {
    // the ordered dictionary of targets, and a record of the calls made
    var order: seq<T>
    var lastCalled: map<T, real>
    var attempts: seq<Attempt<T>>

    ghost predicate Valid()
      reads this
    {
      && (forall t :: t in lastCalled <==> t in order)
      && (forall i, j :: 0 <= i < j < |order| ==> order[i] != order[j])
    }

    constructor ()
      ensures Valid() && order == [] && attempts == []
    {
      order, lastCalled, attempts := [], map[], [];
    }

    method AddTarget(t: T)
      requires Valid()
      modifies this
      ensures Valid() && attempts == old(attempts)
      ensures order == if t in old(order) then old(order) else old(order) + [t]
      ensures lastCalled == if t in old(order) then old(lastCalled) else old(lastCalled)[t := 0.0]
    {
      if t !in lastCalled {
        lastCalled := lastCalled[t := 0.0];
        order := order + [t];
      }
    }

    function TrackOf(t: T): Track
      reads this
      requires t in lastCalled
    {
      Track(lastCalled[t], TimesOf(attempts, t))
    }

    /** How far the loop has got with each target, in their order. */
    function Tracks(): (ts: seq<Track>)
      reads this
      requires Valid()
      ensures |ts| == |order| && forall i :: 0 <= i < |order| ==> ts[i] == TrackOf(order[i])
    {
      seq(|order|, i requires 0 <= i < |order| reads this requires Valid() => TrackOf(order[i]))
    }

    method SendTo(t: T, now: real, interval: real, outcome: (T, real) -> Outcome) returns (alive: bool)
      requires Valid() && t in order
      modifies this
      ensures Valid() && order == old(order)
      ensures forall u :: u in order ==>
                            TrackOf(u) == if u == t then Read(old(TrackOf(u)), now, interval) else old(TrackOf(u))
      ensures attempts == old(attempts) + if now - old(lastCalled[t]) > interval then [Attempt(t, now, outcome(t, now))] else []
      ensures alive <==> !(now - old(lastCalled[t]) > interval && outcome(t, now).Fatal?)
    {
      alive := true;
      if now - lastCalled[t] > interval {
        lastCalled := lastCalled[t := now];
        var a := Attempt(t, now, outcome(t, now));
        forall u ensures TimesOf(attempts + [a], u) == TimesOf(attempts, u) + if a.target == u then [a.at] else [] {
          TimesOfAppend(attempts, a, u);
        }
        attempts := attempts + [a];
        alive := !a.outcome.Fatal?;
      }
    }

    /** One target's turn. `last_called` is set before the send, so that a failed
        send is a lost round. */
    method Visit(n: nat, now: real, interval: real, outcome: (T, real) -> Outcome) returns (alive: bool)
      requires Valid() && n < |order|
      modifies this
      ensures Valid() && order == old(order)
      ensures Tracks() == old(Tracks())[n := Read(old(Tracks())[n], now, interval)]
      ensures Ran(old(attempts), attempts, alive, {now}, outcome)
      ensures !alive ==> LastIs(attempts, order[n], now)
    {
      alive := SendTo(order[n], now, interval, outcome);
    }

    /** One turn of the loop: the first `served` targets get their turn; these are all, or
        the last of them is the one whose send was fatal. */
    method Turn(now: real, interval: real, outcome: (T, real) -> Outcome) returns (alive: bool, ghost served: nat)
      requires Valid()
      modifies this
      ensures Valid() && order == old(order) && served <= |order|
      ensures Tracks() == ReadFirst(old(Tracks()), served, now, interval)
      ensures Ran(old(attempts), attempts, alive, {now}, outcome)
      ensures if alive then served == |order| else served > 0 && LastIs(attempts, order[served - 1], now)
    {
      alive := true;
      var n := 0;
      while n < |order| && alive
        invariant n <= |order| && Valid() && order == old(order)
        invariant Tracks() == ReadFirst(old(Tracks()), n, now, interval)
        invariant Ran(old(attempts), attempts, alive, {now}, outcome)
        invariant !alive ==> n > 0 && LastIs(attempts, order[n - 1], now)
      {
        ghost var before := attempts;
        alive := Visit(n, now, interval, outcome);
        RanChain(old(attempts), before, attempts, alive, {now}, {now}, outcome);
        n := n + 1;
      }
      served := n;
    }

    /** `_process`, run over the successive readings of the clock: every target gets
        where it would get alone. `turns` is the number of whole turns; it is all of them
        unless a send is fatal, and then the loop stops in that very turn, with no attempt
        after the fatal one, and only the targets up to that one have had their turn. */
    method Process(clock: seq<real>, interval: real, outcome: (T, real) -> Outcome) returns (turns: nat, ghost served: nat)
      requires Valid()
      modifies this
      ensures Valid() && order == old(order) && turns <= |clock| && served <= |order|
      ensures Tracks() == if turns == |clock| then ReadEach(old(Tracks()), clock, interval)
                          else ReadFirst(ReadEach(old(Tracks()), clock[..turns], interval), served, clock[turns], interval)
      ensures Ran(old(attempts), attempts, turns == |clock|, TimesIn(clock), outcome)
      ensures turns < |clock| ==> served > 0 && LastIs(attempts, order[served - 1], clock[turns])
    {
      turns, served := 0, 0;
      var alive := true;
      while turns < |clock| && alive
        invariant Valid() && order == old(order) && turns <= |clock| && served <= |order|
        invariant !alive ==> turns < |clock| && served > 0 && LastIs(attempts, order[served - 1], clock[turns])
        invariant Tracks() == if alive then ReadEach(old(Tracks()), clock[..turns], interval)
                              else ReadFirst(ReadEach(old(Tracks()), clock[..turns], interval), served, clock[turns], interval)
        invariant Ran(old(attempts), attempts, alive, TimesIn(clock), outcome)
        decreases |clock| - turns, if alive then 1 else 0
      {
        ghost var before := attempts;
        alive, served := Turn(clock[turns], interval, outcome);
        RanChain(old(attempts), before, attempts, alive, TimesIn(clock), {clock[turns]}, outcome);
        if alive {
          ReadEachNext(old(Tracks()), clock, turns, interval);
          turns := turns + 1;
        }
      }
      assert turns == |clock| ==> clock[..turns] == clock;
    }
  }
}
