/** The decoder seen as a function on sequences of parts. */
module Framing {
  import opened Wrappers
  import opened Bytes
  import opened Codec

  function CodeOf(p: seq<Byte>): nat
    requires |p| >= 4
  {
    UnpackShort(p[..2])
  }

  /** A part whose declared length is its length, and whose contents, read alone, decode. */
  ghost predicate Framed(p: seq<Byte>) {
    && |p| >= 4
    && UnpackShort(p[2..4]) == |p|
    && Handle(CodeOf(p), |p|, p).Success?
  }

  ghost predicate AllFramed(ps: seq<seq<Byte>>) {
    forall i :: 0 <= i < |ps| ==> Framed(ps[i])
  }

  function Join(ps: seq<seq<Byte>>): seq<Byte> {
    if ps == [] then [] else ps[0] + Join(ps[1..])
  }

  /** What one framed part contributes. */
  ghost function Says(p: seq<Byte>): map<nat, PartValue>
    requires Framed(p)
  {
    One(CodeOf(p), Handle(CodeOf(p), |p|, p).value)
  }

  ghost function Contributions(ps: seq<seq<Byte>>): (ms: seq<map<nat, PartValue>>)
    requires AllFramed(ps)
    ensures |ms| == |ps| && forall i :: 0 <= i < |ps| ==> ms[i] == Says(ps[i])
  {
    seq(|ps|, i requires 0 <= i < |ps| => Says(ps[i]))
  }

  /** Maps in order, later ones overriding earlier ones. */
  function Override<K, V>(ms: seq<map<K, V>>): map<K, V> {
    if ms == [] then map[] else ms[0] + Override(ms[1..])
  }

  lemma {:induction false} OverrideConcat<K, V>(ms: seq<map<K, V>>, ns: seq<map<K, V>>)
    ensures Override(ms + ns) == Override(ms) + Override(ns)
  {
    if ms == [] {
      assert ms + ns == ns;
    } else {
      OverrideConcat(ms[1..], ns);
      assert (ms + ns)[1..] == ms[1..] + ns;
    }
  }

  /** Map `i` is the last one with key `c`. */
  ghost predicate LastWith<K, V>(ms: seq<map<K, V>>, i: int, c: K) {
    0 <= i < |ms| && c in ms[i] && forall j :: i < j < |ms| ==> c !in ms[j]
  }

  lemma {:induction false} LastWins<K, V>(ms: seq<map<K, V>>, c: K)
    ensures c in Override(ms) <==> exists i :: LastWith(ms, i, c)
    ensures forall i :: LastWith(ms, i, c) ==> c in Override(ms) && Override(ms)[c] == ms[i][c]
  {
    if ms != [] {
      var rest := ms[1..];
      LastWins(rest, c);
      forall i | 0 <= i < |rest| ensures LastWith(ms, i + 1, c) <==> LastWith(rest, i, c) {
        assert forall j :: i < j < |rest| ==> rest[j] == ms[j + 1];
        assert forall j :: i + 1 < j < |ms| ==> ms[j] == rest[j - 1];
      }
      if c in Override(rest) {
        var i :| LastWith(rest, i, c);
        assert LastWith(ms, i + 1, c);
      } else if c in ms[0] {
        forall j | 0 < j < |ms| ensures c !in ms[j] {
          NoneLast(rest, c, j - 1);
        }
        assert LastWith(ms, 0, c);
      }
      forall i | LastWith(ms, i, c) ensures c in Override(ms) && Override(ms)[c] == ms[i][c] {
        if i > 0 {
          assert LastWith(rest, i - 1, c);
        } else {
          assert forall j :: 0 <= j < |rest| ==> rest[j] == ms[j + 1];
        }
      }
    }
  }

  lemma {:induction false} NoneLast<K, V>(ms: seq<map<K, V>>, c: K, j: nat)
    requires j < |ms| && forall i :: !LastWith(ms, i, c)
    ensures c !in ms[j]
    decreases |ms| - j
  {
    forall k | j < k < |ms| ensures c !in ms[k] {
      NoneLast(ms, c, k);
    }
    assert !LastWith(ms, j, c);
  }

  ghost predicate DisjointKeys<K, V>(ms: seq<map<K, V>>) {
    forall i, j, c :: 0 <= i < j < |ms| && c in ms[i] ==> c !in ms[j]
  }

  lemma {:induction false} DisjointOverride<K, V>(ms: seq<map<K, V>>, c: K)
    requires DisjointKeys(ms)
    ensures c in Override(ms) <==> exists m :: m in ms && c in m
    ensures forall m :: m in ms && c in m ==> c in Override(ms) && Override(ms)[c] == m[c]
  {
    LastWins(ms, c);
    forall i | 0 <= i < |ms| && c in ms[i] ensures LastWith(ms, i, c) {
    }
  }

  lemma {:induction false} DisjointAgree<K, V>(ms: seq<map<K, V>>, ns: seq<map<K, V>>, c: K)
    requires DisjointKeys(ms) && DisjointKeys(ns) && forall m :: m in ms ==> m in ns
    requires c in Override(ms)
    ensures c in Override(ns) && Override(ms)[c] == Override(ns)[c]
  {
    DisjointOverride(ms, c);
    DisjointOverride(ns, c);
    var m :| m in ms && c in m;
    assert m in ns;
  }

  lemma {:induction false} DisjointPermuted<K, V>(ms: seq<map<K, V>>, ns: seq<map<K, V>>)
    requires DisjointKeys(ms) && DisjointKeys(ns) && forall m :: m in ms <==> m in ns
    ensures Override(ms) == Override(ns)
  {
    var f, g := Override(ms), Override(ns);
    forall c | c in f ensures c in g && f[c] == g[c] {
      DisjointAgree(ms, ns, c);
    }
    forall c | c in g ensures c in f {
      DisjointAgree(ns, ms, c);
    }
    assert f.Keys == g.Keys;
  }

  lemma {:induction false} UnpackDataIgnoresTail(p: seq<Byte>, b: seq<Byte>, typesAt: nat, dataAt: nat, n: nat)
    requires UnpackData(p, typesAt, dataAt, n).Success?
    ensures UnpackData(p + b, typesAt, dataAt, n) == UnpackData(p, typesAt, dataAt, n)
    decreases n
  {
    if n > 0 {
      UnpackDataIgnoresTail(p, b, typesAt + 1, dataAt + 8, n - 1);
      assert (p + b)[typesAt] == p[typesAt];
      assert (p + b)[dataAt..dataAt + 8] == p[dataAt..dataAt + 8];
    }
  }

  lemma HandleIgnoresTail(p: seq<Byte>, b: seq<Byte>)
    requires Framed(p)
    ensures Handle(CodeOf(p), |p|, p + b) == Handle(CodeOf(p), |p|, p)
  {
    var code := CodeOf(p);
    if IsText(code) {
      assert Slice(p + b, 4, |p| - 1) == Slice(p, 4, |p| - 1);
    } else if IsNumber(code) {
      assert (p + b)[4..12] == p[4..12];
    } else if code == TYPE_VALUES {
      assert (p + b)[4..6] == p[4..6];
      var n := UnpackShort(p[4..6]);
      UnpackDataIgnoresTail(p, b, 6, 6 + n, n);
    }
  }

  lemma {:induction false} PartFirst(p: seq<Byte>, b: seq<Byte>)
    requires Framed(p)
    ensures Parts(p + b) == Then(Says(p), Parts(b))
  {
    HandleIgnoresTail(p, b);
    var buf := p + b;
    assert buf[..2] == p[..2] && buf[2..4] == p[2..4];
    assert buf[|p|..] == b;
  }

  /** Contributions in order, later ones overriding earlier ones. */
  ghost function Meaning(ps: seq<seq<Byte>>): map<nat, PartValue>
    requires AllFramed(ps)
  {
    Override(Contributions(ps))
  }

  /** Decoding framed parts followed by anything at all is decoding the parts,
      overridden by decoding the rest, or failing as the rest fails. */
  lemma {:induction false} DecodeAfterParts(ps: seq<seq<Byte>>, b: seq<Byte>)
    requires AllFramed(ps)
    ensures Parts(Join(ps) + b) == Then(Meaning(ps), Parts(b))
  {
    if ps == [] {
      assert Join(ps) + b == b;
      ThenNothing(map[], Parts(b));
    } else {
      DecodeAfterParts(ps[1..], b);
      assert Join(ps) + b == ps[0] + (Join(ps[1..]) + b);
      PartFirst(ps[0], Join(ps[1..]) + b);
      assert Contributions(ps)[1..] == Contributions(ps[1..]);
      ThenTwo(Says(ps[0]), Meaning(ps[1..]), Parts(b));
    }
  }

  lemma {:induction false} DecodeParts(ps: seq<seq<Byte>>)
    requires AllFramed(ps)
    ensures Parts(Join(ps)) == Success(Meaning(ps))
  {
    DecodeAfterParts(ps, []);
    assert Join(ps) + [] == Join(ps);
    ThenNothing(Meaning(ps), Success(map[]));
  }

  // ----- What follows from it -----

  /** The decoder is a homomorphism from concatenation to overriding. */
  lemma {:induction false} DecodeConcat(ps: seq<seq<Byte>>, qs: seq<seq<Byte>>)
    requires AllFramed(ps) && AllFramed(qs)
    ensures exists m, n :: Parts(Join(ps)) == Success(m) && Parts(Join(qs)) == Success(n)
                           && Parts(Join(ps) + Join(qs)) == Success(m + n)
  {
    DecodeParts(ps);
    DecodeParts(qs);
    DecodeAfterParts(ps, Join(qs));
  }

  /** The last part of a code wins, and a code without a part is absent. */
  lemma {:induction false} LastPartWins(ps: seq<seq<Byte>>, c: nat)
    requires AllFramed(ps)
    ensures Parts(Join(ps)).Success?
    ensures var m, says := Parts(Join(ps)).value, Contributions(ps);
      && (c in m <==> exists i :: LastWith(says, i, c))
      && forall i :: LastWith(says, i, c) ==> c in m && m[c] == says[i][c]
  {
    DecodeParts(ps);
    LastWins(Contributions(ps), c);
  }

  lemma FramedConcat(ps: seq<seq<Byte>>, qs: seq<seq<Byte>>)
    requires AllFramed(ps) && AllFramed(qs)
    ensures AllFramed(ps + qs) && Contributions(ps + qs) == Contributions(ps) + Contributions(qs)
  {
    forall i | 0 <= i < |ps + qs| ensures Framed((ps + qs)[i]) {
      assert (ps + qs)[i] == if i < |ps| then ps[i] else qs[i - |ps|];
    }
  }

  lemma MeaningConcat(ps: seq<seq<Byte>>, qs: seq<seq<Byte>>)
    requires AllFramed(ps) && AllFramed(qs)
    ensures AllFramed(ps + qs) && Meaning(ps + qs) == Meaning(ps) + Meaning(qs)
  {
    FramedConcat(ps, qs);
    OverrideConcat(Contributions(ps), Contributions(qs));
  }

  lemma MeaningOfUnknown(u: seq<Byte>)
    requires Framed(u) && CodeOf(u) > TYPE_INTERVAL
    ensures AllFramed([u]) && Meaning([u]) == map[]
  {
    var ms := Contributions([u]);
    assert ms[0] == Says(u) == map[] && ms[1..] == [];
    assert Override(ms) == ms[0] + Override(ms[1..]) == map[];
  }

  lemma MeaningAround(ps: seq<seq<Byte>>, u: seq<Byte>, qs: seq<seq<Byte>>)
    requires AllFramed(ps) && AllFramed(qs) && Framed(u) && CodeOf(u) > TYPE_INTERVAL
    ensures AllFramed([u] + qs) && AllFramed(ps + ([u] + qs)) && AllFramed(ps + qs)
    ensures Meaning(ps + ([u] + qs)) == Meaning(ps + qs)
  {
    MeaningOfUnknown(u);
    MeaningConcat([u], qs);
    assert map[] + Meaning(qs) == Meaning(qs);
    MeaningConcat(ps, [u] + qs);
    MeaningConcat(ps, qs);
  }

  /** A part of unknown code, wherever it is put between parts, changes nothing. */
  lemma {:induction false} UnknownPartIgnored(ps: seq<seq<Byte>>, u: seq<Byte>, qs: seq<seq<Byte>>)
    requires AllFramed(ps) && AllFramed(qs) && Framed(u) && CodeOf(u) > TYPE_INTERVAL
    ensures Parts(Join(ps + ([u] + qs))) == Parts(Join(ps + qs))
  {
    MeaningAround(ps, u, qs);
    DecodeParts(ps + ([u] + qs));
    DecodeParts(ps + qs);
  }

  ghost predicate DistinctCodes(ps: seq<seq<Byte>>)
    requires AllFramed(ps)
  {
    forall i, j :: 0 <= i < j < |ps| ==> CodeOf(ps[i]) != CodeOf(ps[j])
  }

  lemma DistinctAreDisjoint(ps: seq<seq<Byte>>)
    requires AllFramed(ps) && DistinctCodes(ps)
    ensures DisjointKeys(Contributions(ps))
  {
  }

  lemma ContributionsOfSame(ps: seq<seq<Byte>>, qs: seq<seq<Byte>>, m: map<nat, PartValue>)
    requires AllFramed(ps) && AllFramed(qs) && (forall p :: p in ps ==> p in qs)
    requires m in Contributions(ps)
    ensures m in Contributions(qs)
  {
    var i :| 0 <= i < |ps| && Contributions(ps)[i] == m;
    assert ps[i] in ps;
    var j :| 0 <= j < |qs| && qs[j] == ps[i];
    assert Contributions(qs)[j] == m;
  }

  /** Parts with distinct codes may come in any order. */
  lemma {:induction false} PermutedParts(ps: seq<seq<Byte>>, qs: seq<seq<Byte>>)
    requires AllFramed(ps) && AllFramed(qs) && DistinctCodes(ps) && DistinctCodes(qs)
    requires forall p :: p in ps <==> p in qs
    ensures Parts(Join(ps)) == Parts(Join(qs))
  {
    DistinctAreDisjoint(ps);
    DistinctAreDisjoint(qs);
    forall m ensures m in Contributions(ps) <==> m in Contributions(qs) {
      if m in Contributions(ps) {
        ContributionsOfSame(ps, qs, m);
      }
      if m in Contributions(qs) {
        ContributionsOfSame(qs, ps, m);
      }
    }
    DisjointPermuted(Contributions(ps), Contributions(qs));
    DecodeParts(ps);
    DecodeParts(qs);
  }

  // ----- Whether the loop returns -----

  /** Where the decoding loop is between two turns: at an offset, or out of the loop, by
      its condition or by an exception. */
  datatype Loop = Running(pos: nat) | Ended

  /** One turn; a part that is handled moves the offset by whatever length it declares. */
  function Turn(buf: seq<Byte>, s: Loop): Loop {
    if s.Ended? || |buf| - s.pos < 4 then Ended
    else
      var tail := buf[s.pos..];
      var len := UnpackShort(tail[2..4]);
      if Handle(CodeOf(tail), len, tail).Success? then Running(s.pos + len) else Ended
  }

  function Turns(buf: seq<Byte>, s: Loop, n: nat): Loop
    decreases n
  {
    if n == 0 then s else Turns(buf, Turn(buf, s), n - 1)
  }

  /** However many turns it takes, the loop is not over. */
  ghost predicate RunsOn(buf: seq<Byte>, s: Loop) {
    forall n: nat :: Turns(buf, s, n).Running?
  }

  lemma {:induction false} Repeats(buf: seq<Byte>, s: Loop, n: nat)
    requires Turn(buf, s) == s
    ensures Turns(buf, s, n) == s
  {
    if n > 0 {
      Repeats(buf, s, n - 1);
    }
  }

  lemma RunsOnNext(buf: seq<Byte>, s: Loop)
    ensures RunsOn(buf, s) <==> s.Running? && RunsOn(buf, Turn(buf, s))
  {
    assert Turns(buf, s, 0) == s;
    if RunsOn(buf, s) {
      forall n: nat ensures Turns(buf, Turn(buf, s), n).Running? {
        assert Turns(buf, s, n + 1) == Turns(buf, Turn(buf, s), n);
      }
    }
    if s.Running? && RunsOn(buf, Turn(buf, s)) {
      forall n: nat ensures Turns(buf, s, n).Running? {
        if n > 0 {
          assert Turns(buf, Turn(buf, s), n - 1).Running?;
        }
      }
    }
  }

  lemma EndedIsOver(buf: seq<Byte>)
    ensures !RunsOn(buf, Ended)
  {
    assert Turns(buf, Ended, 0) == Ended;
  }

  lemma StandsStill(buf: seq<Byte>, pos: nat)
    requires Turn(buf, Running(pos)) == Running(pos)
    ensures RunsOn(buf, Running(pos))
  {
    forall n: nat ensures Turns(buf, Running(pos), n).Running? {
      Repeats(buf, Running(pos), n);
    }
  }

  /** What the reading of the rest reports as never returning is a loop that runs on. */
  lemma {:induction false} LoopFrom(buf: seq<Byte>, pos: nat)
    ensures Parts(if pos <= |buf| then buf[pos..] else []) == Failure(NeverReturns) <==> RunsOn(buf, Running(pos))
    decreases |buf| - pos
  {
    RunsOnNext(buf, Running(pos));
    EndedIsOver(buf);
    if |buf| - pos >= 4 {
      var tail := buf[pos..];
      var len := UnpackShort(tail[2..4]);
      if Handle(CodeOf(tail), len, tail).Success? {
        if len == 0 {
          StandsStill(buf, pos);
        } else {
          LoopFrom(buf, pos + len);
          assert len <= |tail| ==> tail[len..] == buf[pos + len..];
        }
      }
    }
  }

  /** Reading from the start, part after handled part, the decoder comes to offset `p`
      and finds there a part it can handle that declares length zero. */
  ghost predicate StuckAt(buf: seq<Byte>, p: nat)
    decreases |buf|
  {
    && |buf| >= 4
    && var len := UnpackShort(buf[2..4]);
    && Handle(CodeOf(buf), len, buf).Success?
    && if len == 0 then p == 0 else len <= |buf| && len <= p && StuckAt(buf[len..], p - len)
  }

  lemma {:induction false} NeverReturnsIffStuck(buf: seq<Byte>)
    ensures Parts(buf) == Failure(NeverReturns) <==> exists p: nat :: StuckAt(buf, p)
    decreases |buf|
  {
    if |buf| >= 4 {
      var len := UnpackShort(buf[2..4]);
      var handled := Handle(CodeOf(buf), len, buf);
      if handled.Success? && len == 0 {
        var p: nat := 0;
        assert StuckAt(buf, p);
        assert exists q: nat :: StuckAt(buf, q);
        assert Parts(buf) == Failure(NeverReturns);
      } else if handled.Success? && len <= |buf| {
        NeverReturnsIffStuck(buf[len..]);
        assert Parts(buf) == Then(One(CodeOf(buf), handled.value), Parts(buf[len..]));
        if p: nat :| StuckAt(buf[len..], p) {
          assert StuckAt(buf, p + len);
          assert exists q: nat :: StuckAt(buf, q);
        }
        if q: nat :| StuckAt(buf, q) {
          assert StuckAt(buf[len..], q - len);
          assert exists p: nat :: StuckAt(buf[len..], p);
        }
      }
    }
  }

  /** The decoding loop runs on for ever on exactly the buffers that lead it to a part of
      length zero, which are those reported as never returning; on all others it is
      over after some number of turns. */
  lemma {:induction false} LoopsIffStuck(buf: seq<Byte>)
    ensures RunsOn(buf, Running(0)) <==> exists p: nat :: StuckAt(buf, p)
    ensures RunsOn(buf, Running(0)) <==> Parts(buf) == Failure(NeverReturns)
    ensures Parts(buf) != Failure(NeverReturns) ==> exists n: nat :: Turns(buf, Running(0), n).Ended?
  {
    LoopFrom(buf, 0);
    assert buf[0..] == buf;
    NeverReturnsIffStuck(buf);
    if Parts(buf) != Failure(NeverReturns) {
      var n: nat :| !Turns(buf, Running(0), n).Running?;
    }
  }

  // ----- What comes of a packet -----

  /** The packet has a part of the code. */
  ghost predicate HasPart(ps: seq<seq<Byte>>, c: nat)
    requires AllFramed(ps)
  {
    exists i :: 0 <= i < |ps| && c in Says(ps[i])
  }

  lemma {:induction false} PartsByCode(ps: seq<seq<Byte>>, c: nat)
    requires AllFramed(ps)
    ensures Parts(Join(ps)).Success?
    ensures c in Parts(Join(ps)).value <==> HasPart(ps, c)
  {
    LastPartWins(ps, c);
    var says := Contributions(ps);
    if i :| 0 <= i < |ps| && c in Says(ps[i]) {
      assert c in says[i];
      if forall j :: !LastWith(says, j, c) {
        NoneLast(says, c, i);
      }
    }
  }

  /** The packet's last type part names a known type. */
  ghost predicate TypeKnown(types: Registry, ps: seq<seq<Byte>>)
    requires AllFramed(ps)
  {
    var m := Parts(Join(ps));
    m.Success? && 4 in m.value && m.value[4].Text? && m.value[4].text in types
  }

  lemma KnownHasPart(types: Registry, ps: seq<seq<Byte>>)
    requires AllFramed(ps) && TypeKnown(types, ps)
    ensures HasPart(ps, 4)
  {
    PartsByCode(ps, 4);
  }

  /** A packet of framed parts is skipped iff it has no type part, or its last one names a
      type not known; it fails with a KeyError iff its type is known and one of the codes
      0 to 7 has no part; and otherwise gives a record. */
  lemma {:induction false} PacketOutcome(types: Registry, ps: seq<seq<Byte>>)
    requires AllFramed(ps)
    ensures var r := UnpackBytes(types, Join(ps));
      && (r == Success(None) <==> !TypeKnown(types, ps))
      && (r == Failure(KeyError) <==> TypeKnown(types, ps) && exists c: nat :: c < 8 && !HasPart(ps, c))
      && (r.Success? || r == Failure(KeyError))
  {
    PartsByCode(ps, 0);
    forall c: nat ensures c in Parts(Join(ps)).value <==> HasPart(ps, c) {
      PartsByCode(ps, c);
    }
  }
}
