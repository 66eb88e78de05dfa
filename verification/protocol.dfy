/** Value types and the `Values` record of protocol.py, with its summation. */
module Protocol {
  import opened Wrappers

  const DEFAULT_INTERVAL: int := 10

  /** The collectd data source types; `Code` is the byte used on the wire. */
  datatype DsType = Counter | Gauge | Derive | Absolute
  {
    function Code(): nat {
      match this
      case Counter => 0
      case Gauge => 1
      case Derive => 2
      case Absolute => 3
    }
  }

  datatype Field = Field(name: string, dsType: DsType)

  datatype Type = Type(name: string, fields: seq<Field>)

  /** `None` stands for Python's None; the constructor never leaves `interval` None. */
  datatype Values<V> = Values(
    typeName: Option<string>,
    typeInstance: Option<string>,
    plugin: Option<string>,
    pluginInstance: Option<string>,
    host: Option<string>,
    time: Option<real>,
    interval: int,
    values: seq<V>)

  /** Records inside the server: every value is a count. */
  type Msg = Values<int>

  /** Python's `int(x)` on a float: truncation toward zero. */
  function Trunc(t: real): int {
    if t >= 0.0 then t.Floor else -((-t).Floor)
  }

  /** The whole part of a number of either sign: nearest to it on the side of zero. */
  lemma TruncIsTowardZero(t: real)
    ensures t >= 0.0 ==> 0 <= Trunc(t) && Trunc(t) as real <= t < Trunc(t) as real + 1.0
    ensures t <= 0.0 ==> Trunc(t) <= 0 && Trunc(t) as real - 1.0 < t <= Trunc(t) as real
  {
  }
}

/** `Values.__add__` and the built-in `sum` over a list of records. */
module Summation {
  import opened Wrappers
  import opened Protocol

  function Coalesce<T(==)>(a: Option<T>, b: Option<T>): Option<T> {
    if a == b then a else None
  }

  function AddVectors(a: seq<int>, b: seq<int>): (r: seq<int>)
    ensures |r| == if |a| <= |b| then |a| else |b|
    ensures forall i :: 0 <= i < |r| ==> r[i] == a[i] + b[i]
  {
    if a == [] || b == [] then [] else [a[0] + b[0]] + AddVectors(a[1..], b[1..])
  }

  /** Two records: vectors are zipped, metadata that differs is erased. An
      erased interval goes through the constructor and becomes the default. */
  function Add(a: Msg, b: Msg): Msg {
    Values(
      Coalesce(a.typeName, b.typeName),
      Coalesce(a.typeInstance, b.typeInstance),
      Coalesce(a.plugin, b.plugin),
      Coalesce(a.pluginInstance, b.pluginInstance),
      Coalesce(a.host, b.host),
      Coalesce(a.time, b.time),
      if a.interval == b.interval then a.interval else DEFAULT_INTERVAL,
      AddVectors(a.values, b.values))
  }

  /** `0 + v`, the first step of the built-in `sum`: a vector of zeros is zipped on. */
  function AddZero(v: Msg): Msg {
    v.(values := AddVectors(v.values, seq(|v.values|, _ => 0)))
  }

  function Sum(vs: seq<Msg>): Msg
    requires vs != []
  {
    if |vs| == 1 then AddZero(vs[0]) else Add(Sum(vs[..|vs| - 1]), vs[|vs| - 1])
  }

  // ----- What a sum is, without reference to the order of addition -----

  ghost predicate Uniform<T(!new)>(vs: seq<Msg>, f: Msg -> T) {
    forall a, b :: a in vs && b in vs ==> f(a) == f(b)
  }

  ghost predicate IsMinLength(vs: seq<Msg>, n: nat) {
    && (forall v :: v in vs ==> n <= |v.values|)
    && (exists v :: v in vs && n == |v.values|)
  }

  function Element(v: Msg, i: nat): int {
    if i < |v.values| then v.values[i] else 0
  }

  function ElementSum(vs: seq<Msg>, i: nat): int {
    if vs == [] then 0 else Element(vs[0], i) + ElementSum(vs[1..], i)
  }

  /** The common value of a metadata field, None when two records disagree. */
  ghost predicate IsAgreed<T(!new)>(vs: seq<Msg>, f: Msg -> Option<T>, r: Option<T>)
    requires vs != []
  {
    r == if Uniform(vs, f) then f(vs[0]) else None
  }

  function TypeNameOf(v: Msg): Option<string> { v.typeName }
  function TypeInstanceOf(v: Msg): Option<string> { v.typeInstance }
  function PluginOf(v: Msg): Option<string> { v.plugin }
  function PluginInstanceOf(v: Msg): Option<string> { v.pluginInstance }
  function HostOf(v: Msg): Option<string> { v.host }
  function TimeOf(v: Msg): Option<real> { v.time }
  function IntervalOf(v: Msg): int { v.interval }

  ghost predicate IsSumOf(vs: seq<Msg>, r: Msg)
    requires vs != []
  {
    && IsMinLength(vs, |r.values|)
    && (forall i :: 0 <= i < |r.values| ==> r.values[i] == ElementSum(vs, i))
    && IsAgreed(vs, TypeNameOf, r.typeName)
    && IsAgreed(vs, TypeInstanceOf, r.typeInstance)
    && IsAgreed(vs, PluginOf, r.plugin)
    && IsAgreed(vs, PluginInstanceOf, r.pluginInstance)
    && IsAgreed(vs, HostOf, r.host)
    && IsAgreed(vs, TimeOf, r.time)
    && r.interval == if Uniform(vs, IntervalOf) then vs[0].interval else DEFAULT_INTERVAL
  }

  lemma {:induction false} ElementSumAppend(vs: seq<Msg>, v: Msg, i: nat)
    ensures ElementSum(vs + [v], i) == ElementSum(vs, i) + Element(v, i)
  {
    if vs == [] {
      assert ElementSum([v], i) == Element(v, i) + ElementSum([], i);
    } else {
      assert (vs + [v])[1..] == vs[1..] + [v];
      ElementSumAppend(vs[1..], v, i);
    }
  }

  lemma AgreedAppend<T(!new)>(vs: seq<Msg>, v: Msg, f: Msg -> Option<T>, r: Option<T>)
    requires vs != [] && IsAgreed(vs, f, r)
    ensures IsAgreed(vs + [v], f, if r == f(v) then r else None)
  {
    var ws := vs + [v];
    assert vs[0] in vs && v in ws && forall x :: x in vs ==> x in ws;
    if !Uniform(vs, f) {
      assert !Uniform(ws, f);
    } else if f(vs[0]) == f(v) {
      assert Uniform(ws, f);
    } else {
      assert !Uniform(ws, f);
    }
  }

  lemma IntervalAppend(vs: seq<Msg>, v: Msg)
    requires vs != []
    ensures Uniform(vs + [v], IntervalOf) <==> Uniform(vs, IntervalOf) && vs[0].interval == v.interval
  {
    assert vs[0] in vs && v in vs + [v] && forall x :: x in vs ==> x in vs + [v];
  }

  lemma MinLengthAppend(vs: seq<Msg>, v: Msg, n: nat)
    requires IsMinLength(vs, n)
    ensures IsMinLength(vs + [v], if n <= |v.values| then n else |v.values|)
  {
    var w :| w in vs && n == |w.values|;
    assert w in vs + [v] && v in vs + [v];
  }

  lemma {:induction false} AddVectorsAppend(vs: seq<Msg>, v: Msg, r: Msg)
    requires vs != [] && IsSumOf(vs, r)
    ensures forall i :: 0 <= i < |Add(r, v).values| ==> Add(r, v).values[i] == ElementSum(vs + [v], i)
  {
    forall i | 0 <= i < |Add(r, v).values| ensures Add(r, v).values[i] == ElementSum(vs + [v], i) {
      ElementSumAppend(vs, v, i);
    }
  }

  lemma AddIsSumOf(vs: seq<Msg>, v: Msg, r: Msg)
    requires vs != [] && IsSumOf(vs, r)
    ensures IsSumOf(vs + [v], Add(r, v))
  {
    AgreedAppend(vs, v, TypeNameOf, r.typeName);
    AgreedAppend(vs, v, TypeInstanceOf, r.typeInstance);
    AgreedAppend(vs, v, PluginOf, r.plugin);
    AgreedAppend(vs, v, PluginInstanceOf, r.pluginInstance);
    AgreedAppend(vs, v, HostOf, r.host);
    AgreedAppend(vs, v, TimeOf, r.time);
    IntervalAppend(vs, v);
    MinLengthAppend(vs, v, |r.values|);
    AddVectorsAppend(vs, v, r);
  }

  /** `sum` gives the shortest vector of element-wise sums and, in each metadata
      field, the value all records agree on. */
  lemma {:induction false} SumIsSumOf(vs: seq<Msg>)
    requires vs != []
    ensures IsSumOf(vs, Sum(vs))
  {
    if |vs| == 1 {
      assert vs[0] in vs && vs[1..] == [];
    } else {
      var front := vs[..|vs| - 1];
      assert vs == front + [vs[|vs| - 1]];
      SumIsSumOf(front);
      AddIsSumOf(front, vs[|vs| - 1], Sum(front));
    }
  }

  lemma {:induction false} ElementSumRemove(vs: seq<Msg>, k: nat, i: nat)
    requires k < |vs|
    ensures ElementSum(vs, i) == Element(vs[k], i) + ElementSum(vs[..k] + vs[k + 1..], i)
  {
    if k == 0 {
      assert vs[..0] + vs[1..] == vs[1..];
    } else {
      ElementSumRemove(vs[1..], k - 1, i);
      assert (vs[..k] + vs[k + 1..])[1..] == vs[1..][..k - 1] + vs[1..][k..];
    }
  }

  lemma MultisetWithout<T>(ws: seq<T>, k: nat)
    requires k < |ws|
    ensures multiset(ws[..k] + ws[k + 1..]) == multiset(ws) - multiset{ws[k]}
  {
    assert ws == ws[..k] + [ws[k]] + ws[k + 1..];
  }

  lemma HeadIn<T>(vs: seq<T>, ws: seq<T>) returns (k: nat)
    requires vs != [] && multiset(vs) == multiset(ws)
    ensures k < |ws| && ws[k] == vs[0]
    ensures multiset(vs[1..]) == multiset(ws[..k] + ws[k + 1..])
  {
    assert vs[0] in multiset(ws);
    k :| 0 <= k < |ws| && ws[k] == vs[0];
    MultisetWithout(ws, k);
    MultisetWithout(vs, 0);
    assert vs[..0] + vs[1..] == vs[1..];
  }

  lemma {:induction false} ElementSumPermuted(vs: seq<Msg>, ws: seq<Msg>, i: nat)
    requires multiset(vs) == multiset(ws)
    ensures ElementSum(vs, i) == ElementSum(ws, i)
  {
    if vs == [] {
      assert |multiset(ws)| == 0;
    } else {
      var k := HeadIn(vs, ws);
      ElementSumPermuted(vs[1..], ws[..k] + ws[k + 1..], i);
      ElementSumRemove(ws, k, i);
    }
  }

  lemma AgreedSame<T(!new)>(vs: seq<Msg>, ws: seq<Msg>, f: Msg -> Option<T>, r: Option<T>, s: Option<T>)
    requires vs != [] && ws != [] && forall x :: x in vs <==> x in ws
    requires IsAgreed(vs, f, r) && IsAgreed(ws, f, s)
    ensures r == s
  {
    assert vs[0] in ws && ws[0] in vs;
    assert Uniform(vs, f) <==> Uniform(ws, f);
  }

  lemma IntervalsSame(vs: seq<Msg>, ws: seq<Msg>, r: Msg, s: Msg)
    requires vs != [] && ws != [] && forall x :: x in vs <==> x in ws
    requires IsSumOf(vs, r) && IsSumOf(ws, s)
    ensures r.interval == s.interval
  {
    assert vs[0] in ws && ws[0] in vs;
    assert Uniform(vs, IntervalOf) <==> Uniform(ws, IntervalOf);
    assert Uniform(vs, IntervalOf) ==> IntervalOf(vs[0]) == IntervalOf(ws[0]);
  }

  lemma VectorsSame(vs: seq<Msg>, ws: seq<Msg>, r: Msg, s: Msg)
    requires vs != [] && ws != [] && multiset(vs) == multiset(ws) && forall x :: x in vs <==> x in ws
    requires IsSumOf(vs, r) && IsSumOf(ws, s)
    ensures r.values == s.values
  {
    assert |r.values| == |s.values|;
    forall i | 0 <= i < |r.values| ensures r.values[i] == s.values[i] {
      ElementSumPermuted(vs, ws, i);
    }
  }

  /** Two records that both describe the sum of the same list, in any order, are equal. */
  lemma SumsCoincide(vs: seq<Msg>, ws: seq<Msg>, r: Msg, s: Msg)
    requires vs != [] && ws != [] && multiset(vs) == multiset(ws)
    requires IsSumOf(vs, r) && IsSumOf(ws, s)
    ensures r == s
  {
    assert forall x :: x in vs <==> x in multiset(vs);
    assert forall x :: x in ws <==> x in multiset(ws);
    VectorsSame(vs, ws, r, s);
    AgreedSame(vs, ws, TypeNameOf, r.typeName, s.typeName);
    AgreedSame(vs, ws, TypeInstanceOf, r.typeInstance, s.typeInstance);
    AgreedSame(vs, ws, PluginOf, r.plugin, s.plugin);
    AgreedSame(vs, ws, PluginInstanceOf, r.pluginInstance, s.pluginInstance);
    AgreedSame(vs, ws, HostOf, r.host, s.host);
    AgreedSame(vs, ws, TimeOf, r.time, s.time);
    IntervalsSame(vs, ws, r, s);
  }

  /** Summation does not depend on the order of the records. */
  lemma {:induction false} SumPermutation(vs: seq<Msg>, ws: seq<Msg>)
    requires vs != [] && multiset(vs) == multiset(ws)
    ensures ws != [] && Sum(vs) == Sum(ws)
  {
    assert vs[0] in multiset(ws);
    SumIsSumOf(vs);
    SumIsSumOf(ws);
    SumsCoincide(vs, ws, Sum(vs), Sum(ws));
  }

  /** Where the intervals of the summed records differ, the sum has an interval of 10. */
  lemma {:induction false} MixedIntervals(vs: seq<Msg>)
    requires exists a, b :: a in vs && b in vs && a.interval != b.interval
    ensures vs != [] && Sum(vs).interval == 10
  {
    SumIsSumOf(vs);
    var a, b :| a in vs && b in vs && a.interval != b.interval;
    assert IntervalOf(a) != IntervalOf(b);
  }

  lemma SumOfThree(a: Msg, b: Msg, c: Msg)
    ensures Sum([a, b, c]) == Add(Add(AddZero(a), b), c)
  {
    assert [a, b, c][..2] == [a, b] && [a, b][..1] == [a];
    assert Sum([a]) == AddZero(a) && Sum([a, b]) == Add(Sum([a]), b);
    assert Sum([a, b, c]) == Add(Sum([a, b]), c);
  }

  lemma SumTwoByTwo(x: int, y: int, z: int, w: int)
    ensures AddVectors([x, y], [z, w]) == [x + z, y + w]
  {
    assert AddVectors([y], [w]) == [y + w] + AddVectors([], []);
  }

  /** The sums of the repository's protocol test: equal records, and records whose type
      instances differ. */
  lemma TestSums(v: Msg)
    requires v == Values(Some("my_type"), Some("sometypeinstance"), Some("someplugin"), Some("someplugininstance"),
                         Some("somehost"), None, 10, [])
    ensures Sum([v.(values := [5, 10]), v.(values := [25, 8]), v.(values := [11, 7])]) == v.(values := [41, 25])
    ensures Sum([v.(typeInstance := Some("one"), values := [5, 10]), v.(typeInstance := Some("two"), values := [25, 8]),
                 v.(values := [11, 7])])
            == v.(typeInstance := None, values := [41, 25])
  {
    SumTwoByTwo(5, 10, 0, 0);
    SumTwoByTwo(5, 10, 25, 8);
    SumTwoByTwo(30, 18, 11, 7);
    assert seq(2, _ => 0) == [0, 0];
    SumOfThree(v.(values := [5, 10]), v.(values := [25, 8]), v.(values := [11, 7]));
    SumOfThree(v.(typeInstance := Some("one"), values := [5, 10]), v.(typeInstance := Some("two"), values := [25, 8]), v.(values := [11, 7]));
    assert "one" != "two" by {
      assert "one"[0] != "two"[0];
    }
  }
}
