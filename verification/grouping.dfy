/** `sorted` and `itertools.groupby` over the (host, program, token) keys of a bucket. */
module Grouping {

  datatype Key = Key(host: string, program: string, token: string)

  /** What the two aggregations group by. */
  datatype Scope = ByProgram | ByHost

  datatype Group = Program(host: string, program: string) | Host(host: string)

  function GroupOf(scope: Scope, k: Key): Group {
    if scope.ByProgram? then Program(k.host, k.program) else Host(k.host)
  }

  // ----- Python's order on strings and on tuples of strings -----

  predicate StringLeq(a: string, b: string) {
    a == [] || (b != [] && (a[0] < b[0] || (a[0] == b[0] && StringLeq(a[1..], b[1..]))))
  }

  /** `a` is a prefix of `b`, or smaller at the first place where they differ. */
  ghost predicate Lexicographic(a: string, b: string) {
    || (|a| <= |b| && b[..|a|] == a)
    || exists n :: 0 <= n < |a| && n < |b| && SmallerAt(a, b, n)
  }

  ghost predicate SmallerAt(a: string, b: string, n: nat)
    requires n < |a| && n < |b|
  {
    a[..n] == b[..n] && a[n] < b[n]
  }

  lemma {:induction false} StringLeqIff(a: string, b: string)
    ensures StringLeq(a, b) <==> Lexicographic(a, b)
  {
    if a != [] && b != [] && a[0] == b[0] {
      StringLeqIff(a[1..], b[1..]);
      OneCharacterOn(a, b);
    } else if a != [] && b != [] {
      HeadsTell(a, b);
    }
  }

  lemma HeadsTell(a: string, b: string)
    requires a != [] && b != [] && a[0] != b[0]
    ensures Lexicographic(a, b) <==> a[0] < b[0]
  {
    assert |a| <= |b| ==> b[..|a|][0] == b[0];
    forall n | 0 < n < |a| && n < |b| ensures !SmallerAt(a, b, n) {
      assert a[..n][0] == a[0] && b[..n][0] == b[0];
    }
    if a[0] < b[0] {
      assert SmallerAt(a, b, 0);
    }
  }

  lemma OneCharacterOn(a: string, b: string)
    requires a != [] && b != [] && a[0] == b[0]
    ensures Lexicographic(a, b) <==> Lexicographic(a[1..], b[1..])
  {
    var c, d := a[1..], b[1..];
    if |a| <= |b| {
      assert b[..|a|] == [b[0]] + d[..|c|] && a == [a[0]] + c;
      assert b[..|a|] == a <==> d[..|c|] == c by {
        assert b[..|a|][1..] == d[..|c|];
      }
    }
    forall n: nat | n < |c| && n < |d| ensures SmallerAt(c, d, n) <==> SmallerAt(a, b, n + 1) {
      assert a[..n + 1] == [a[0]] + c[..n] && b[..n + 1] == [b[0]] + d[..n];
      assert a[..n + 1][1..] == c[..n] && b[..n + 1][1..] == d[..n];
    }
    if n :| 0 <= n < |c| && n < |d| && SmallerAt(c, d, n) {
      assert SmallerAt(a, b, n + 1);
    }
    if n :| 0 <= n < |a| && n < |b| && SmallerAt(a, b, n) {
      assert SmallerAt(c, d, n - 1);
    }
  }

  /** Different strings in Python's order. */
  ghost predicate StringLess(a: string, b: string) {
    a != b && Lexicographic(a, b)
  }

  /** Groups of one scope, in order of host and then program. */
  ghost predicate GroupLess(p: Group, q: Group) {
    match (p, q)
    case (Program(h, a), Program(i, b)) => StringLess(h, i) || (h == i && StringLess(a, b))
    case (Host(h), Host(i)) => StringLess(h, i)
    case _ => false
  }

  lemma GroupsFollowKeys(scope: Scope, a: Key, b: Key)
    requires Leq(a, b) && GroupOf(scope, a) != GroupOf(scope, b)
    ensures GroupLess(GroupOf(scope, a), GroupOf(scope, b))
  {
    StringLeqIff(a.host, b.host);
    StringLeqIff(a.program, b.program);
  }

  predicate Leq(a: Key, b: Key) {
    if a.host != b.host then StringLeq(a.host, b.host)
    else if a.program != b.program then StringLeq(a.program, b.program)
    else StringLeq(a.token, b.token)
  }

  /** Keys are ordered by host, then program, then token, as strings are. */
  lemma LeqIff(a: Key, b: Key)
    ensures Leq(a, b) <==>
            || StringLess(a.host, b.host)
            || (a.host == b.host && StringLess(a.program, b.program))
            || (a.host == b.host && a.program == b.program && Lexicographic(a.token, b.token))
  {
    StringLeqIff(a.host, b.host);
    StringLeqIff(a.program, b.program);
    StringLeqIff(a.token, b.token);
  }

  lemma {:induction false} StringLeqTotal(a: string, b: string)
    ensures StringLeq(a, b) || StringLeq(b, a)
    ensures StringLeq(a, b) && StringLeq(b, a) ==> a == b
  {
    if a != [] && b != [] && a[0] == b[0] {
      StringLeqTotal(a[1..], b[1..]);
      assert a == [a[0]] + a[1..] && b == [b[0]] + b[1..];
    }
  }

  lemma {:induction false} StringLeqTransitive(a: string, b: string, c: string)
    requires StringLeq(a, b) && StringLeq(b, c)
    ensures StringLeq(a, c)
  {
    if a != [] && b != [] && c != [] && a[0] == b[0] == c[0] {
      StringLeqTransitive(a[1..], b[1..], c[1..]);
    }
  }

  lemma LeqTotal(a: Key, b: Key)
    ensures Leq(a, b) || Leq(b, a)
    ensures Leq(a, b) && Leq(b, a) ==> a == b
  {
    StringLeqTotal(a.host, b.host);
    StringLeqTotal(a.program, b.program);
    StringLeqTotal(a.token, b.token);
  }

  lemma LeqTransitive(a: Key, b: Key, c: Key)
    requires Leq(a, b) && Leq(b, c)
    ensures Leq(a, c)
  {
    if a.host != b.host || b.host != c.host {
      StringLeqThrough(a.host, b.host, c.host);
    } else if a.program != b.program || b.program != c.program {
      StringLeqThrough(a.program, b.program, c.program);
    } else {
      StringLeqThrough(a.token, b.token, c.token);
    }
  }

  /** Transitivity where two neighbours may be equal, and a round trip forces equality. */
  lemma {:induction false} StringLeqThrough(a: string, b: string, c: string)
    requires a == b || StringLeq(a, b)
    requires b == c || StringLeq(b, c)
    ensures a == c || StringLeq(a, c)
    ensures a == c ==> a == b
    ensures StringLeq(a, a)
  {
    StringLeqTotal(a, a);
    StringLeqTotal(a, b);
    if a != b && b != c {
      StringLeqTransitive(a, b, c);
    }
  }

  // ----- sorted(...) -----

  predicate IsLeast(s: set<Key>, k: Key) {
    k in s && forall x :: x in s ==> Leq(k, x)
  }

  lemma {:induction false} LeastExists(s: set<Key>)
    requires s != {}
    ensures exists k :: IsLeast(s, k)
  {
    var k :| k in s;
    LeqTotal(k, k);
    if s == {k} {
      assert IsLeast(s, k);
    } else {
      LeastExists(s - {k});
      var m :| IsLeast(s - {k}, m);
      LeqTotal(k, m);
      if Leq(m, k) {
        assert IsLeast(s, m);
      } else {
        forall x | x in s ensures Leq(k, x) {
          if x != k {
            LeqTransitive(k, m, x);
          }
        }
        assert IsLeast(s, k);
      }
    }
  }

  lemma LeastUnique(s: set<Key>, a: Key, b: Key)
    requires IsLeast(s, a) && IsLeast(s, b)
    ensures a == b
  {
    LeqTotal(a, b);
  }

  function Least(s: set<Key>): (k: Key)
    requires s != {}
    ensures IsLeast(s, k)
  {
    LeastExists(s);
    assert forall a, b :: IsLeast(s, a) && IsLeast(s, b) ==> a == b by {
      forall a, b | IsLeast(s, a) && IsLeast(s, b) ensures a == b {
        LeastUnique(s, a, b);
      }
    }
    var k :| k in s && IsLeast(s, k);
    k
  }

  ghost predicate Ascending(ks: seq<Key>) {
    forall i, j :: 0 <= i < j < |ks| ==> Leq(ks[i], ks[j]) && ks[i] != ks[j]
  }

  /** `sorted(keys)`: every key once, in ascending order. */
  function Sorted(s: set<Key>): (ks: seq<Key>)
    ensures Ascending(ks)
    ensures forall k :: k in ks <==> k in s
  {
    if s == {} then [] else
      var k := Least(s);
      [k] + Sorted(s - {k})
  }

  // ----- groupby -----

  /** Length of the leading run of keys that fall into one group. */
  function RunLength(scope: Scope, ks: seq<Key>): (n: nat)
    requires ks != []
    ensures 1 <= n <= |ks|
    ensures forall i :: 0 <= i < n ==> GroupOf(scope, ks[i]) == GroupOf(scope, ks[0])
    ensures n < |ks| ==> GroupOf(scope, ks[n]) != GroupOf(scope, ks[0])
  {
    if |ks| == 1 || GroupOf(scope, ks[1]) != GroupOf(scope, ks[0]) then 1
    else 1 + RunLength(scope, ks[1..])
  }

  function GroupBy(scope: Scope, ks: seq<Key>): seq<seq<Key>> {
    if ks == [] then [] else
      var n := RunLength(scope, ks);
      [ks[..n]] + GroupBy(scope, ks[n..])
  }

  /** In ascending order a group, once left, is not met again. */
  lemma GroupsContiguous(scope: Scope, a: Key, b: Key, c: Key)
    requires Leq(a, b) && Leq(b, c) && GroupOf(scope, a) == GroupOf(scope, c)
    ensures GroupOf(scope, b) == GroupOf(scope, a)
  {
    StringLeqThrough(a.host, b.host, c.host);
    if scope.ByProgram? {
      StringLeqThrough(a.program, b.program, c.program);
    }
  }

  /** `g` lists, without repetition, exactly the keys of `s` that fall into group `p`. */
  ghost predicate IsGroup(scope: Scope, s: set<Key>, g: seq<Key>, p: Group) {
    && g != [] && Ascending(g)
    && forall k :: k in g <==> k in s && GroupOf(scope, k) == p
  }

  /** `gs` lists every group met in `s` exactly once. */
  ghost predicate Partitions(scope: Scope, s: set<Key>, gs: seq<seq<Key>>) {
    && (forall a :: 0 <= a < |gs| ==> gs[a] != [] && IsGroup(scope, s, gs[a], GroupOf(scope, gs[a][0])))
    && (forall a, b :: 0 <= a < b < |gs| ==> GroupOf(scope, gs[a][0]) != GroupOf(scope, gs[b][0]))
    && (forall k :: k in s ==> exists a :: 0 <= a < |gs| && k in gs[a])
  }

  lemma {:induction false} FirstRun(scope: Scope, ks: seq<Key>, s: set<Key>)
    requires ks != [] && Ascending(ks) && forall k :: k in ks <==> k in s
    ensures IsGroup(scope, s, ks[..RunLength(scope, ks)], GroupOf(scope, ks[0]))
  {
    var n := RunLength(scope, ks);
    var g := ks[..n];
    assert g[0] == ks[0];
    forall k | k in s && GroupOf(scope, k) == GroupOf(scope, ks[0]) ensures k in g {
      var i :| 0 <= i < |ks| && ks[i] == k;
      if n <= i {
        LeqTotal(ks[n], ks[n]);
        GroupsContiguous(scope, ks[0], ks[n], k);
      } else {
        assert g[i] == k;
      }
    }
  }

  lemma {:induction false} RestOfRun(scope: Scope, ks: seq<Key>, s: set<Key>, n: nat, k: Key)
    requires ks != [] && Ascending(ks) && forall x :: x in ks <==> x in s
    requires n == RunLength(scope, ks)
    ensures k in ks[n..] <==> k in s && GroupOf(scope, k) != GroupOf(scope, ks[0])
  {
    FirstRun(scope, ks, s);
    assert ks == ks[..n] + ks[n..];
  }

  lemma SameGroupElsewhere(scope: Scope, s: set<Key>, t: set<Key>, p: Group, g: seq<Key>)
    requires t == set k | k in s && GroupOf(scope, k) != p
    requires g != [] && IsGroup(scope, t, g, GroupOf(scope, g[0]))
    ensures IsGroup(scope, s, g, GroupOf(scope, g[0])) && GroupOf(scope, g[0]) != p
  {
    assert g[0] in t;
  }

  lemma PrependGroup(scope: Scope, s: set<Key>, t: set<Key>, p: Group, g: seq<Key>, hs: seq<seq<Key>>)
    requires t == set k | k in s && GroupOf(scope, k) != p
    requires IsGroup(scope, s, g, p) && Partitions(scope, t, hs)
    ensures Partitions(scope, s, [g] + hs)
  {
    var gs := [g] + hs;
    assert g[0] in g;
    forall a | 0 <= a < |hs|
      ensures gs[a + 1] == hs[a] && IsGroup(scope, s, hs[a], GroupOf(scope, hs[a][0])) && GroupOf(scope, hs[a][0]) != p
    {
      SameGroupElsewhere(scope, s, t, p, hs[a]);
    }
    forall a | 0 <= a < |gs| ensures gs[a] != [] && IsGroup(scope, s, gs[a], GroupOf(scope, gs[a][0])) {
      assert a > 0 ==> gs[a] == hs[a - 1];
    }
    forall a, b | 0 <= a < b < |gs| ensures GroupOf(scope, gs[a][0]) != GroupOf(scope, gs[b][0]) {
      assert gs[b] == hs[b - 1] && (a > 0 ==> gs[a] == hs[a - 1]);
    }
    forall k | k in s ensures exists a :: 0 <= a < |gs| && k in gs[a] {
      InSomeGroup(scope, s, t, p, g, hs, k);
    }
  }

  lemma InSomeGroup(scope: Scope, s: set<Key>, t: set<Key>, p: Group, g: seq<Key>, hs: seq<seq<Key>>, k: Key)
    requires t == set k | k in s && GroupOf(scope, k) != p
    requires IsGroup(scope, s, g, p) && Partitions(scope, t, hs) && k in s
    ensures exists a :: 0 <= a < |[g] + hs| && k in ([g] + hs)[a]
  {
    var gs := [g] + hs;
    if k in t {
      var a :| 0 <= a < |hs| && k in hs[a];
      assert k in gs[a + 1];
    } else {
      assert k in gs[0];
    }
  }

  lemma {:induction false} GroupByPartitions(scope: Scope, ks: seq<Key>, s: set<Key>)
    requires Ascending(ks) && forall k :: k in ks <==> k in s
    ensures Partitions(scope, s, GroupBy(scope, ks))
    decreases |ks|
  {
    if ks != [] {
      var n := RunLength(scope, ks);
      var p, rest := GroupOf(scope, ks[0]), ks[n..];
      var t := set k | k in s && GroupOf(scope, k) != p;
      FirstRun(scope, ks, s);
      forall k ensures k in rest <==> k in t {
        RestOfRun(scope, ks, s, n, k);
      }
      GroupByPartitions(scope, rest, t);
      PrependGroup(scope, s, t, p, ks[..n], GroupBy(scope, rest));
    }
  }

  /** Sorting and grouping the keys of a bucket yields each group exactly once. */
  lemma {:induction false} GroupsOnce(scope: Scope, s: set<Key>)
    ensures Partitions(scope, s, GroupBy(scope, Sorted(s)))
  {
    GroupByPartitions(scope, Sorted(s), s);
  }

  lemma {:induction false} HeadsFromKeys(scope: Scope, ks: seq<Key>, a: nat)
    requires a < |GroupBy(scope, ks)|
    ensures GroupBy(scope, ks)[a] != [] && GroupBy(scope, ks)[a][0] in ks
    decreases |ks|
  {
    var n := RunLength(scope, ks);
    if a == 0 {
      assert ks[..n][0] == ks[0];
    } else {
      HeadsFromKeys(scope, ks[n..], a - 1);
    }
  }

  lemma FirstIsLeast(ks: seq<Key>, n: nat, k: Key)
    requires Ascending(ks) && 0 < n <= |ks| && k in ks[n..]
    ensures Leq(ks[0], k)
  {
    var i :| 0 <= i < |ks[n..]| && ks[n..][i] == k;
    assert ks[n + i] == k;
  }

  lemma {:induction false} AfterFirstGroup(scope: Scope, ks: seq<Key>, a: nat)
    requires 0 < a < |GroupBy(scope, ks)|
    ensures a - 1 < |GroupBy(scope, ks[RunLength(scope, ks)..])|
    ensures GroupBy(scope, ks)[a] == GroupBy(scope, ks[RunLength(scope, ks)..])[a - 1]
  {
  }

  lemma {:induction false} FirstGroup(scope: Scope, ks: seq<Key>)
    requires ks != []
    ensures GroupBy(scope, ks) != [] && GroupBy(scope, ks)[0] != [] && GroupBy(scope, ks)[0][0] == ks[0]
  {
    assert ks[..RunLength(scope, ks)][0] == ks[0];
  }

  lemma {:induction false} LaterHead(scope: Scope, ks: seq<Key>, b: nat)
    requires 0 < b < |GroupBy(scope, ks)|
    ensures GroupBy(scope, ks)[b] != [] && GroupBy(scope, ks)[b][0] in ks[RunLength(scope, ks)..]
  {
    AfterFirstGroup(scope, ks, b);
    HeadsFromKeys(scope, ks[RunLength(scope, ks)..], b - 1);
  }

  lemma {:induction false} FirstHeadLeast(scope: Scope, ks: seq<Key>, b: nat)
    requires Ascending(ks) && 0 < b < |GroupBy(scope, ks)|
    ensures GroupBy(scope, ks)[0] != [] && GroupBy(scope, ks)[b] != []
    ensures Leq(GroupBy(scope, ks)[0][0], GroupBy(scope, ks)[b][0])
  {
    FirstGroup(scope, ks);
    LaterHead(scope, ks, b);
    FirstIsLeast(ks, RunLength(scope, ks), GroupBy(scope, ks)[b][0]);
  }

  lemma {:induction false} HeadsAscend(scope: Scope, ks: seq<Key>, a: nat, b: nat)
    requires Ascending(ks) && a < b < |GroupBy(scope, ks)|
    ensures GroupBy(scope, ks)[a] != [] && GroupBy(scope, ks)[b] != []
    ensures Leq(GroupBy(scope, ks)[a][0], GroupBy(scope, ks)[b][0])
    decreases |ks|
  {
    if a == 0 {
      FirstHeadLeast(scope, ks, b);
    } else {
      AfterFirstGroup(scope, ks, a);
      AfterFirstGroup(scope, ks, b);
      HeadsAscend(scope, ks[RunLength(scope, ks)..], a - 1, b - 1);
    }
  }

  /** The groups come in order of host and then program, as Python orders strings. */
  lemma {:induction false} GroupsInOrder(scope: Scope, s: set<Key>, a: nat, b: nat)
    requires a < b < |GroupBy(scope, Sorted(s))|
    ensures var gs := GroupBy(scope, Sorted(s));
      gs[a] != [] && gs[b] != [] && GroupLess(GroupOf(scope, gs[a][0]), GroupOf(scope, gs[b][0]))
  {
    var gs := GroupBy(scope, Sorted(s));
    GroupsOnce(scope, s);
    HeadsAscend(scope, Sorted(s), a, b);
    GroupsFollowKeys(scope, gs[a][0], gs[b][0]);
  }
}
