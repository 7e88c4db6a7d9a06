/**
 Successor arrays over [0, n): iteration, permutations, and what it means for
 such an array to be one n-cycle.
 */
module Cycles {

  predicate InRange(p: seq<nat>) {
    forall k :: 0 <= k < |p| ==> p[k] < |p|
  }

  predicate Injective(p: seq<nat>) {
    forall j, k :: 0 <= j < k < |p| ==> p[j] != p[k]
  }

  predicate IsPermutation(p: seq<nat>) {
    InRange(p) && Injective(p)
  }

  /** The node reached from x after following p for m hops. */
  function Iter(p: seq<nat>, x: nat, m: nat): (y: nat)
    requires InRange(p) && x < |p|
    ensures y < |p|
  {
    if m == 0 then x else p[Iter(p, x, m - 1)]
  }

  ghost predicate Reaches(p: seq<nat>, x: nat, y: nat)
    requires InRange(p) && x < |p|
  {
    exists m: nat :: Iter(p, x, m) == y
  }

  ghost predicate ReachesWithin(p: seq<nat>, x: nat, y: nat, n: nat)
    requires InRange(p) && x < |p|
  {
    exists m: nat :: m < n && Iter(p, x, m) == y
  }

  /** Every node is reached from every node, and no two nodes share a successor. */
  ghost predicate OneCycle(p: seq<nat>) {
    && IsPermutation(p)
    && forall x, y :: 0 <= x < |p| && 0 <= y < |p| ==> Reaches(p, x, y)
  }

  // ----- counting

  lemma {:induction false} SubsetSize(a: set<nat>, b: set<nat>)
    requires a <= b
    ensures |a| <= |b|
  {
    if a != {} {
      var x :| x in a;
      SubsetSize(a - {x}, b - {x});
    }
  }

  function Below(n: nat): (b: set<nat>)
    ensures |b| == n
    ensures forall x: nat :: x in b <==> x < n
  {
    if n == 0 then {} else Below(n - 1) + {n - 1}
  }

  function Elements(s: seq<nat>): (e: set<nat>)
    ensures forall x :: x in e <==> x in s
    ensures Injective(s) ==> |e| == |s|
  {
    if s == [] then {} else
      var last := |s| - 1;
      assert s == s[..last] + [s[last]];
      Elements(s[..last]) + {s[last]}
  }

  /** Distinct naturals below n: there are at most n of them. */
  lemma Pigeonhole(s: seq<nat>, n: nat)
    requires Injective(s)
    requires forall k :: 0 <= k < |s| ==> s[k] < n
    ensures |s| <= n
  {
    SubsetSize(Elements(s), Below(n));
  }

  lemma PermutationIsOnto(p: seq<nat>, y: nat)
    requires IsPermutation(p) && y < |p|
    ensures exists k :: 0 <= k < |p| && p[k] == y
  {
    if y !in p {
      SubsetSize(Elements(p) + {y}, Below(|p|));
    }
  }

  // ----- iteration

  lemma {:induction false} IterAdd(p: seq<nat>, x: nat, a: nat, b: nat)
    requires InRange(p) && x < |p|
    ensures Iter(p, x, a + b) == Iter(p, Iter(p, x, a), b)
  {
    if b != 0 {
      IterAdd(p, x, a, b - 1);
    }
  }

  lemma {:induction false} IterInjective(p: seq<nat>, x: nat, y: nat, m: nat)
    requires IsPermutation(p) && x < |p| && y < |p|
    requires Iter(p, x, m) == Iter(p, y, m)
    ensures x == y
  {
    if m != 0 {
      IterInjective(p, x, y, m - 1);
    }
  }

  lemma {:induction false} IterMultiple(p: seq<nat>, x: nat, t: nat, k: nat)
    requires InRange(p) && x < |p| && Iter(p, x, t) == x
    ensures Iter(p, x, k * t) == x
  {
    if k != 0 {
      IterMultiple(p, x, t, k - 1);
      IterAdd(p, x, (k - 1) * t, t);
      assert (k - 1) * t + t == k * t;
    }
  }

  /** In a permutation every orbit comes back to where it started. */
  lemma Returns(p: seq<nat>, x: nat) returns (t: nat)
    requires IsPermutation(p) && x < |p|
    ensures 0 < t && Iter(p, x, t) == x
  {
    var orbit := seq(|p| + 1, m requires 0 <= m <= |p| => Iter(p, x, m));
    if Injective(orbit) {
      Pigeonhole(orbit, |p|);
    }
    var a: nat, b: nat :| a < b < |orbit| && orbit[a] == orbit[b];
    t := b - a;
    IterAdd(p, x, t, a);
    IterInjective(p, Iter(p, x, t), x, a);
  }

  lemma ReachesBack(p: seq<nat>, x: nat, y: nat)
    requires IsPermutation(p) && x < |p| && Reaches(p, x, y)
    ensures y < |p| && Reaches(p, y, x)
  {
    var m: nat :| Iter(p, x, m) == y;
    var t := Returns(p, x);
    IterMultiple(p, x, t, m);
    assert m + m * (t - 1) == m * t;
    IterAdd(p, x, m, m * (t - 1));
    assert Iter(p, y, m * (t - 1)) == x;
  }

  lemma ReachesVia(p: seq<nat>, x: nat, y: nat, z: nat)
    requires InRange(p) && x < |p| && y < |p| && Reaches(p, x, y) && Reaches(p, y, z)
    ensures Reaches(p, x, z)
  {
    var a: nat :| Iter(p, x, a) == y;
    var b: nat :| Iter(p, y, b) == z;
    IterAdd(p, x, a, b);
    assert Iter(p, x, a + b) == z;
  }

  /** One node that everything reaches is enough for a permutation to be one cycle. */
  lemma HubMakesOneCycle(p: seq<nat>, hub: nat)
    requires IsPermutation(p) && hub < |p|
    requires forall x :: 0 <= x < |p| ==> Reaches(p, x, hub)
    ensures OneCycle(p)
  {
    forall x, y | 0 <= x < |p| && 0 <= y < |p|
      ensures Reaches(p, x, y)
    {
      ReachesBack(p, y, hub);
      ReachesVia(p, x, hub, y);
    }
  }

  // ----- what one cycle means for a walk

  /** A walk that is back at its start after t > 0 hops has seen only its first t stops. */
  lemma IterModulo(p: seq<nat>, x: nat, t: nat, m: nat) returns (r: nat)
    requires InRange(p) && x < |p| && 0 < t && Iter(p, x, t) == x
    ensures r < t && Iter(p, x, r) == Iter(p, x, m)
  {
    r := m % t;
    var k := m / t;
    assert m == k * t + r;
    IterMultiple(p, x, t, k);
    IterAdd(p, x, k * t, r);
  }

  lemma NoEarlyReturn(p: seq<nat>, x: nat, t: nat)
    requires OneCycle(p) && x < |p| && 0 < t < |p|
    ensures Iter(p, x, t) != x
  {
    if Iter(p, x, t) == x {
      var when: seq<nat> := [];
      while |when| < |p|
        invariant |when| <= |p|
        invariant forall y :: 0 <= y < |when| ==> when[y] < t && Iter(p, x, when[y]) == y
      {
        assert Reaches(p, x, |when|);
        var m: nat :| Iter(p, x, m) == |when|;
        var r := IterModulo(p, x, t, m);
        when := when + [r];
      }
      assert forall j, k :: 0 <= j < k < |when| ==> Iter(p, x, when[j]) != Iter(p, x, when[k]);
      Pigeonhole(when, t);
    }
  }

  /** The first |p| stops of a walk on one cycle are pairwise different. */
  lemma StopsDiffer(p: seq<nat>, x: nat, a: nat, b: nat)
    requires OneCycle(p) && x < |p| && a < b < a + |p|
    ensures Iter(p, x, a) != Iter(p, x, b)
  {
    if Iter(p, x, a) == Iter(p, x, b) {
      IterAdd(p, x, b - a, a);
      IterInjective(p, Iter(p, x, b - a), x, a);
      NoEarlyReturn(p, x, b - a);
    }
  }

  lemma PeriodIsLength(p: seq<nat>, x: nat)
    requires OneCycle(p) && x < |p|
    ensures Iter(p, x, |p|) == x
  {
    var orbit := seq(|p|, m requires 0 <= m < |p| => Iter(p, x, m + 1));
    forall j, k | 0 <= j < k < |p|
      ensures orbit[j] != orbit[k]
    {
      StopsDiffer(p, x, j + 1, k + 1);
    }
    PermutationIsOnto(orbit, x);
    var k :| 0 <= k < |p| && orbit[k] == x;
    if k + 1 < |p| {
      NoEarlyReturn(p, x, k + 1);
    }
  }

  /**
   * A walk on one cycle of n nodes: it is back at its start after n hops and not
   * before, and each node is met at exactly one of the hops 0 .. n-1.
   */
  lemma WalkVisitsAllOnce(p: seq<nat>, x: nat)
    requires OneCycle(p) && x < |p|
    ensures Iter(p, x, |p|) == x
    ensures forall m :: 0 < m < |p| ==> Iter(p, x, m) != x
    ensures forall y :: 0 <= y < |p| ==> ReachesWithin(p, x, y, |p|)
    ensures forall a, b :: 0 <= a < b < |p| ==> Iter(p, x, a) != Iter(p, x, b)
  {
    PeriodIsLength(p, x);
    forall m | 0 < m < |p|
      ensures Iter(p, x, m) != x
    {
      NoEarlyReturn(p, x, m);
    }
    forall y | 0 <= y < |p|
      ensures ReachesWithin(p, x, y, |p|)
    {
      assert Reaches(p, x, y);
      var m: nat :| Iter(p, x, m) == y;
      var r := IterModulo(p, x, |p|, m);
    }
    forall a, b | 0 <= a < b < |p|
      ensures Iter(p, x, a) != Iter(p, x, b)
    {
      StopsDiffer(p, x, a, b);
    }
  }
}
