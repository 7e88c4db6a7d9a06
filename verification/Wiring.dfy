/**
 The wiring of chase.hpp: node perm[k] is given the successor perm[k + 1], wrapping
 at the end. The permutation is a visiting order here, not a successor map.
 */
module Wiring {
  import opened Cycles
  import opened Chase

  /** One cache line: a successor index and padding that is never written. */
  datatype ChaseNode = ChaseNode(next: nat, pad: seq<bv8>)

  /** The successor array a chase over the first count nodes follows. */
  function Nexts(arr: seq<ChaseNode>, count: nat): seq<nat>
    requires count <= |arr|
  {
    seq(count, k requires 0 <= k < count => arr[k].next)
  }

  predicate Fits(perm: seq<nat>, n: nat) {
    forall k :: 0 <= k < |perm| ==> perm[k] < n
  }

  /** The entry listed after the k-th, the first one following the last. */
  function Follower(perm: seq<nat>, k: nat): nat
    requires k < |perm|
  {
    if k + 1 == |perm| then perm[0] else perm[k + 1]
  }

  /** The array after the first k wiring writes. */
  function Wired(arr: seq<ChaseNode>, perm: seq<nat>, k: nat): (r: seq<ChaseNode>)
    requires k <= |perm| && Fits(perm, |arr|)
    ensures |r| == |arr|
  {
    if k == 0 then arr else
      var r := Wired(arr, perm, k - 1);
      var from := perm[k - 1];
      r[from := r[from].(next := Follower(perm, k - 1))]
  }

  lemma FilledEntries(count: nat, draws: seq<nat>)
    requires |draws| < count && Draws(draws)
    ensures forall x :: x in Shuffle(Filled(count), draws) <==> x in Filled(count)
    ensures Fits(Shuffle(Filled(count), draws), count) && Fits(Shuffle(Filled(count), draws), UINT32)
  {
    var p := Shuffle(Filled(count), draws);
    ShuffleKeepsEntries(Filled(count), draws);
    forall x
      ensures x in p <==> x in Filled(count)
    {
      assert x in p <==> x in multiset(p);
      assert x in Filled(count) <==> x in multiset(Filled(count));
    }
    forall k | 0 <= k < count
      ensures p[k] < count && p[k] < UINT32
    {
      assert p[k] in Filled(count);
    }
  }

  // ----- what the writes leave in each node

  lemma {:induction false} UnlistedNodeKept(arr: seq<ChaseNode>, perm: seq<nat>, k: nat, x: nat)
    requires k <= |perm| && Fits(perm, |arr|)
    requires x < |arr| && x !in perm[..k]
    ensures Wired(arr, perm, k)[x] == arr[x]
  {
    if k != 0 {
      assert perm[k - 1] in perm[..k];
      assert perm[..k - 1] == perm[..k][..k - 1];
      UnlistedNodeKept(arr, perm, k - 1, x);
    }
  }

  /** Every node whose turn came points into the order, and only its next changed. */
  lemma {:induction false} ListedNodeWritten(arr: seq<ChaseNode>, perm: seq<nat>, k: nat, x: nat)
    requires k <= |perm| && Fits(perm, |arr|)
    requires x in perm[..k]
    ensures Wired(arr, perm, k)[x].next in perm
    ensures Wired(arr, perm, k)[x].pad == arr[x].pad
  {
    if x in perm[..k - 1] {
      ListedNodeWritten(arr, perm, k - 1, x);
    } else {
      UnlistedNodeKept(arr, perm, k - 1, x);
      assert x == perm[k - 1];
    }
  }

  /**
   * When the order has no repeats, the k-th listed node is written by the k-th write
   * alone: untouched before it, and afterwards always pointing to the next listed node.
   */
  lemma {:induction false} WrittenOnce(arr: seq<ChaseNode>, perm: seq<nat>, k: nat, m: nat)
    requires k < |perm| && m <= |perm| && Injective(perm) && Fits(perm, |arr|)
    ensures Wired(arr, perm, m)[perm[k]]
            == if m <= k then arr[perm[k]] else arr[perm[k]].(next := perm[(k + 1) % |perm|])
  {
    WrapIndex(k, |perm|);
    if m <= k {
      assert perm[k] !in perm[..m];
      UnlistedNodeKept(arr, perm, m, perm[k]);
    } else {
      WrittenOnce(arr, perm, k, m - 1);
    }
  }

  /** In an order with repeats the last write to a node stands. */
  lemma {:induction false} LastWriteStands(arr: seq<ChaseNode>, perm: seq<nat>, k: nat, m: nat)
    requires k < m <= |perm| && Fits(perm, |arr|)
    requires forall j :: k < j < m ==> perm[j] != perm[k]
    ensures Wired(arr, perm, m)[perm[k]].next == perm[(k + 1) % |perm|]
  {
    if m == k + 1 {
      WrapIndex(k, |perm|);
    } else {
      LastWriteStands(arr, perm, k, m - 1);
    }
  }

  // ----- the wired array is one cycle

  /** next takes every listed node to the one listed after it. */
  ghost predicate FollowsOrder(next: seq<nat>, perm: seq<nat>) {
    && |next| == |perm| && Fits(perm, |next|)
    && forall k :: 0 <= k < |perm| ==> next[perm[k]] == Follower(perm, k)
  }

  lemma WiredFollowsOrder(arr: seq<ChaseNode>, perm: seq<nat>)
    requires IsPermutation(perm) && |perm| <= |arr|
    ensures FollowsOrder(Nexts(Wired(arr, perm, |perm|), |perm|), perm)
  {
    var next := Nexts(Wired(arr, perm, |perm|), |perm|);
    forall k: nat | k < |perm|
      ensures next[perm[k]] == Follower(perm, k)
    {
      WrittenOnce(arr, perm, k, |perm|);
      WrapIndex(k, |perm|);
    }
  }

  lemma FollowerInjective(perm: seq<nat>, j: nat, k: nat)
    requires IsPermutation(perm) && j < |perm| && k < |perm| && j != k
    ensures Follower(perm, j) != Follower(perm, k)
  {
    var a, b := if j + 1 == |perm| then 0 else j + 1, if k + 1 == |perm| then 0 else k + 1;
    assert a < b || b < a;
  }

  lemma FollowersDiffer(next: seq<nat>, perm: seq<nat>, x: nat, y: nat)
    requires IsPermutation(perm) && FollowsOrder(next, perm) && x < y < |next|
    ensures next[x] != next[y]
  {
    PermutationIsOnto(perm, x);
    PermutationIsOnto(perm, y);
    var j :| 0 <= j < |perm| && perm[j] == x;
    var k :| 0 <= k < |perm| && perm[k] == y;
    FollowerInjective(perm, j, k);
  }

  lemma OrderGivesPermutation(next: seq<nat>, perm: seq<nat>)
    requires IsPermutation(perm) && FollowsOrder(next, perm)
    ensures IsPermutation(next)
  {
    forall x: nat, y: nat | x < y < |next|
      ensures next[x] != next[y]
    {
      FollowersDiffer(next, perm, x, y);
    }
    forall x: nat | x < |next|
      ensures next[x] < |next|
    {
      PermutationIsOnto(perm, x);
    }
  }

  lemma {:induction false} WalkFollowsOrder(next: seq<nat>, perm: seq<nat>, k: nat, m: nat)
    requires FollowsOrder(next, perm) && InRange(next) && k + m < |perm|
    ensures Iter(next, perm[k], m) == perm[k + m]
  {
    if m != 0 {
      WalkFollowsOrder(next, perm, k, m - 1);
    }
  }

  /** Walking along an order without gaps goes round all of its nodes. */
  lemma OrderGivesOneCycle(next: seq<nat>, perm: seq<nat>)
    requires IsPermutation(perm) && FollowsOrder(next, perm) && 1 <= |perm|
    ensures OneCycle(next)
  {
    var last := |perm| - 1;
    var hub := perm[last];
    OrderGivesPermutation(next, perm);
    forall x: nat | x < |next|
      ensures Reaches(next, x, hub)
    {
      PermutationIsOnto(perm, x);
      var k :| 0 <= k < |perm| && perm[k] == x;
      WalkFollowsOrder(next, perm, k, last - k);
      assert Iter(next, x, last - k) == hub;
    }
    HubMakesOneCycle(next, hub);
  }

  /** A visiting order without gaps wires one cycle, whatever the nodes held before. */
  lemma WiredIsOneCycle(arr: seq<ChaseNode>, perm: seq<nat>)
    requires 1 <= |perm| <= |arr| && IsPermutation(perm)
    ensures OneCycle(Nexts(Wired(arr, perm, |perm|), |perm|))
  {
    WiredFollowsOrder(arr, perm);
    OrderGivesOneCycle(Nexts(Wired(arr, perm, |perm|), |perm|), perm);
  }

  /** How many nodes a chase from a 32-bit start can meet: those below count and 2^32. */
  function Live(count: nat): nat {
    if count <= UINT32 then count else UINT32
  }

  lemma LiveNodeListed(count: nat, x: nat)
    requires x < Live(count)
    ensures x in Filled(count)
  {
    assert Filled(count)[x] == x;
  }

  /** Even when the count is too wide, no walk over the live nodes leaves them. */
  lemma LiveNodesClosed(arr: seq<ChaseNode>, count: nat, draws: seq<nat>)
    requires 1 <= count <= |arr| && |draws| == count - 1 && Draws(draws)
    ensures Fits(Shuffle(Filled(count), draws), |arr|)
    ensures InRange(Nexts(Wired(arr, Shuffle(Filled(count), draws), count), Live(count)))
  {
    var perm := Shuffle(Filled(count), draws);
    FilledEntries(count, draws);
    assert perm[..count] == perm;
    forall x: nat | x < Live(count)
      ensures Wired(arr, perm, count)[x].next < Live(count)
    {
      LiveNodeListed(count, x);
      ListedNodeWritten(arr, perm, count, x);
    }
  }

  lemma {:induction false} WalkStaysBelow(next: seq<nat>, n: nat, x: nat, m: nat)
    requires InRange(next) && x < n <= |next|
    requires forall k :: 0 <= k < n ==> next[k] < n
    ensures Iter(next, x, m) < n
  {
    if m != 0 {
      WalkStaysBelow(next, n, x, m - 1);
    }
  }

  lemma ClosedPartIsNotOneCycle(next: seq<nat>, n: nat)
    requires 0 < n < |next|
    requires forall k :: 0 <= k < n ==> next[k] < n
    ensures !OneCycle(next)
  {
    if OneCycle(next) {
      assert Reaches(next, 0, n);
      var m: nat :| Iter(next, 0, m) == n;
      WalkStaysBelow(next, n, 0, m);
    }
  }

  /** Past 32 bits the chase from node 0 never meets node 2^32. */
  lemma WideChaseIsNotOneCycle(arr: seq<ChaseNode>, count: nat, draws: seq<nat>)
    requires UINT32 < count <= |arr| && |draws| == count - 1 && Draws(draws)
    ensures Fits(Shuffle(Filled(count), draws), |arr|)
    ensures !OneCycle(Nexts(Wired(arr, Shuffle(Filled(count), draws), count), count))
  {
    LiveNodesClosed(arr, count, draws);
    var wired := Wired(arr, Shuffle(Filled(count), draws), count);
    var n := UINT32;
    forall k: nat | k < n
      ensures Nexts(wired, count)[k] < n
    {
      assert Nexts(wired, n)[k] == Nexts(wired, count)[k];
    }
    ClosedPartIsNotOneCycle(Nexts(wired, count), n);
  }

  /**
   * The promise of wire_single_cycle - one cycle over every node, for any draws and any
   * old contents - is kept exactly when the count fits the 32-bit successor field.
   */
  lemma WireSingleCycleIff(arr: seq<ChaseNode>, count: nat, draws: seq<nat>)
    requires 1 <= count <= |arr| && |draws| == count - 1 && Draws(draws)
    ensures Fits(Shuffle(Filled(count), draws), |arr|)
    ensures OneCycle(Nexts(Wired(arr, Shuffle(Filled(count), draws), count), count)) <==> count <= 0x1_0000_0000
  {
    var perm := Shuffle(Filled(count), draws);
    FilledEntries(count, draws);
    BuilderIsOneCycleIff(count, draws);
    if count <= UINT32 {
      WiredIsOneCycle(arr, perm);
    } else {
      WideChaseIsNotOneCycle(arr, count, draws);
    }
  }

  lemma WiringTouchesOnlyNext(arr: seq<ChaseNode>, perm: seq<nat>)
    requires |perm| <= |arr| && Fits(perm, |perm|)
    ensures Fits(perm, |arr|)
    ensures forall x :: 0 <= x < |arr| ==> Wired(arr, perm, |perm|)[x].pad == arr[x].pad
    ensures forall x :: |perm| <= x < |arr| ==> Wired(arr, perm, |perm|)[x] == arr[x]
  {
    assert perm[..|perm|] == perm;
    forall x: nat | x < |arr|
      ensures Wired(arr, perm, |perm|)[x].pad == arr[x].pad
      ensures |perm| <= x ==> Wired(arr, perm, |perm|)[x] == arr[x]
    {
      if x in perm {
        ListedNodeWritten(arr, perm, |perm|, x);
      } else {
        UnlistedNodeKept(arr, perm, |perm|, x);
      }
    }
  }

  lemma WrapIndex(k: nat, n: nat)
    requires k < n
    ensures (k + 1) % n == if k + 1 == n then 0 else k + 1
  {
  }

  method WireSingleCycle(arr: array<ChaseNode>, count: nat, draws: seq<nat>)
    requires 1 <= count <= arr.Length && |draws| == count - 1 && Draws(draws)
    modifies arr
    ensures Fits(Shuffle(Filled(count), draws), arr.Length)
    ensures arr[..] == Wired(old(arr[..]), Shuffle(Filled(count), draws), count)
    ensures OneCycle(Nexts(arr[..], count)) <==> count <= UINT32
    ensures InRange(Nexts(arr[..], Live(count)))
    ensures forall x :: 0 <= x < arr.Length ==> arr[x].pad == old(arr[x].pad)
    ensures forall x :: count <= x < arr.Length ==> arr[x] == old(arr[x])
  {
    var perm := BuildSingleCyclePermutation(count, draws);
    ghost var order := Shuffle(Filled(count), draws);
    FilledEntries(count, draws);
    ghost var before := arr[..];
    assert Fits(order, |before|);
    for k := 0 to count
      invariant perm[..] == order
      invariant arr[..] == Wired(before, order, k)
    {
      WrapIndex(k, count);
      var from := perm[k];
      var to := perm[(k + 1) % count];
      assert from == order[k] && to == Follower(order, k);
      arr[from] := arr[from].(next := to);
    }
    WireSingleCycleIff(before, count, draws);
    LiveNodesClosed(before, count, draws);
    WiringTouchesOnlyNext(before, order);
    assert forall x :: 0 <= x < arr.Length ==> arr[x] == arr[..][x];
  }
}
