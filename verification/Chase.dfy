/**
 The pointer chase of chase.hpp: Sattolo's in-place shuffle with 32-bit entries,
 and the wiring of node successors from the shuffled visiting order.
 */
module Chase {
  import opened Cycles

  /** Entries are uint32_t: a size_t index stored in one keeps its low 32 bits. */
  const UINT32 := 0x1_0000_0000

  /** The random draws, earliest last: draws[i - 1] is the j drawn at position i, so j < i. */
  predicate Draws(draws: seq<nat>) {
    forall k :: 0 <= k < |draws| ==> draws[k] <= k
  }

  function Identity(count: nat): seq<nat> {
    seq(count, k requires 0 <= k < count => k)
  }

  /** What the fill loop leaves behind: indices, cut to 32 bits. */
  function Filled(count: nat): seq<nat> {
    seq(count, k requires 0 <= k < count => k % UINT32)
  }

  function Swap(p: seq<nat>, i: nat, j: nat): (r: seq<nat>)
    requires j <= i < |p|
    ensures |r| == |p|
  {
    p[i := p[j]][j := p[i]]
  }

  /** The shuffle from position |draws| down to position 1. */
  function Shuffle(p: seq<nat>, draws: seq<nat>): (r: seq<nat>)
    requires |draws| < |p| && Draws(draws)
    ensures |r| == |p|
    decreases |draws|
  {
    if draws == [] then p else
      var i := |draws|;
      Shuffle(Swap(p, i, draws[i - 1]), draws[..i - 1])
  }

  method BuildSingleCyclePermutation(count: nat, draws: seq<nat>) returns (perm: array<nat>)
    requires 1 <= count && |draws| == count - 1 && Draws(draws)
    ensures fresh(perm) && perm.Length == count
    ensures perm[..] == Shuffle(Filled(count), draws)
  {
    perm := new nat[count];
    for i := 0 to count
      invariant perm[..i] == Filled(count)[..i]
    {
      perm[i] := i % UINT32;
    }
    assert perm[..] == Filled(count) && draws[..count - 1] == draws;
    for i := count - 1 downto 0
      invariant Shuffle(perm[..], draws[..i]) == Shuffle(Filled(count), draws)
    {
      ghost var before := perm[..];
      var j := draws[i];
      perm[i + 1], perm[j] := perm[j], perm[i + 1];
      assert perm[..] == Swap(before, i + 1, j);
      ShuffleStep(before, draws, i);
    }
  }

  /** One swap of the loop is one step of the shuffle. */
  lemma ShuffleStep(p: seq<nat>, draws: seq<nat>, i: nat)
    requires i < |draws| < |p| && Draws(draws)
    ensures Shuffle(p, draws[..i + 1]) == Shuffle(Swap(p, i + 1, draws[i]), draws[..i])
  {
    assert draws[..i + 1][..i] == draws[..i];
  }

  // ----- every cycle keeps exactly one small index

  /**
   * Each cycle of p holds exactly one index below bound: root names it, a step of p
   * stays in the cycle, and dist falls along p until the root is reached.
   */
  ghost predicate Rooted(p: seq<nat>, bound: nat, root: seq<nat>, dist: seq<nat>) {
    && InRange(p)
    && 0 < bound <= |p| == |root| == |dist|
    && (forall x :: 0 <= x < |p| ==> root[x] < bound && root[p[x]] == root[x])
    && (forall x :: 0 <= x < bound ==> root[x] == x)
    && (forall x :: bound <= x < |p| ==> dist[p[x]] < dist[x])
  }

  lemma SwapPermutation(p: seq<nat>, i: nat, j: nat)
    requires j <= i < |p| && IsPermutation(p)
    ensures IsPermutation(Swap(p, i, j))
  {
  }

  /** Swapping the entries of two roots merges their cycles into the one rooted at j. */
  lemma SwapMergesCycles(p: seq<nat>, i: nat, j: nat, root: seq<nat>, dist: seq<nat>)
    returns (root': seq<nat>, dist': seq<nat>)
    requires j < i && Rooted(p, i + 1, root, dist)
    ensures Rooted(Swap(p, i, j), i, root', dist')
    ensures forall x :: 0 <= x < |p| ==> root'[x] == if root[x] == i then j else root[x]
  {
    var shift := dist[p[j]] + 1;
    root' := seq(|p|, x requires 0 <= x < |p| => if root[x] == i then j else root[x]);
    dist' := seq(|p|, x requires 0 <= x < |p| => if root[x] == i then dist[x] + shift else dist[x]);
  }

  lemma {:induction false} ShuffleRooted(p: seq<nat>, draws: seq<nat>, root: seq<nat>, dist: seq<nat>)
    returns (root': seq<nat>, dist': seq<nat>)
    requires Draws(draws) && IsPermutation(p) && Rooted(p, |draws| + 1, root, dist)
    ensures IsPermutation(Shuffle(p, draws))
    ensures Rooted(Shuffle(p, draws), 1, root', dist')
    decreases |draws|
  {
    if draws == [] {
      root', dist' := root, dist;
    } else {
      var i := |draws|;
      var j := draws[i - 1];
      var q, rest := Swap(p, i, j), draws[..i - 1];
      SwapPermutation(p, i, j);
      var root1, dist1 := SwapMergesCycles(p, i, j, root, dist);
      root', dist' := ShuffleRooted(q, rest, root1, dist1);
      assert Shuffle(p, draws) == Shuffle(q, rest);
    }
  }

  lemma {:induction false} FallsToRoot(p: seq<nat>, root: seq<nat>, dist: seq<nat>, x: nat)
    requires Rooted(p, 1, root, dist) && x < |p|
    ensures Reaches(p, x, 0)
    decreases dist[x]
  {
    if x == 0 {
      assert Iter(p, x, 0) == 0;
    } else {
      FallsToRoot(p, root, dist, p[x]);
      assert Iter(p, x, 1) == p[Iter(p, x, 0)] == p[x];
      ReachesVia(p, x, p[x], 0);
    }
  }

  lemma RootedAtZeroIsOneCycle(p: seq<nat>, root: seq<nat>, dist: seq<nat>)
    requires IsPermutation(p) && Rooted(p, 1, root, dist)
    ensures OneCycle(p)
  {
    forall x | 0 <= x < |p|
      ensures Reaches(p, x, 0)
    {
      FallsToRoot(p, root, dist, x);
    }
    HubMakesOneCycle(p, 0);
  }

  lemma IdentityRooted(count: nat)
    requires 1 <= count
    ensures IsPermutation(Identity(count))
    ensures Rooted(Identity(count), count, Identity(count), Identity(count))
  {
  }

  /** Sattolo: whatever is drawn, the result is one cycle over all of [0, count). */
  lemma SattoloIsOneCycle(count: nat, draws: seq<nat>)
    requires 1 <= count && |draws| == count - 1 && Draws(draws)
    ensures OneCycle(Shuffle(Identity(count), draws))
  {
    IdentityRooted(count);
    var root, dist := ShuffleRooted(Identity(count), draws, Identity(count), Identity(count));
    RootedAtZeroIsOneCycle(Shuffle(Identity(count), draws), root, dist);
  }

  predicate FixedPointFree(p: seq<nat>) {
    forall x :: 0 <= x < |p| ==> p[x] != x
  }

  /**
   * "No fixed points" holds exactly for the results with more than one entry: the
   * one-entry permutation maps 0 to 0.
   */
  lemma SattoloFixedPointFreeIff(count: nat, draws: seq<nat>)
    requires 1 <= count && |draws| == count - 1 && Draws(draws)
    ensures FixedPointFree(Shuffle(Identity(count), draws)) <==> count > 1
  {
    var p := Shuffle(Identity(count), draws);
    SattoloIsOneCycle(count, draws);
    forall x | 0 <= x < count && 1 < count
      ensures p[x] != x
    {
      NoEarlyReturn(p, x, 1);
      assert Iter(p, x, 1) == p[Iter(p, x, 0)];
    }
    if count == 1 {
      assert p == Identity(1) == [0];
      assert p[0] == 0;
    }
  }

  // ----- 32-bit entries

  lemma {:induction false} ShuffleOfShortEntries(p: seq<nat>, q: seq<nat>, draws: seq<nat>)
    requires |draws| < |p| == |q| && Draws(draws)
    requires forall k :: 0 <= k < |p| ==> q[k] == p[k] % 0x1_0000_0000
    ensures forall k :: 0 <= k < |p| ==> Shuffle(q, draws)[k] == Shuffle(p, draws)[k] % 0x1_0000_0000
    decreases |draws|
  {
    if draws != [] {
      var i, j := |draws|, draws[|draws| - 1];
      ShuffleOfShortEntries(Swap(p, i, j), Swap(q, i, j), draws[..i - 1]);
    }
  }

  /** With 32-bit entries the result is the shuffle of the indices with each entry cut to 32 bits. */
  lemma ShortEntries(count: nat, draws: seq<nat>)
    requires 1 <= count && |draws| == count - 1 && Draws(draws)
    ensures forall k :: 0 <= k < count ==>
              Shuffle(Filled(count), draws)[k] == Shuffle(Identity(count), draws)[k] % 0x1_0000_0000
  {
    ShuffleOfShortEntries(Identity(count), Filled(count), draws);
  }

  // ----- draws and one-cycle permutations correspond one to one

  lemma {:induction false} ShuffleKeepsHighPositions(p: seq<nat>, draws: seq<nat>, k: nat)
    requires |draws| < k < |p| && Draws(draws)
    ensures Shuffle(p, draws)[k] == p[k]
    decreases |draws|
  {
    if draws != [] {
      var i := |draws|;
      ShuffleKeepsHighPositions(Swap(p, i, draws[i - 1]), draws[..i - 1], k);
    }
  }

  lemma SameEntrySamePosition(p: seq<nat>, a: nat, b: nat)
    requires IsPermutation(p) && a < |p| && b < |p| && p[a] == p[b]
    ensures a == b
  {
  }

  /** The first draw can be read off the result: it names the entry that ended at the top. */
  lemma FirstDrawShows(p: seq<nat>, draws: seq<nat>)
    requires 0 < |draws| < |p| && Draws(draws)
    ensures Shuffle(p, draws)[|draws|] == p[draws[|draws| - 1]]
  {
    var i := |draws|;
    ShuffleKeepsHighPositions(Swap(p, i, draws[i - 1]), draws[..i - 1], i);
  }

  lemma {:induction false} ShuffleInjectiveInDraws(p: seq<nat>, c: seq<nat>, d: seq<nat>)
    requires IsPermutation(p) && |c| == |d| < |p| && Draws(c) && Draws(d)
    requires Shuffle(p, c) == Shuffle(p, d)
    ensures c == d
    decreases |c|
  {
    if c != [] {
      var i := |c|;
      FirstDrawShows(p, c);
      FirstDrawShows(p, d);
      SameEntrySamePosition(p, c[i - 1], d[i - 1]);
      SwapPermutation(p, i, c[i - 1]);
      ShuffleInjectiveInDraws(Swap(p, i, c[i - 1]), c[..i - 1], d[..i - 1]);
      assert c == c[..i - 1] + [c[i - 1]] && d == d[..i - 1] + [d[i - 1]];
    }
  }

  /** If q copies p on the cycle rooted at i > 0, a walk of q from i never meets 0. */
  lemma {:induction false} StaysInCycle(p: seq<nat>, i: nat, root: seq<nat>, dist: seq<nat>, q: seq<nat>, m: nat)
    requires Rooted(p, i + 1, root, dist) && InRange(q) && |q| == |p|
    requires forall k :: i <= k < |p| ==> p[k] == q[k]
    ensures root[Iter(q, i, m)] == i
  {
    if m != 0 {
      StaysInCycle(p, i, root, dist, q, m - 1);
    }
  }

  /** The entry that q wants at position i > 0 still lies below i in p. */
  lemma WantedEntryIsBelow(p: seq<nat>, i: nat, root: seq<nat>, dist: seq<nat>, q: seq<nat>) returns (j: nat)
    requires IsPermutation(p) && Rooted(p, i + 1, root, dist)
    requires OneCycle(q) && |q| == |p| && 0 < i
    requires forall k :: i < k < |p| ==> p[k] == q[k]
    ensures j < i && p[j] == q[i]
  {
    PermutationIsOnto(p, q[i]);
    j :| 0 <= j < |p| && p[j] == q[i];
    assert j <= i;
    if j == i {
      assert Reaches(q, i, 0);
      var m: nat :| Iter(q, i, m) == 0;
      StaysInCycle(p, i, root, dist, q, m);
      assert false;
    }
  }

  lemma LastEntryAgrees(p: seq<nat>, q: seq<nat>)
    requires IsPermutation(p) && IsPermutation(q) && |p| == |q| && forall k :: 0 < k < |p| ==> p[k] == q[k]
    ensures p == q
  {
    if p != [] {
      PermutationIsOnto(p, q[0]);
      var j :| 0 <= j < |p| && p[j] == q[0];
      assert j == 0;
    }
  }

  /** Running the shuffle backwards: the draws that turn p into q. */
  lemma {:induction false} DrawsFor(p: seq<nat>, i: nat, root: seq<nat>, dist: seq<nat>, q: seq<nat>)
    returns (draws: seq<nat>)
    requires IsPermutation(p) && Rooted(p, i + 1, root, dist)
    requires OneCycle(q) && |q| == |p|
    requires forall k :: i < k < |p| ==> p[k] == q[k]
    ensures |draws| == i && Draws(draws) && Shuffle(p, draws) == q
    decreases i
  {
    if i == 0 {
      draws := [];
      LastEntryAgrees(p, q);
    } else {
      var j := WantedEntryIsBelow(p, i, root, dist, q);
      SwapPermutation(p, i, j);
      var root', dist' := SwapMergesCycles(p, i, j, root, dist);
      var early := DrawsFor(Swap(p, i, j), i - 1, root', dist', q);
      draws := early + [j];
      assert draws[..i - 1] == early;
    }
  }

  /** Every one-cycle permutation comes from some draws ... */
  lemma SattoloOnto(q: seq<nat>) returns (draws: seq<nat>)
    requires 1 <= |q| && OneCycle(q)
    ensures |draws| == |q| - 1 && Draws(draws) && Shuffle(Identity(|q|), draws) == q
  {
    IdentityRooted(|q|);
    draws := DrawsFor(Identity(|q|), |q| - 1, Identity(|q|), Identity(|q|), q);
  }

  /** ... and different draws never give the same permutation. */
  lemma SattoloOneToOne(count: nat, c: seq<nat>, d: seq<nat>)
    requires 1 <= count && |c| == |d| == count - 1 && Draws(c) && Draws(d)
    requires Shuffle(Identity(count), c) == Shuffle(Identity(count), d)
    ensures c == d
  {
    IdentityRooted(count);
    ShuffleInjectiveInDraws(Identity(count), c, d);
  }

  // ----- the 32-bit entries

  lemma {:induction false} ShuffleKeepsEntries(p: seq<nat>, draws: seq<nat>)
    requires |draws| < |p| && Draws(draws)
    ensures multiset(Shuffle(p, draws)) == multiset(p)
    decreases |draws|
  {
    if draws != [] {
      var i := |draws|;
      assert multiset(Swap(p, i, draws[i - 1])) == multiset(p);
      ShuffleKeepsEntries(Swap(p, i, draws[i - 1]), draws[..i - 1]);
    }
  }

  lemma InjectiveHasSingles(s: seq<nat>, x: nat)
    requires Injective(s)
    ensures multiset(s)[x] <= 1
  {
    if s != [] {
      var last := |s| - 1;
      assert s == s[..last] + [s[last]];
      InjectiveHasSingles(s[..last], x);
      assert s[last] !in s[..last];
    }
  }

  lemma FilledTwice(count: nat)
    requires UINT32 < count
    ensures multiset(Filled(count))[0] >= 2
  {
    var f := Filled(count);
    assert f[0] == 0 && f[UINT32] == 0;
    assert f == f[..UINT32] + f[UINT32..];
    assert 0 in multiset(f[..UINT32]) by { assert f[..UINT32][0] == 0; }
    assert 0 in multiset(f[UINT32..]) by { assert f[UINT32..][0] == 0; }
  }

  /**
   * With its uint32_t entries the builder delivers one cycle exactly when the
   * count fits in 32 bits.
   */
  lemma BuilderIsOneCycleIff(count: nat, draws: seq<nat>)
    requires 1 <= count && |draws| == count - 1 && Draws(draws)
    ensures OneCycle(Shuffle(Filled(count), draws)) <==> count <= 0x1_0000_0000
    ensures count <= UINT32 ==> Filled(count) == Identity(count)
  {
    if count <= UINT32 {
      assert Filled(count) == Identity(count);
      SattoloIsOneCycle(count, draws);
    } else {
      FilledTwice(count);
      ShuffleKeepsEntries(Filled(count), draws);
      if OneCycle(Shuffle(Filled(count), draws)) {
        InjectiveHasSingles(Shuffle(Filled(count), draws), 0);
      }
    }
  }
}
