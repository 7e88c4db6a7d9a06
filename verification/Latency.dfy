/**
 The latency bench of latency_bench.cpp: one dependent walk around the chase, then K
 interleaved cursors, and the Little's-Law figure drawn from both.
 */
module Latency {
  import opened Arith
  import opened Cycles
  import opened Chase
  import opened Wiring
  import opened Clock

  const LINE := 64

  function NodeCount(footprint: nat): (count: nat)
    ensures footprint < 128 ==> count == 2
    ensures footprint >= 128 ==> 2 <= count && 64 * count <= footprint < 64 * (count + 1)
  {
    if footprint / LINE < 2 then 2 else footprint / LINE
  }

  method BuildChaseArray(footprint: nat, draws: seq<nat>) returns (arr: array<ChaseNode>, count: nat)
    requires |draws| == NodeCount(footprint) - 1 && Draws(draws)
    ensures fresh(arr) && count == NodeCount(footprint) == arr.Length
    ensures OneCycle(Nexts(arr[..], count)) <==> count <= UINT32
    ensures InRange(Nexts(arr[..], Live(count)))
  {
    count := footprint / LINE;
    if count < 2 {
      count := 2;
    }
    arr := new ChaseNode[count];
    WireSingleCycle(arr, count, draws);
  }

  /** 64 dependent hops per round from node 0; cur is where the walk ends. */
  method MeasureDependentLatency(arr: array<ChaseNode>, timer: Timer, ghost live: nat)
    returns (nsPerHop: real, cur: nat)
    requires 0 < live <= arr.Length && InRange(Nexts(arr[..], live)) && timer.Valid()
    ensures cur == Iter(Nexts(arr[..], live), 0, 64 * |timer.tests|)
    ensures nsPerHop == (timer.end - timer.start) as real / (64 * |timer.tests|) as real
  {
    ghost var next := Nexts(arr[..], live);
    var hops, round := 0, 0;
    cur := 0;
    while true
      invariant 0 <= round < |timer.tests| && hops == 64 * round
      invariant cur < live && cur == Iter(next, 0, hops)
      decreases |timer.tests| - round
    {
      for u := 0 to 64
        invariant cur < live && cur == Iter(next, 0, hops + u)
      {
        assert arr[cur].next == next[cur];
        cur := arr[cur].next;
      }
      hops := hops + 64;
      round := round + 1;
      if !timer.Continue(round - 1) {
        break;
      }
    }
    nsPerHop := (timer.end - timer.start) as real / hops as real;
  }

  // ----- K cursors

  function StartCursor(count: nat, streams: nat, k: nat): nat
    requires 1 <= streams <= count && k < streams
  {
    (count / streams * k) % UINT32 % count
  }

  function Starts(count: nat, streams: nat): seq<nat>
    requires 1 <= streams <= count
  {
    seq(streams, k requires 0 <= k < streams => StartCursor(count, streams, k))
  }

  /** Where the cursors stand after a number of whole rounds. */
  function CursorsAfter(next: seq<nat>, starts: seq<nat>, rounds: nat): (c: seq<nat>)
    requires InRange(next) && Fits(starts, |next|)
    ensures |c| == |starts| && Fits(c, |next|)
  {
    seq(|starts|, k requires 0 <= k < |starts| => Iter(next, starts[k], rounds))
  }

  lemma StrideBounds(count: nat, streams: nat, k: nat)
    requires 1 <= streams <= count && k < streams
    ensures count / streams >= 1
    ensures count / streams * k < count
  {
    var q := count / streams;
    assert q * streams <= count;
    assert q * k <= q * (streams - 1);
  }

  /**
   * The start cursors are the multiples of one stride, spread over the array; past 32 bits
   * each keeps the low 32 bits of its multiple.
   */
  lemma StartsAreLive(count: nat, streams: nat)
    requires 1 <= streams <= count
    ensures |Starts(count, streams)| == streams && Fits(Starts(count, streams), Live(count))
    ensures forall k :: 0 <= k < streams ==> Starts(count, streams)[k] == count / streams * k % 0x1_0000_0000
    ensures count <= UINT32 ==>
      forall k :: 0 <= k < streams ==> Starts(count, streams)[k] == count / streams * k
  {
    forall k: nat | k < streams
      ensures Starts(count, streams)[k] < Live(count)
      ensures Starts(count, streams)[k] == count / streams * k % 0x1_0000_0000
      ensures count <= UINT32 ==> Starts(count, streams)[k] == count / streams * k
    {
      StrideBounds(count, streams, k);
      var at := count / streams * k;
      if count <= UINT32 {
        ModSmall(at, UINT32);
        ModSmall(at, count);
      } else {
        ModSmall(at % UINT32, count);
      }
    }
  }

  /** One round: every cursor takes one hop. */
  method AdvanceCursors(arr: array<ChaseNode>, cursors: array<nat>, ghost live: nat)
    requires arr.Length >= live > 0 && InRange(Nexts(arr[..], live)) && Fits(cursors[..], live)
    modifies cursors
    ensures cursors[..] == CursorsAfter(Nexts(arr[..], live), old(cursors[..]), 1)
  {
    ghost var next := Nexts(arr[..], live);
    for k := 0 to cursors.Length
      invariant forall j :: 0 <= j < k ==> cursors[j] == next[old(cursors[j])]
      invariant forall j :: k <= j < cursors.Length ==> cursors[j] == old(cursors[j])
    {
      assert cursors[k] == old(cursors[..])[k] < live;
      assert arr[cursors[k]].next == next[cursors[k]];
      cursors[k] := arr[cursors[k]].next;
    }
    forall j | 0 <= j < cursors.Length
      ensures cursors[j] == Iter(next, old(cursors[..])[j], 1)
    {
      assert Iter(next, old(cursors[..])[j], 0) == old(cursors[j]);
    }
  }

  lemma RoundsCompose(next: seq<nat>, starts: seq<nat>, r: nat)
    requires InRange(next) && Fits(starts, |next|)
    ensures CursorsAfter(next, CursorsAfter(next, starts, r), 1) == CursorsAfter(next, starts, r + 1)
  {
    forall k | 0 <= k < |starts|
      ensures Iter(next, Iter(next, starts[k], r), 1) == Iter(next, starts[k], r + 1)
    {
      IterAdd(next, starts[k], r, 1);
    }
  }

  method PlaceCursors(count: nat, streams: nat) returns (cursors: array<nat>)
    requires 1 <= streams <= count
    ensures fresh(cursors) && cursors[..] == Starts(count, streams)
  {
    cursors := new nat[streams];
    for k := 0 to streams
      invariant forall j :: 0 <= j < k ==> cursors[j] == StartCursor(count, streams, j)
    {
      cursors[k] := (count / streams * k) % UINT32 % count;
    }
  }

  method SumCursors(cursors: array<nat>) returns (chk: nat)
    ensures chk == Sum(cursors[..])
  {
    chk := 0;
    for k := 0 to cursors.Length
      invariant chk == Sum(cursors[..k])
    {
      assert cursors[..k + 1][..k] == cursors[..k];
      chk := chk + cursors[k];
    }
    assert cursors[..] == cursors[..cursors.Length];
  }

  method RunRounds(arr: array<ChaseNode>, cursors: array<nat>, ghost live: nat, ghost starts: seq<nat>, ghost done: nat)
    requires arr.Length >= live > 0 && InRange(Nexts(arr[..], live)) && Fits(starts, live)
    requires cursors[..] == CursorsAfter(Nexts(arr[..], live), starts, done)
    modifies cursors
    ensures cursors[..] == CursorsAfter(Nexts(arr[..], live), starts, done + 16)
  {
    ghost var next := Nexts(arr[..], live);
    for rep := 0 to 16
      invariant cursors[..] == CursorsAfter(next, starts, done + rep)
    {
      AdvanceCursors(arr, cursors, live);
      RoundsCompose(next, starts, done + rep);
    }
  }

  /** The timed loop: 16 rounds of K hops per stop test. */
  method ChaseUntilTimeUp(arr: array<ChaseNode>, cursors: array<nat>, timer: Timer,
                          ghost live: nat, ghost starts: seq<nat>)
    returns (hops: nat)
    requires arr.Length >= live > 0 && InRange(Nexts(arr[..], live)) && Fits(starts, live)
    requires cursors[..] == starts && timer.Valid()
    modifies cursors
    ensures cursors[..] == CursorsAfter(Nexts(arr[..], live), starts, 16 * |timer.tests|)
    ensures hops == 16 * cursors.Length * |timer.tests|
  {
    ghost var next := Nexts(arr[..], live);
    assert cursors[..] == CursorsAfter(next, starts, 0);
    var perTest := 16 * cursors.Length;
    var round := 0;
    hops := 0;
    while true
      invariant 0 <= round < |timer.tests| && hops == round * perTest
      invariant cursors[..] == CursorsAfter(next, starts, 16 * round)
      decreases |timer.tests| - round
    {
      RunRounds(arr, cursors, live, starts, 16 * round);
      hops := hops + perTest;
      OneMore(perTest, round);
      round := round + 1;
      if !timer.Continue(round - 1) {
        break;
      }
    }
  }

  /** K streams make 16 rounds of K hops per stop test, and each hop moves a line of 64 bytes. */
  predicate BytesMoved(bytes: nat, streams: nat, timer: Timer) {
    bytes == 64 * (16 * streams * |timer.tests|)
  }

  ghost predicate IsBandwidth(gbs: real, streams: nat, timer: Timer) {
    forall bytes: nat {:trigger BytesMoved(bytes, streams, timer)} :: BytesMoved(bytes, streams, timer) ==>
      gbs == if timer.end == timer.start then 0.0 else bytes as real / (timer.end - timer.start) as real
  }

  lemma HopsGiveBandwidth(hops: nat, streams: nat, timer: Timer)
    requires timer.start <= timer.end && hops == 16 * streams * |timer.tests|
    ensures IsBandwidth(Rate(hops * LINE, timer.end - timer.start), streams, timer)
  {
    RateIsQuotient(hops * LINE, timer.end - timer.start);
  }

  /** Bytes per nanosecond, over the time from before the loop to after it. */
  lemma BandwidthMeaning(gbs: real, streams: nat, timer: Timer)
    requires timer.start <= timer.end
    ensures IsBandwidth(gbs, streams, timer)
            <==> gbs == if timer.end == timer.start then 0.0
                        else (64 * (16 * streams * |timer.tests|)) as real / (timer.end - timer.start) as real
    ensures IsBandwidth(gbs, streams, timer) ==> gbs >= 0.0
  {
    var bytes := 64 * (16 * streams * |timer.tests|);
    assert BytesMoved(bytes, streams, timer);
    RateIsQuotient(bytes, timer.end - timer.start);
  }

  /** Bandwidth of K streams; chk is the sum of the final cursors. */
  method MeasureMlpBandwidth(arr: array<ChaseNode>, count: nat, streams: nat, timer: Timer)
    returns (gbs: real, chk: nat)
    requires 1 <= streams <= count == arr.Length && timer.Valid()
    requires InRange(Nexts(arr[..], Live(count)))
    ensures Fits(Starts(count, streams), Live(count))
    ensures chk == Sum(CursorsAfter(Nexts(arr[..], Live(count)), Starts(count, streams), 16 * |timer.tests|))
    ensures IsBandwidth(gbs, streams, timer)
  {
    StartsAreLive(count, streams);
    var cursors := PlaceCursors(count, streams);
    assert cursors.Length == |cursors[..]| == streams;
    var hops := ChaseUntilTimeUp(arr, cursors, timer, Live(count), Starts(count, streams));
    chk := SumCursors(cursors);
    gbs := Rate(hops * LINE, timer.end - timer.start);
    HopsGiveBandwidth(hops, streams, timer);
  }

  // ----- cursors never collide

  /** d strides of a wide array land on the same 32-bit index as none. */
  predicate StrideWraps(count: nat, streams: nat, d: nat)
    requires 1 <= streams <= count
  {
    UINT32 < count && (count / streams * d) % UINT32 == 0
  }

  lemma WrappedIndicesMeet(count: nat, a: nat, b: nat)
    requires a < b < count
    ensures a % UINT32 % count == b % UINT32 % count ==> UINT32 < count && (b - a) % UINT32 == 0
  {
    if UINT32 < count {
      ModSmall(a % UINT32, count);
      ModSmall(b % UINT32, count);
      if a % UINT32 == b % UINT32 {
        SameResidue(a, b, UINT32);
      }
    } else {
      ModSmall(a, UINT32);
      ModSmall(b, UINT32);
      ModSmall(a, count);
      ModSmall(b, count);
    }
  }

  lemma StartsMeetOnlyByWrapping(count: nat, streams: nat, j: nat, k: nat)
    requires 1 <= streams <= count && j < k < streams
    requires StartCursor(count, streams, j) == StartCursor(count, streams, k)
    ensures StrideWraps(count, streams, k - j)
  {
    var q := count / streams;
    StrideBounds(count, streams, k);
    Distribute(q, k, j);
    WrappedIndicesMeet(count, q * j, q * k);
  }

  lemma WrappedStrideMeetsStart(count: nat, streams: nat, d: nat)
    requires 1 <= streams <= count && 0 < d < streams && StrideWraps(count, streams, d)
    ensures StartCursor(count, streams, d) == StartCursor(count, streams, 0)
  {
    assert count / streams * 0 == 0;
  }

  /**
   * The start cursors are pairwise different exactly when no stride multiple below K
   * wraps to 0; a count that fits 32 bits always meets that.
   */
  lemma StartsDistinctIff(count: nat, streams: nat)
    requires 1 <= streams <= count
    ensures Injective(Starts(count, streams))
            <==> forall d :: 0 < d < streams ==> !StrideWraps(count, streams, d)
  {
    var starts := Starts(count, streams);
    if d :| 0 < d < streams && StrideWraps(count, streams, d) {
      WrappedStrideMeetsStart(count, streams, d);
      assert starts[0] == starts[d];
    } else {
      forall j, k | 0 <= j < k < streams
        ensures starts[j] != starts[k]
      {
        if starts[j] == starts[k] {
          StartsMeetOnlyByWrapping(count, streams, j, k);
        }
      }
    }
  }

  /** On 2^33 nodes, of which 32-bit indices see half, two cursors start on the same node. */
  lemma WideArrayStartsMeet()
    ensures StrideWraps(0x2_0000_0000, 2, 1)
    ensures !Injective(Starts(0x2_0000_0000, 2))
  {
    WrappedStrideMeetsStart(0x2_0000_0000, 2, 1);
    var starts := Starts(0x2_0000_0000, 2);
    assert starts[0] == starts[1];
  }

  /** On one cycle, cursors that start apart are apart after every round. */
  lemma CursorsStayApart(next: seq<nat>, count: nat, streams: nat, rounds: nat)
    requires 1 <= streams <= count == |next| && count <= UINT32 && OneCycle(next)
    ensures Fits(Starts(count, streams), count)
    ensures Injective(CursorsAfter(next, Starts(count, streams), rounds))
  {
    StartsAreLive(count, streams);
    StartsDistinctIff(count, streams);
    var starts := Starts(count, streams);
    var after := CursorsAfter(next, starts, rounds);
    forall j, k | 0 <= j < k < streams
      ensures after[j] != after[k]
    {
      if after[j] == after[k] {
        IterInjective(next, starts[j], starts[k], rounds);
      }
    }
  }

  /** In count consecutive rounds each cursor meets each node in exactly one of them. */
  lemma CursorVisitsEachNodeOnce(next: seq<nat>, starts: seq<nat>, k: nat, node: nat, from: nat)
    returns (round: nat)
    requires OneCycle(next) && Fits(starts, |next|) && k < |starts| && node < |next|
    ensures from <= round < from + |next| && CursorsAfter(next, starts, round)[k] == node
    ensures forall other: nat :: from <= other < from + |next| && CursorsAfter(next, starts, other)[k] == node
                            ==> other == round
  {
    var x := Iter(next, starts[k], from);
    WalkVisitsAllOnce(next, x);
    assert ReachesWithin(next, x, node, |next|);
    var m: nat :| m < |next| && Iter(next, x, m) == node;
    round := from + m;
    IterAdd(next, starts[k], from, m);
    forall other: nat | from <= other < from + |next| && CursorsAfter(next, starts, other)[k] == node
      ensures other == round
    {
      if other < round {
        StopsDiffer(next, starts[k], other, round);
      } else if round < other {
        StopsDiffer(next, starts[k], round, other);
      }
    }
  }
}
