/**
 The RAM bandwidth bench of ram_bench.cpp: buffer rounding, the three kernels, the
 thread counts swept, and the result assembled from the sweeps.
 */
module RamBench {
  import opened Arith
  import opened Clock
  import opened SweepProtocol
  import opened SweepRates
  import opened Rounding
  import opened Wrappers
  import Plateau

  // ----- AlignedBuffer

  const CACHE_LINE: nat := 64

  /** The bitwise and of two words, bit by bit. */
  function BitAnd(x: nat, y: nat): nat {
    if x == 0 || y == 0 then 0 else 2 * BitAnd(x / 2, y / 2) + if x % 2 == 1 && y % 2 == 1 then 1 else 0
  }

  /** ~63 in 64 bits. */
  const LINE_MASK: nat := UINT64 - 1 - 63

  /** (n + 63) & ~63 in 64-bit arithmetic. */
  function AlignUp(n: nat): nat {
    BitAnd((n + 63) % UINT64, LINE_MASK)
  }

  /** A word of n one bits. */
  function Ones(n: nat): nat {
    if n == 0 then 0 else 2 * Ones(n - 1) + 1
  }

  lemma {:induction false} AndWithOnes(x: nat, n: nat)
    requires x <= Ones(n)
    ensures BitAnd(x, Ones(n)) == x
  {
    if n != 0 {
      AndWithOnes(x / 2, n - 1);
    }
  }

  lemma EightMoreOnes(n: nat)
    ensures Ones(n + 8) == 256 * Ones(n) + 255
  {
    assert Ones(n + 2) == 4 * Ones(n) + 3 && Ones(n + 4) == 4 * Ones(n + 2) + 3;
    assert Ones(n + 6) == 4 * Ones(n + 4) + 3 && Ones(n + 8) == 4 * Ones(n + 6) + 3;
  }

  lemma OnesOfMask()
    ensures 64 * Ones(58) == LINE_MASK
  {
    assert Ones(2) == 3;
    EightMoreOnes(2);
    EightMoreOnes(10);
    EightMoreOnes(18);
    EightMoreOnes(26);
    EightMoreOnes(34);
    EightMoreOnes(42);
    EightMoreOnes(50);
  }

  lemma AndWithEven(x: nat, half: nat)
    ensures BitAnd(x, 2 * half) == 2 * BitAnd(x / 2, half)
  {
    assert 2 * half / 2 == half && 2 * half % 2 == 0;
  }

  function Doubled(y: nat, n: nat): nat {
    if n == 0 then y else 2 * Doubled(y, n - 1)
  }

  function Halved(x: nat, n: nat): nat {
    if n == 0 then x else Halved(x / 2, n - 1)
  }

  /** Zero bits at the end of a mask clear as many bits of the word. */
  lemma {:induction false} AndWithZeros(x: nat, y: nat, n: nat)
    ensures BitAnd(x, Doubled(y, n)) == Doubled(BitAnd(Halved(x, n), y), n)
  {
    if n != 0 {
      AndWithEven(x, Doubled(y, n - 1));
      AndWithZeros(x / 2, y, n - 1);
    }
  }

  lemma SixBits(x: nat)
    ensures Doubled(x, 6) == 64 * x && Halved(x, 6) == x / 64
  {
    assert Doubled(x, 1) == 2 * x && Doubled(x, 2) == 4 * x && Doubled(x, 3) == 8 * x;
    assert Doubled(x, 4) == 16 * x && Doubled(x, 5) == 32 * x;
    assert x / 2 / 2 == x / 4 && x / 4 / 2 == x / 8 && x / 8 / 2 == x / 16;
    assert x / 16 / 2 == x / 32 && x / 32 / 2 == x / 64;
    assert Halved(x / 32, 1) == x / 64;
    assert Halved(x / 16, 2) == Halved(x / 32, 1) && Halved(x / 8, 3) == Halved(x / 16, 2);
    assert Halved(x / 4, 4) == Halved(x / 8, 3) && Halved(x / 2, 5) == Halved(x / 4, 4);
  }

  /** Clearing the low six bits of a 64-bit word is rounding down to a multiple of 64. */
  lemma MaskRoundsDown(w: nat)
    requires w < UINT64
    ensures BitAnd(w, LINE_MASK) == w / 64 * 64
  {
    OnesOfMask();
    SixBits(Ones(58));
    SixBits(w);
    SixBits(w / 64);
    AndWithZeros(w, Ones(58), 6);
    AndWithOnes(w / 64, 58);
  }

  lemma AlignIsRoundUp(n: nat)
    ensures AlignUp(n) == RoundUp(n, CACHE_LINE)
  {
    MaskRoundsDown((n + 63) % UINT64);
  }

  /** The buffer size is the least multiple of 64 at or above n exactly when n + 63 does not wrap; then it is 0. */
  lemma AlignUpIff(n: nat)
    requires n < UINT64
    ensures LeastMultiple(AlignUp(n), 64, n) <==> n + 63 < 0x1_0000_0000_0000_0000
    ensures n + 63 >= 0x1_0000_0000_0000_0000 ==> AlignUp(n) == 0
  {
    AlignIsRoundUp(n);
    RoundUpIff(n, CACHE_LINE);
  }

  /** A pass of 8-byte words, or of 16-byte vectors, covers an aligned buffer with nothing left over. */
  lemma PassCoversBuffer(n: nat)
    ensures AlignUp(n) / 8 * 8 == AlignUp(n)
    ensures AlignUp(n) / 16 * 16 == AlignUp(n)
    ensures AlignUp(n) / 16 * 2 == AlignUp(n) / 8
  {
    AlignIsRoundUp(n);
    var lines := (n + CACHE_LINE - 1) % UINT64 / CACHE_LINE;
    QuotientUnique(AlignUp(n), 8, lines * 8, 0);
    QuotientUnique(AlignUp(n), 16, lines * 4, 0);
  }

  // ----- the kernels, on a buffer seen as 64-bit words

  /** One pass over the words, adding them to an accumulator that wraps at 2^64. */
  method SumPass(p: array<nat>, sum: nat) returns (sum': nat)
    requires sum < UINT64
    ensures sum' == (sum + Sum(p[..])) % UINT64
  {
    sum' := sum;
    for i := 0 to p.Length
      invariant sum' == (sum + Sum(p[..i])) % UINT64
    {
      assert p[..i + 1][..i] == p[..i];
      ModAdd(sum + Sum(p[..i]), p[i], UINT64);
      sum' := (sum' + p[i]) % UINT64;
    }
    assert p[..p.Length] == p[..];
  }

  method ReadKernel(p: array<nat>, bytes: nat, timer: Timer) returns (moved: nat, sum: nat)
    requires p.Length == bytes / 8 && timer.Valid()
    ensures moved == |timer.tests| * bytes % UINT64
    ensures sum == |timer.tests| * Sum(p[..]) % UINT64
  {
    var passes := 0;
    sum := 0;
    while true
      invariant 0 <= passes < |timer.tests|
      invariant sum == passes * Sum(p[..]) % UINT64
      decreases |timer.tests| - passes
    {
      ghost var before := sum;
      sum := SumPass(p, sum);
      AddPass(before, passes, Sum(p[..]));
      passes := passes + 1;
      if !timer.Continue(passes - 1) {
        break;
      }
    }
    moved := passes * bytes % UINT64;
  }

  lemma AddPass(sum: nat, passes: nat, w: nat)
    requires sum == passes * w % UINT64
    ensures (sum + w) % UINT64 == (passes + 1) * w % UINT64
  {
    ModAdd(passes * w, w, UINT64);
    assert passes * w + w == (passes + 1) * w;
  }

  method WritePlainKernel(p: array<nat>, bytes: nat, timer: Timer, pattern: nat) returns (moved: nat)
    requires p.Length == bytes / 8 && timer.Valid()
    modifies p
    ensures moved == |timer.tests| * bytes % UINT64
    ensures forall i :: 0 <= i < p.Length ==> p[i] == (pattern + i) % UINT64
  {
    var passes := 0;
    while true
      invariant 0 <= passes < |timer.tests|
      decreases |timer.tests| - passes
    {
      for i := 0 to p.Length
        invariant forall k :: 0 <= k < i ==> p[k] == (pattern + k) % UINT64
      {
        p[i] := (pattern + i) % UINT64;
      }
      passes := passes + 1;
      if !timer.Continue(passes - 1) {
        break;
      }
    }
    moved := passes * bytes % UINT64;
  }

  /** 16-byte streaming stores: each writes the pattern to two neighbouring words. */
  method WriteNtKernel(p: array<nat>, bytes: nat, timer: Timer, pattern: nat) returns (moved: nat)
    requires p.Length == bytes / 8 && timer.Valid()
    modifies p
    ensures moved == |timer.tests| * bytes % UINT64
    ensures forall i :: 0 <= i < p.Length ==> p[i] == if i < bytes / 16 * 2 then pattern else old(p[i])
  {
    var passes, n := 0, bytes / 16;
    while true
      invariant 0 <= passes < |timer.tests|
      invariant forall k :: 2 * n <= k < p.Length ==> p[k] == old(p[k])
      decreases |timer.tests| - passes
    {
      for i := 0 to n
        invariant forall k :: 0 <= k < 2 * i ==> p[k] == pattern
        invariant forall k :: 2 * n <= k < p.Length ==> p[k] == old(p[k])
      {
        p[2 * i], p[2 * i + 1] := pattern, pattern;
      }
      passes := passes + 1;
      if !timer.Continue(passes - 1) {
        break;
      }
    }
    moved := passes * bytes % UINT64;
  }

  datatype Kernel = Read | WritePlain | WriteNt

  const PATTERN: nat := 0x1234

  /**
   * A worker's body from its first clock reading on, in a completed run of the protocol:
   * on that run's clock readings the kernel returns what the run finds in the worker's slot.
   */
  method RunWorker(kernel: Kernel, p: array<nat>, c: Config, i: nat, timer: Timer,
                   ghost actions: seq<Action>, ghost s: State) returns (done: nat)
    requires i < |c.bytes| && p.Length == c.bytes[i] / 8
    requires Run(c, actions, s) && s.main.Done? && timer == WorkerTimer(c, actions, i)
    modifies p
    ensures |s.slots| == |c.bytes| && done == s.slots[i]
    ensures kernel.Read? ==> p[..] == old(p[..])
    ensures kernel.WritePlain? ==> forall k :: 0 <= k < p.Length ==> p[k] == (0x1234 + k) % UINT64
    ensures kernel.WriteNt? ==>
      forall k :: 0 <= k < p.Length ==> p[k] == if k < c.bytes[i] / 16 * 2 then 0x1234 else old(p[k])
  {
    SlotIsKernelResult(c, actions, s, i);
    match kernel
    case Read =>
      var moved, _ := ReadKernel(p, c.bytes[i], timer);
      done := moved;
    case WritePlain => done := WritePlainKernel(p, c.bytes[i], timer, PATTERN);
    case WriteNt => done := WriteNtKernel(p, c.bytes[i], timer, PATTERN);
  }

  // ----- thread counts

  const CANDIDATES: seq<nat> := [1, 2, 3, 4, 6, 8, 12, 16, 24, 32, 48, 64, 96, 128]

  predicate Increasing(s: seq<nat>) {
    forall i, j :: 0 <= i < j < |s| ==> s[i] < s[j]
  }

  /** The candidates that fit, followed by the maximum itself if it is not the last of them. */
  predicate IsThreadSteps(steps: seq<nat>, max: int) {
    StepsFrom([1, 2, 3, 4, 6, 8, 12, 16, 24, 32, 48, 64, 96, 128], steps, max)
  }

  predicate StepsFrom(candidates: seq<nat>, steps: seq<nat>, max: int) {
    && Increasing(steps)
    && (forall k :: 0 <= k < |steps| ==> 1 <= steps[k] <= max && (steps[k] in candidates || steps[k] == max))
    && (forall c :: c in candidates && c <= max ==> c in steps)
    && (max > 0 ==> steps != [] && steps[|steps| - 1] == max)
    && (max <= 0 ==> steps == [])
  }

  /** The entries of a list that do not exceed the maximum. */
  function Fitting(candidates: seq<nat>, max: int): seq<nat> {
    if candidates == [] then [] else
      var last := |candidates| - 1;
      Fitting(candidates[..last], max) + if candidates[last] <= max then [candidates[last]] else []
  }

  /** The maximum closes the list unless it is its last entry already. */
  function Close(fitting: seq<nat>, max: int): seq<nat> {
    if max > 0 && (fitting == [] || fitting[|fitting| - 1] != max) then fitting + [max] else fitting
  }

  function StepList(candidates: seq<nat>, max: int): seq<nat> {
    Close(Fitting(candidates, max), max)
  }

  method ThreadSteps(max: int) returns (steps: seq<nat>)
    ensures steps == StepList(CANDIDATES, max)
  {
    steps := [];
    for i := 0 to |CANDIDATES|
      invariant steps == Fitting(CANDIDATES[..i], max)
    {
      var c := CANDIDATES[i];
      assert CANDIDATES[..i + 1][..i] == CANDIDATES[..i];
      if c <= max {
        steps := steps + [c];
      }
    }
    assert CANDIDATES[..|CANDIDATES|] == CANDIDATES;
    if max > 0 && (steps == [] || steps[|steps| - 1] != max) {
      steps := steps + [max];
    }
  }

  lemma {:induction false} FittingSelects(candidates: seq<nat>, max: int)
    ensures forall c :: c in Fitting(candidates, max) <==> c in candidates && c <= max
  {
    if candidates != [] {
      var last := |candidates| - 1;
      assert candidates == candidates[..last] + [candidates[last]];
      FittingSelects(candidates[..last], max);
    }
  }

  lemma {:induction false} FittingIncreases(candidates: seq<nat>, max: int)
    requires Increasing(candidates)
    ensures Increasing(Fitting(candidates, max))
  {
    if candidates != [] {
      var last := |candidates| - 1;
      FittingIncreases(candidates[..last], max);
      FittingSelects(candidates[..last], max);
      var before := Fitting(candidates[..last], max);
      forall k | 0 <= k < |before|
        ensures before[k] < candidates[last]
      {
        assert before[k] in before && before[k] in candidates[..last];
      }
    }
  }

  /** thread_steps is strictly increasing within [1, max] and ends in max; it is empty for max <= 0. */
  lemma ThreadStepsMeaning(max: int)
    ensures IsThreadSteps(StepList(CANDIDATES, max), max)
  {
    CandidatesIncrease();
    StepListMeaning(CANDIDATES, max);
  }

  lemma FittingMeaning(candidates: seq<nat>, max: int)
    requires Increasing(candidates) && forall c :: c in candidates ==> c >= 1
    ensures var fitting := Fitting(candidates, max);
      && Increasing(fitting)
      && (forall c :: c in candidates && c <= max ==> c in fitting)
      && (forall k :: 0 <= k < |fitting| ==> 1 <= fitting[k] <= max && fitting[k] in candidates)
  {
    FittingIncreases(candidates, max);
    FittingSelects(candidates, max);
    var fitting := Fitting(candidates, max);
    forall k | 0 <= k < |fitting|
      ensures 1 <= fitting[k] <= max && fitting[k] in candidates
    {
      assert fitting[k] in fitting;
    }
  }

  lemma StepListMeaning(candidates: seq<nat>, max: int)
    requires Increasing(candidates) && forall c :: c in candidates ==> c >= 1
    ensures StepsFrom(candidates, StepList(candidates, max), max)
  {
    FittingMeaning(candidates, max);
    MaximumClosesSteps(candidates, Fitting(candidates, max), max);
  }

  lemma MaximumClosesSteps(candidates: seq<nat>, fitting: seq<nat>, max: int)
    requires Increasing(fitting) && forall c :: c in candidates && c <= max ==> c in fitting
    requires forall k :: 0 <= k < |fitting| ==> 1 <= fitting[k] <= max && fitting[k] in candidates
    ensures StepsFrom(candidates, Close(fitting, max), max)
  {
    if max > 0 && fitting != [] {
      var top := fitting[|fitting| - 1];
      assert forall k :: 0 <= k < |fitting| ==> fitting[k] <= top;
    }
    assert fitting != [] ==> 1 <= fitting[0] <= max;
  }

  lemma CandidatesIncrease()
    ensures Increasing(CANDIDATES)
    ensures forall c :: c in CANDIDATES ==> c >= 1
  {
  }

  /** The properties of the list determine it. */
  lemma ThreadStepsUnique(a: seq<nat>, b: seq<nat>, max: int)
    requires IsThreadSteps(a, max) && IsThreadSteps(b, max)
    ensures a == b
  {
    StepsFromUnique(CANDIDATES, a, b, max);
  }

  lemma StepsFromUnique(candidates: seq<nat>, a: seq<nat>, b: seq<nat>, max: int)
    requires StepsFrom(candidates, a, max) && StepsFrom(candidates, b, max)
    ensures a == b
  {
    forall x
      ensures x in a <==> x in b
    {
    }
    SortedSetsAgree(a, b);
  }

  lemma {:induction false} SortedSetsAgree(a: seq<nat>, b: seq<nat>)
    requires Increasing(a) && Increasing(b) && forall x :: x in a <==> x in b
    ensures a == b
  {
    assert b == [] || b[0] in b;
    if a != [] {
      var m := |a| - 1;
      assert a[m] in b && b[|b| - 1] in a;
      var n := |b| - 1;
      assert a[m] == b[n];
      forall x
        ensures x in a[..m] <==> x in b[..n]
      {
        assert x in a[..m] <==> x in a && x != a[m];
        assert x in b[..n] <==> x in b && x != b[n];
      }
      SortedSetsAgree(a[..m], b[..n]);
      assert a == a[..m] + [a[m]] && b == b[..n] + [b[n]];
    }
  }

  // ----- the sweep and its result

  datatype Point = Point(threads: nat, aggregate: real, perThread: real)

  /** One completed protocol run for each thread count of a sweep. */
  datatype Execution = Execution(actions: seq<Action>, final: State)

  /** Workers 0 .. threads-1 use the buffers of the same number; there are no others. */
  function StepConfig(buffers: seq<nat>, threads: nat, duration: nat): Config {
    Config(if threads <= |buffers| then buffers[..threads] else buffers, duration)
  }

  ghost predicate Completes(e: Execution, buffers: seq<nat>, threads: nat, duration: nat) {
    Run(StepConfig(buffers, threads, duration), e.actions, e.final) && e.final.main.Done?
  }

  /** The executions are those of a sweep over these buffers, step by step. */
  ghost predicate SweepRuns(runs: seq<Execution>, buffers: seq<nat>, duration: nat) {
    var steps := StepList(CANDIDATES, |buffers|);
    && |runs| == |steps|
    && forall k :: 0 <= k < |steps| ==> Completes(runs[k], buffers, steps[k], duration)
  }

  method SumSlots(slots: seq<nat>) returns (total: nat)
    ensures total == SlotSum(slots)
  {
    total := 0;
    for i := 0 to |slots|
      invariant total == SlotSum(slots[..i])
    {
      assert slots[..i + 1][..i] == slots[..i];
      total := (total + slots[i]) % UINT64;
    }
    assert slots[..|slots|] == slots;
  }

  function Aggregates(points: seq<Point>): seq<real> {
    seq(|points|, k requires 0 <= k < |points| => points[k].aggregate)
  }

  function ThreadCounts(points: seq<Point>): seq<nat> {
    seq(|points|, k requires 0 <= k < |points| => points[k].threads)
  }

  /**
   * The point reported for one completed run over the first threads buffers: all bytes
   * moved, modulo 2^64, over the time between main's two clock readings.
   */
  ghost predicate PointOf(p: Point, e: Execution, buffers: seq<nat>) {
    var s, n := e.final, p.threads;
    && 0 < n <= |buffers| && |s.workers| == n
    && s.wallStart == TimeOf(e.actions, ReadWallStart) <= s.wallEnd == TimeOf(e.actions, ReadWallEnd)
    && p.aggregate == (if s.wallEnd == s.wallStart then 0.0
                       else (Sum(BytesMoved(s, buffers, n)) % UINT64) as real / (s.wallEnd - s.wallStart) as real)
    && p.perThread == p.aggregate / n as real
  }

  /** Worker i makes its passes over buffer i. */
  function BytesMoved(s: State, buffers: seq<nat>, n: nat): seq<nat>
    requires n <= |buffers| && n <= |s.workers|
  {
    seq(n, i requires 0 <= i < n => s.workers[i].passes * buffers[i])
  }

  ghost predicate PointsOf(points: seq<Point>, runs: seq<Execution>, buffers: seq<nat>) {
    && |points| == |runs|
    && ThreadCounts(points) == StepList(CANDIDATES, |buffers|)
    && forall k :: 0 <= k < |points| ==> PointOf(points[k], runs[k], buffers)
  }

  /** Every thread count swept is at least 1, and all its workers have a buffer. */
  lemma EveryWorkerHasBuffer(buffers: seq<nat>, k: nat)
    requires k < |StepList(CANDIDATES, |buffers|)|
    ensures 0 < StepList(CANDIDATES, |buffers|)[k] <= |buffers|
  {
    ThreadStepsMeaning(|buffers|);
  }

  lemma CompletedState(e: Execution, buffers: seq<nat>, threads: nat, duration: nat)
    requires threads <= |buffers| && Completes(e, buffers, threads, duration)
    ensures e.final.wallStart <= e.final.wallEnd && |e.final.slots| == threads
  {
    RunKeepsInv(StepConfig(buffers, threads, duration), e.actions, e.final);
  }

  method SweepStep(threads: nat, s: State, ghost e: Execution, ghost buffers: seq<nat>, ghost duration: nat)
    returns (p: Point)
    requires s == e.final && Completes(e, buffers, threads, duration) && 0 < threads <= |buffers|
    ensures p.threads == threads && PointOf(p, e, buffers)
  {
    CompletedState(e, buffers, threads, duration);
    var total := SumSlots(s.slots);
    var gbs := Rate(total, s.wallEnd - s.wallStart);
    p := Point(threads, gbs, if threads > 0 then gbs / threads as real else 0.0);
    WallRateMeaning(StepConfig(buffers, threads, duration), e.actions, s);
    assert Works(StepConfig(buffers, threads, duration), s) == BytesMoved(s, buffers, threads);
  }

  method Sweep(buffers: seq<nat>, duration: nat, runs: seq<Execution>) returns (points: seq<Point>)
    requires SweepRuns(runs, buffers, duration)
    ensures PointsOf(points, runs, buffers)
  {
    var steps := ThreadSteps(|buffers|);
    points := [];
    for k := 0 to |steps|
      invariant |points| == k
      invariant forall i :: 0 <= i < k ==> points[i].threads == steps[i] && PointOf(points[i], runs[i], buffers)
    {
      EveryWorkerHasBuffer(buffers, k);
      var p := SweepStep(steps[k], runs[k].final, runs[k], buffers, duration);
      points := points + [p];
    }
    assert ThreadCounts(points) == steps;
  }

  /** The point's rate is at most the sum of what its workers saw over their own intervals. */
  ghost predicate PointCovered(p: Point, e: Execution, buffers: seq<nat>, duration: nat) {
    var c := StepConfig(buffers, p.threads, duration);
    IntervalsFit(c, e.final) && p.aggregate <= OwnRates(c, e.final, |c.bytes|)
  }

  /** Every reported point is covered if the sweep lasts at all, and also if its total is 0 bytes. */
  lemma PointIsNoOverclaim(points: seq<Point>, runs: seq<Execution>, buffers: seq<nat>, duration: nat, k: nat)
    requires SweepRuns(runs, buffers, duration) && PointsOf(points, runs, buffers) && k < |points|
    ensures duration > 0 || SlotSum(StepConfig(buffers, points[k].threads, duration).bytes) == 0
            ==> PointCovered(points[k], runs[k], buffers, duration)
  {
    var threads := StepList(CANDIDATES, |buffers|)[k];
    assert ThreadCounts(points)[k] == threads && PointOf(points[k], runs[k], buffers);
    CompletedPointCovered(points[k], runs[k], buffers, threads, duration);
  }

  lemma CompletedPointCovered(p: Point, e: Execution, buffers: seq<nat>, threads: nat, duration: nat)
    requires PointOf(p, e, buffers) && p.threads == threads && Completes(e, buffers, threads, duration)
    ensures duration > 0 || SlotSum(StepConfig(buffers, threads, duration).bytes) == 0
            ==> PointCovered(p, e, buffers, duration)
  {
    var c := StepConfig(buffers, threads, duration);
    if duration > 0 || SlotSum(c.bytes) == 0 {
      CompletedNoOverclaim(c, e.actions, e.final);
      WallRateMeaning(c, e.actions, e.final);
      assert Works(c, e.final) == BytesMoved(e.final, buffers, threads);
    }
  }

  // ----- the saturation point

  lemma PointNotNegative(p: Point, e: Execution, buffers: seq<nat>)
    requires PointOf(p, e, buffers)
    ensures p.aggregate >= 0.0
  {
    var total := Sum(BytesMoved(e.final, buffers, p.threads)) % UINT64;
    RateIsQuotient(total, e.final.wallEnd - e.final.wallStart);
  }

  lemma AggregatesNotNegative(points: seq<Point>, runs: seq<Execution>, buffers: seq<nat>)
    requires PointsOf(points, runs, buffers)
    ensures forall k :: 0 <= k < |points| ==> Aggregates(points)[k] >= 0.0
  {
    forall k | 0 <= k < |points|
      ensures Aggregates(points)[k] >= 0.0
    {
      PointNotNegative(points[k], runs[k], buffers);
    }
  }

  lemma {:induction false} FittingPrefix(candidates: seq<nat>, max: int, n: nat)
    requires n <= |candidates| && forall k :: 0 <= k < n ==> candidates[k] <= max
    ensures candidates[..n] <= Fitting(candidates, max)
    decreases |candidates|
  {
    if candidates != [] {
      var last := |candidates| - 1;
      if n == |candidates| {
        FittingPrefix(candidates[..last], max, last);
        FittingLength(candidates[..last], max);
        assert candidates[..last][..last] == candidates[..last];
        assert candidates[..n] == candidates[..last] + [candidates[last]];
      } else {
        FittingPrefix(candidates[..last], max, n);
        assert candidates[..last][..n] == candidates[..n];
      }
    }
  }

  lemma {:induction false} FittingLength(candidates: seq<nat>, max: int)
    ensures |Fitting(candidates, max)| <= |candidates|
  {
    if candidates != [] {
      FittingLength(candidates[..|candidates| - 1], max);
    }
  }

  /** From 6 threads on, the sweep goes from 4 threads to 6 at once. */
  lemma SixFollowsFour(max: int)
    requires max >= 6
    ensures var steps := StepList(CANDIDATES, max);
      |steps| >= 5 && steps[0] == 1 && steps[1] == 2 && steps[2] == 3 && steps[3] == 4 && steps[4] == 6
  {
    FittingPrefix(CANDIDATES, max, 5);
    assert CANDIDATES[..5] == [1, 2, 3, 4, 6];
  }

  lemma FewThreadsStepByOne(max: int, k: nat)
    requires max <= 5 && k + 1 < |StepList(CANDIDATES, max)|
    ensures StepList(CANDIDATES, max)[k + 1] == StepList(CANDIDATES, max)[k] + 1
  {
    var steps := StepList(CANDIDATES, max);
    ThreadStepsMeaning(max);
    assert 1 <= steps[k] < steps[k + 1] <= max;
    FewThreadsAllIn(max, steps, steps[k] + 1);
    NextInOrder(steps, k, steps[k] + 1);
  }

  lemma FewThreadsAllIn(max: int, steps: seq<nat>, threads: nat)
    requires max <= 5 && IsThreadSteps(steps, max) && 1 <= threads <= max
    ensures threads in steps
  {
    assert CANDIDATES[0] == 1 && CANDIDATES[1] == 2 && CANDIDATES[2] == 3 && CANDIDATES[3] == 4;
    assert threads <= 4 ==> threads == CANDIDATES[threads - 1];
  }

  lemma NextInOrder(steps: seq<nat>, k: nat, next: nat)
    requires Increasing(steps) && k + 1 < |steps| && next in steps && steps[k] < next <= steps[k + 1]
    ensures steps[k + 1] == next
  {
    var j :| 0 <= j < |steps| && steps[j] == next;
    assert j > k;
  }

  /** Bandwidths that level off per added thread at 4 threads, and per step only later. */
  function LateLevelling(n: nat): seq<real> {
    seq(n, i requires 0 <= i => if i < 4 then i as real + 1.0 else 4.3)
  }

  lemma LateLevellingDiffers(max: int)
    requires max >= 6
    ensures var steps, gbs := StepList(CANDIDATES, max), LateLevelling(|StepList(CANDIDATES, max)|);
      |gbs| > 4 && Plateau.ChosenPerThread(steps, gbs, 0) == 3 && Plateau.Chosen(gbs, 0) > 3
  {
    SixFollowsFour(max);
    var steps := StepList(CANDIDATES, max);
    var gbs := LateLevelling(|steps|);
    assert gbs[0] == 1.0 && gbs[1] == 2.0 && gbs[2] == 3.0 && gbs[3] == 4.0 && gbs[4] == 4.3;
    assert forall i :: 0 <= i < 4 ==> !Plateau.Levels(gbs, i);
    assert forall i :: 0 <= i < 3 ==> !Plateau.LevelsPerThread(steps, gbs, i);
    assert Plateau.LevelsPerThread(steps, gbs, 3);
  }

  ghost predicate ReadingsAgree(steps: seq<int>, gbs: seq<real>) {
    |gbs| == |steps| > 0 ==> Plateau.Chosen(gbs, 0) == Plateau.ChosenPerThread(steps, gbs, 0)
  }

  lemma {:induction false} IncreasingSpread(s: seq<nat>)
    requires Increasing(s)
    ensures s != [] ==> s[|s| - 1] >= s[0] + |s| - 1
  {
    if |s| > 1 {
      IncreasingSpread(s[..|s| - 1]);
    }
  }

  /** Bandwidths that grow by exactly 5 % from 1 thread to 2, and not at all later. */
  function ExactGrowth(n: nat): seq<real> {
    seq(n, i requires 0 <= i => if i == 0 then 20.0 else 21.0)
  }

  lemma ExactGrowthDiffers(max: int)
    requires max >= 2
    ensures var steps, gbs := StepList(CANDIDATES, max), ExactGrowth(|StepList(CANDIDATES, max)|);
      |gbs| > 1 && Plateau.ChosenPerThread(steps, gbs, 0) == 0 && Plateau.Chosen(gbs, 0) > 0
  {
    FittingPrefix(CANDIDATES, max, 2);
    assert CANDIDATES[..2] == [1, 2];
    var steps := StepList(CANDIDATES, max);
    assert steps[0] == 1 && steps[1] == 2;
    var gbs := ExactGrowth(|steps|);
    assert gbs[0] == 20.0 && gbs[1] == 21.0;
    assert Plateau.LevelsPerThread(steps, gbs, 0) && !Plateau.Levels(gbs, 0);
  }

  /**
   * The reported saturation point is the documented one, where growth is no more than 5 %
   * per added thread, for all measurements exactly when no second thread is tried.
   */
  lemma DocumentedPointIff(max: int)
    ensures (forall gbs: seq<real> :: ReadingsAgree(StepList(CANDIDATES, max), gbs)) <==> max <= 1
  {
    var steps := StepList(CANDIDATES, max);
    if max <= 1 {
      ThreadStepsMeaning(max);
      IncreasingSpread(steps);
    } else {
      ExactGrowthDiffers(max);
      assert !ReadingsAgree(steps, ExactGrowth(|steps|));
    }
  }

  /** Up to 5 threads the two points are the same unless a step grows by exactly 5 % before any levels off. */
  lemma FewThreadsPointIff(max: int, gbs: seq<real>)
    requires max <= 5 && |gbs| == |StepList(CANDIDATES, max)| > 0
    ensures ReadingsAgree(StepList(CANDIDATES, max), gbs)
            <==> forall i :: 0 <= i < |gbs| - 1 && Plateau.ExactStep(gbs, i) ==> Plateau.LevelsBefore(gbs, i)
  {
    var steps := StepList(CANDIDATES, max);
    forall k | 0 <= k < |steps| - 1
      ensures steps[k + 1] == steps[k] + 1
    {
      FewThreadsStepByOne(max, k);
    }
    Plateau.SingleThreadStepsIff(steps, gbs);
  }

  /** For any number of threads, the exact measurements for which the two points are the same. */
  lemma DocumentedPointForMeasurements(max: int, gbs: seq<real>)
    requires |gbs| == |StepList(CANDIDATES, max)| > 0
    ensures var steps := StepList(CANDIDATES, max);
      ReadingsAgree(steps, gbs)
      <==> forall i :: 0 <= i < |gbs| - 1 && Plateau.SlowOnlyPerThread(steps, gbs, i) ==> Plateau.LevelsBefore(gbs, i)
  {
    ThreadStepsMeaning(max);
    Plateau.PerThreadPointIff(StepList(CANDIDATES, max), gbs);
  }

  datatype RamResult = RamResult(
    bufferBytes: nat,
    maxThreads: int,
    read: seq<Point>,
    writePlain: seq<Point>,
    writeNt: seq<Point>,
    singleThreadGbs: real,
    saturationThreads: int,
    saturationGbs: real)

  /** None is the length_error of reserving a negative number of buffers. */
  method RunRamBench(bufferBytes: nat, maxThreads: int, duration: nat,
                     read: seq<Execution>, plain: seq<Execution>, nt: seq<Execution>)
    returns (r: Option<RamResult>)
    requires maxThreads >= 0 ==>
      var buffers := seq(maxThreads, _ => AlignUp(bufferBytes));
      SweepRuns(read, buffers, duration) && SweepRuns(plain, buffers, duration) && SweepRuns(nt, buffers, duration)
    ensures r.None? <==> maxThreads < 0
    ensures r.Some? ==>
      var buffers := seq(maxThreads, _ => AlignUp(bufferBytes));
      && r.value.bufferBytes == bufferBytes && r.value.maxThreads == maxThreads
      && PointsOf(r.value.read, read, buffers)
      && PointsOf(r.value.writePlain, plain, buffers)
      && PointsOf(r.value.writeNt, nt, buffers)
      && (maxThreads == 0 ==> r.value.read == [] && r.value.saturationThreads == 0)
      && (maxThreads > 0 ==>
            && r.value.read != []
            && r.value.read[0].threads == 1
            && r.value.singleThreadGbs == r.value.read[0].aggregate
            && var c := Plateau.Chosen(Aggregates(r.value.read), 0);
               && Plateau.Saturates(Aggregates(r.value.read), c)
               && r.value.saturationThreads == r.value.read[c].threads
               && r.value.saturationGbs == r.value.read[c].aggregate)
  {
    if maxThreads < 0 {
      return None;
    }
    var buffers := [];
    for i := 0 to maxThreads
      invariant buffers == seq(i, _ => AlignUp(bufferBytes))
    {
      buffers := buffers + [AlignUp(bufferBytes)];
    }
    var readPoints := Sweep(buffers, duration, read);
    var plainPoints := Sweep(buffers, duration, plain);
    var ntPoints := Sweep(buffers, duration, nt);
    var single := if readPoints != [] then readPoints[0].aggregate else 0.0;
    var threads, gbs := Plateau.FindPlateau(ThreadCounts(readPoints), Aggregates(readPoints));
    FirstStepIsOne(maxThreads);
    SaturationMeaning(readPoints, read, buffers);
    r := Some(RamResult(bufferBytes, maxThreads, readPoints, plainPoints, ntPoints, single, threads, gbs));
  }

  lemma SaturationMeaning(points: seq<Point>, runs: seq<Execution>, buffers: seq<nat>)
    requires PointsOf(points, runs, buffers)
    ensures points != [] ==>
      var gbs := Aggregates(points);
      Plateau.Saturates(gbs, Plateau.Chosen(gbs, 0))
  {
    AggregatesNotNegative(points, runs, buffers);
    if points != [] {
      var gbs := Aggregates(points);
      Plateau.ChosenPointMeaning(gbs, Plateau.Chosen(gbs, 0));
    }
  }

  lemma FirstStepIsOne(max: nat)
    ensures max > 0 ==> StepList(CANDIDATES, max) != [] && StepList(CANDIDATES, max)[0] == 1
    ensures max == 0 ==> StepList(CANDIDATES, max) == []
  {
    ThreadStepsMeaning(max);
    if max > 0 {
      assert CANDIDATES[0] == 1;
      assert 1 in StepList(CANDIDATES, max);
    }
  }
}
