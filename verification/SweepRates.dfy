/**
 What main reports of a completed sweep step: the bytes of all workers over its own wall
 time, against the rates that the workers saw themselves.
 */
module SweepRates {
  import opened Arith
  import opened Clock
  import opened SweepProtocol

  function TotalWork(c: Config, s: State, n: nat): nat
    requires n <= |c.bytes| == |s.workers|
  {
    if n == 0 then 0 else TotalWork(c, s, n - 1) + Work(c, s, n - 1)
  }

  /** The unsigned sum of the slots that main takes after the joins. */
  function SlotSum(slots: seq<nat>): nat {
    if slots == [] then 0 else (SlotSum(slots[..|slots| - 1]) + slots[|slots| - 1]) % UINT64
  }

  lemma {:induction false} SlotSumIsTotal(c: Config, s: State, n: nat)
    requires n <= |c.bytes| == |s.workers| == |s.slots|
    requires forall i :: 0 <= i < n ==> s.slots[i] == Work(c, s, i) % UINT64
    ensures SlotSum(s.slots[..n]) == TotalWork(c, s, n) % UINT64
  {
    if n != 0 {
      SlotSumIsTotal(c, s, n - 1);
      assert s.slots[..n][..n - 1] == s.slots[..n - 1];
      var t, w := TotalWork(c, s, n - 1), Work(c, s, n - 1);
      ModAddBoth(t, w, UINT64);
    }
  }

  lemma FinalSlots(c: Config, s: State)
    requires Inv(c, s) && s.main.Done?
    ensures SlotSum(s.slots) == TotalWork(c, s, |c.bytes|) % UINT64
  {
    forall i | 0 <= i < |c.bytes|
      ensures s.slots[i] == Work(c, s, i) % UINT64
    {
      assert WorkerOk(c, s, i);
    }
    SlotSumIsTotal(c, s, |c.bytes|);
    assert s.slots[..|c.bytes|] == s.slots;
  }

  /** Whatever the schedule, main's total is the work of all workers, modulo 2^64. */
  lemma TotalIsAllWork(c: Config, actions: seq<Action>, s: State)
    requires Run(c, actions, s) && s.main.Done?
    ensures |s.workers| == |c.bytes|
    ensures SlotSum(s.slots) == TotalWork(c, s, |c.bytes|) % UINT64
  {
    RunKeepsInv(c, actions, s);
    FinalSlots(c, s);
  }

  /** The bytes that each worker moved. */
  function Works(c: Config, s: State): seq<nat>
    requires |s.workers| == |c.bytes|
  {
    seq(|c.bytes|, i requires 0 <= i < |c.bytes| => s.workers[i].passes * c.bytes[i])
  }

  lemma {:induction false} TotalWorkIsSum(c: Config, s: State, n: nat)
    requires n <= |c.bytes| == |s.workers|
    ensures TotalWork(c, s, n) == Sum(Works(c, s)[..n])
  {
    if n != 0 {
      TotalWorkIsSum(c, s, n - 1);
      assert Works(c, s)[..n][..n - 1] == Works(c, s)[..n - 1];
      assert Works(c, s)[..n][n - 1] == Work(c, s, n - 1);
    }
  }

  /** The reported rate: main's total over its own wall time. */
  function WallRate(s: State): real
    requires s.wallStart <= s.wallEnd
  {
    Rate(SlotSum(s.slots), s.wallEnd - s.wallStart)
  }

  /**
   * What a completed run reports: the bytes of all workers, modulo 2^64, over the time
   * between main's two clock readings.
   */
  lemma WallRateMeaning(c: Config, actions: seq<Action>, s: State)
    requires Run(c, actions, s) && s.main.Done?
    ensures |s.workers| == |c.bytes|
    ensures s.wallStart == TimeOf(actions, ReadWallStart) <= s.wallEnd == TimeOf(actions, ReadWallEnd)
    ensures WallRate(s) == if s.wallEnd == s.wallStart then 0.0
                           else (Sum(Works(c, s)) % UINT64) as real / (s.wallEnd - s.wallStart) as real
  {
    RunKeepsInv(c, actions, s);
    WallReadings(c, actions, s);
    TotalIsAllWork(c, actions, s);
    FinalRate(c, s);
  }

  lemma FinalRate(c: Config, s: State)
    requires |s.workers| == |c.bytes| && s.wallStart <= s.wallEnd
    requires SlotSum(s.slots) == TotalWork(c, s, |c.bytes|) % UINT64
    ensures WallRate(s) == if s.wallEnd == s.wallStart then 0.0
                           else (Sum(Works(c, s)) % UINT64) as real / (s.wallEnd - s.wallStart) as real
  {
    TotalWorkIsSum(c, s, |c.bytes|);
    assert Works(c, s)[..|c.bytes|] == Works(c, s);
    RateIsQuotient(SlotSum(s.slots), s.wallEnd - s.wallStart);
  }

  /** The sum of the rates the first n workers saw over their own intervals. */
  function OwnRates(c: Config, s: State, n: nat): real
    requires n <= |c.bytes| == |s.workers|
    requires forall i :: 0 <= i < n ==> s.workers[i].start <= s.workers[i].end
  {
    if n == 0 then 0.0 else
      OwnRates(c, s, n - 1) + Rate(Work(c, s, n - 1), s.workers[n - 1].end - s.workers[n - 1].start)
  }

  /** Each is the worker's passes times its bytes over its own time. */
  lemma {:induction false} OwnRatesMeaning(c: Config, s: State, n: nat, rates: seq<real>)
    requires n == |rates| <= |c.bytes| == |s.workers|
    requires forall i :: 0 <= i < n ==> s.workers[i].start <= s.workers[i].end
    requires forall i :: 0 <= i < n ==>
      var ns := s.workers[i].end - s.workers[i].start;
      rates[i] == if ns == 0 then 0.0 else (s.workers[i].passes * c.bytes[i]) as real / ns as real
    ensures OwnRates(c, s, n) == SumReals(rates)
  {
    if n != 0 {
      OwnRatesMeaning(c, s, n - 1, rates[..n - 1]);
      RateIsQuotient(Work(c, s, n - 1), s.workers[n - 1].end - s.workers[n - 1].start);
    }
  }

  /** The worker's own rate accounts for its work: no work was done in an interval of no length. */
  predicate Accounted(c: Config, s: State, i: nat)
    requires i < |c.bytes| == |s.workers|
  {
    Work(c, s, i) == 0 || s.workers[i].start < s.workers[i].end
  }

  lemma WorkOverWall(work: nat, own: nat, wall: nat)
    requires own <= wall && 0 < wall && (work == 0 || 0 < own)
    ensures work as real / wall as real <= Rate(work, own)
  {
    RateIsQuotient(work, own);
    if work != 0 {
      QuotientFalls(work as real, own as real, wall as real);
    }
  }

  lemma {:induction false} WallRateBelowOwnRates(c: Config, s: State, n: nat, wall: nat)
    requires n <= |c.bytes| == |s.workers| && 0 < wall
    requires forall i :: 0 <= i < n ==> 0 <= s.workers[i].end - s.workers[i].start <= wall && Accounted(c, s, i)
    ensures TotalWork(c, s, n) as real / wall as real <= OwnRates(c, s, n)
  {
    if n != 0 {
      WallRateBelowOwnRates(c, s, n - 1, wall);
      var last, work := s.workers[n - 1], Work(c, s, n - 1);
      assert Accounted(c, s, n - 1);
      WorkOverWall(work, last.end - last.start, wall);
      SumOfQuotients(TotalWork(c, s, n - 1) as real, work as real, wall as real);
    }
  }

  lemma {:induction false} OwnRatesNotNegative(c: Config, s: State, n: nat)
    requires n <= |c.bytes| == |s.workers|
    requires forall i :: 0 <= i < n ==> s.workers[i].start <= s.workers[i].end
    ensures OwnRates(c, s, n) >= 0.0
  {
    if n != 0 {
      OwnRatesNotNegative(c, s, n - 1);
      RateIsQuotient(Work(c, s, n - 1), s.workers[n - 1].end - s.workers[n - 1].start);
    }
  }

  /** All clock intervals are proper, and each worker's is no longer than main's. */
  predicate IntervalsFit(c: Config, s: State) {
    && |s.workers| == |c.bytes| && s.wallStart <= s.wallEnd
    && forall i :: 0 <= i < |s.workers| ==>
         s.workers[i].start <= s.workers[i].end <= s.workers[i].start + (s.wallEnd - s.wallStart)
  }

  lemma FinalIntervalsFit(c: Config, s: State)
    requires Inv(c, s) && s.main.Done?
    ensures IntervalsFit(c, s)
  {
    forall i: nat | i < |s.workers|
      ensures s.workers[i].start <= s.workers[i].end <= s.workers[i].start + (s.wallEnd - s.wallStart)
    {
      assert WorkerOk(c, s, i);
    }
  }

  /** What is reported is at most the sum of the workers' own rates. */
  ghost predicate NoOverclaim(c: Config, s: State) {
    IntervalsFit(c, s) && WallRate(s) <= OwnRates(c, s, |c.bytes|)
  }

  lemma FinalNoOverclaim(c: Config, s: State)
    requires Inv(c, s) && s.main.Done? && forall i :: 0 <= i < |c.bytes| ==> Accounted(c, s, i)
    ensures NoOverclaim(c, s)
  {
    FinalIntervalsFit(c, s);
    FinalSlots(c, s);
    var total, wall := TotalWork(c, s, |c.bytes|), s.wallEnd - s.wallStart;
    ModAtMost(total, UINT64);
    RateIsQuotient(SlotSum(s.slots), wall);
    if wall == 0 {
      OwnRatesNotNegative(c, s, |c.bytes|);
    } else {
      WallRateBelowOwnRates(c, s, |c.bytes|, wall);
      QuotientMonotone(SlotSum(s.slots) as real, total as real, wall as real);
    }
  }

  /**
   * The reported rate never exceeds the sum of the workers' own rates, provided these
   * account for all the work; with a duration above 0 they always do.
   */
  lemma AggregateIsNoOverclaim(c: Config, actions: seq<Action>, s: State)
    requires Run(c, actions, s) && s.main.Done?
    ensures |s.workers| == |c.bytes|
    ensures (forall i :: 0 <= i < |c.bytes| ==> Accounted(c, s, i)) ==> NoOverclaim(c, s)
    ensures c.duration > 0 ==> NoOverclaim(c, s)
  {
    RunKeepsInv(c, actions, s);
    if c.duration > 0 {
      forall i | 0 <= i < |c.bytes|
        ensures Accounted(c, s, i)
      {
        IntervalsNest(c, actions, s, i);
      }
    }
    if forall i :: 0 <= i < |c.bytes| ==> Accounted(c, s, i) {
      FinalNoOverclaim(c, s);
    }
  }

  // ----- a duration of 0

  predicate Passed(pc: WorkerPc) {
    pc.Testing? || pc.Storing? || pc.Exited?
  }

  /** With no time to run, every kernel makes a single pass. */
  ghost predicate OnePass(s: State) {
    forall i :: 0 <= i < |s.workers| ==> s.workers[i].passes == if Passed(s.workers[i].pc) then 1 else 0
  }

  lemma StepKeepsOnePass(c: Config, s: State, a: Action)
    requires c.duration == 0 && Inv(c, s) && OnePass(s) && Enabled(c, s, a)
    ensures OnePass(Next(c, s, a))
  {
    if a.Test? {
      assert WorkerOk(c, s, a.i);
    } else if a.Spawn? {
      assert WorkerOk(c, s, s.spawned);
    }
  }

  lemma {:induction false} RunKeepsOnePass(c: Config, actions: seq<Action>, s: State)
    requires c.duration == 0 && Run(c, actions, s)
    ensures OnePass(s)
  {
    if actions != [] {
      var last := |actions| - 1;
      var before :| Run(c, actions[..last], before)
                    && Enabled(c, before, actions[last]) && s == Next(c, before, actions[last]);
      RunKeepsInv(c, actions[..last], before);
      RunKeepsOnePass(c, actions[..last], before);
      StepKeepsOnePass(c, before, actions[last]);
    }
  }

  lemma {:induction false} SlotSumOfResidues(a: seq<nat>, b: seq<nat>)
    requires |a| == |b| && forall i :: 0 <= i < |a| ==> a[i] == b[i] % UINT64
    ensures SlotSum(a) == SlotSum(b)
  {
    if a != [] {
      var last := |a| - 1;
      SlotSumOfResidues(a[..last], b[..last]);
      ModAdd(b[last], SlotSum(a[..last]), UINT64);
    }
  }

  lemma ZeroDurationTotal(c: Config, actions: seq<Action>, s: State)
    requires c.duration == 0 && Run(c, actions, s) && s.main.Done?
    ensures SlotSum(s.slots) == SlotSum(c.bytes)
  {
    RunKeepsInv(c, actions, s);
    RunKeepsOnePass(c, actions, s);
    forall i | 0 <= i < |s.slots|
      ensures s.slots[i] == c.bytes[i] % UINT64
    {
      assert WorkerOk(c, s, i);
    }
    SlotSumOfResidues(s.slots, c.bytes);
  }

  /** n workers have been spawned, and nothing else has happened. */
  function Spawned(c: Config, n: nat): State {
    Initial(c).(spawned := n,
                workers := seq(|c.bytes|, i => Worker(if i < n then Spinning else Unspawned, 0, 0, 0)))
  }

  lemma {:induction false} SpawnMany(c: Config, n: nat) returns (actions: seq<Action>)
    requires n <= |c.bytes|
    ensures Run(c, actions, Spawned(c, n))
  {
    if n == 0 {
      actions := [];
      assert Spawned(c, 0) == Initial(c);
    } else {
      var before := SpawnMany(c, n - 1);
      Extend(c, before, Spawned(c, n - 1), Spawn);
      assert Next(c, Spawned(c, n - 1), Spawn).workers == Spawned(c, n).workers;
      actions := before + [Spawn];
    }
  }

  predicate LateWorker(w: Worker) {
    (Timed(w.pc) ==> w.start == 1) && (Finished(w.pc) ==> w.end == 1)
  }

  /** Time passed only between main's reading of the clock and the release. */
  ghost predicate LateRelease(s: State) {
    && s.now == 1 && s.wallStart == 0 && !s.main.Spawning?
    && (s.main.Done? ==> s.wallEnd == 1)
    && forall i :: 0 <= i < |s.workers| ==> LateWorker(s.workers[i])
  }

  lemma {:induction false} FinishLate(c: Config, actions: seq<Action>, s: State)
    returns (more: seq<Action>, final: State)
    requires c.duration == 0 && Run(c, actions, s) && LateRelease(s)
    ensures Run(c, actions + more, final) && final.main.Done? && LateRelease(final)
    decreases Distance(s)
  {
    if s.main.Done? {
      more, final := [], s;
      assert actions + [] == actions;
    } else {
      NoDeadlock(c, actions, s);
      RunKeepsInv(c, actions, s);
      var a := Move(s);
      var s' := Next(c, s, a);
      StepKeepsInv(c, s, a);
      Extend(c, actions, s, a);
      StepKeepsLate(c, s, a);
      DistanceDrops(c, s, s', a);
      var rest, end := FinishLate(c, actions + [a], s');
      more, final := [a] + rest, end;
      Regroup(actions, [a], rest);
    }
  }

  lemma StepKeepsLate(c: Config, s: State, a: Action)
    requires c.duration == 0 && Inv(c, s) && LateRelease(s) && Enabled(c, s, a) && !a.Tick?
    ensures LateRelease(Next(c, s, a))
    ensures a.Test? ==>
      var w := Next(c, s, a).workers[a.i];
      w.pc.Storing? && Next(c, s, a) == With(s, a.i, w)
  {
    if a.Test? {
      assert WorkerOk(c, s, a.i) && LateWorker(s.workers[a.i]);
    }
  }

  /** A run in which every worker is released, makes its pass and exits in the same nanosecond. */
  lemma LateRun(c: Config) returns (actions: seq<Action>, s: State)
    requires c.duration == 0
    ensures Run(c, actions, s) && s.main.Done? && LateRelease(s)
  {
    var n := |c.bytes|;
    var start := SpawnMany(c, n);
    var s0 := Spawned(c, n);
    Extend(c, start, s0, ReadWallStart);
    var s1 := Next(c, s0, ReadWallStart);
    Extend(c, start + [ReadWallStart], s1, Tick(1));
    var s2 := Next(c, s1, Tick(1));
    var more, final := FinishLate(c, start + [ReadWallStart] + [Tick(1)], s2);
    actions, s := start + [ReadWallStart] + [Tick(1)] + more, final;
  }

  lemma {:induction false} LateRatesAreZero(c: Config, s: State, n: nat)
    requires n <= |c.bytes| == |s.workers|
    requires forall i :: 0 <= i < n ==> s.workers[i].start == s.workers[i].end
    ensures OwnRates(c, s, n) == 0.0
  {
    if n != 0 {
      LateRatesAreZero(c, s, n - 1);
    }
  }

  lemma LateStateOverclaims(c: Config, s: State)
    requires Inv(c, s) && s.main.Done? && LateRelease(s) && SlotSum(s.slots) > 0
    ensures !NoOverclaim(c, s)
  {
    forall i | 0 <= i < |s.workers|
      ensures s.workers[i].start == s.workers[i].end
    {
      assert WorkerOk(c, s, i) && LateWorker(s.workers[i]);
    }
    LateRatesAreZero(c, s, |c.bytes|);
    RateIsQuotient(SlotSum(s.slots), 1);
    assert WallRate(s) == SlotSum(s.slots) as real / 1.0;
  }

  lemma LateRunOverclaims(c: Config) returns (actions: seq<Action>, s: State)
    requires c.duration == 0 && SlotSum(c.bytes) > 0
    ensures Run(c, actions, s) && s.main.Done? && !NoOverclaim(c, s)
  {
    actions, s := LateRun(c);
    ZeroDurationTotal(c, actions, s);
    RunKeepsInv(c, actions, s);
    LateStateOverclaims(c, s);
  }

  lemma CompletedNoOverclaim(c: Config, actions: seq<Action>, s: State)
    requires Run(c, actions, s) && s.main.Done? && (c.duration > 0 || SlotSum(c.bytes) == 0)
    ensures NoOverclaim(c, s)
  {
    if c.duration > 0 {
      AggregateIsNoOverclaim(c, actions, s);
    } else {
      ZeroDurationTotal(c, actions, s);
      RunKeepsInv(c, actions, s);
      ZeroTotalNoOverclaim(c, s);
    }
  }

  lemma ZeroTotalNoOverclaim(c: Config, s: State)
    requires Inv(c, s) && s.main.Done? && SlotSum(s.slots) == 0
    ensures NoOverclaim(c, s)
  {
    FinalIntervalsFit(c, s);
    OwnRatesNotNegative(c, s, |c.bytes|);
    RateIsQuotient(0, s.wallEnd - s.wallStart);
  }

  /**
   * No schedule makes the sweep claim more than its workers saw exactly when the duration
   * is above 0; with a duration of 0 only a total of 0 bytes keeps it from doing so.
   */
  lemma NoOverclaimIff(c: Config)
    ensures (forall actions, s :: Run(c, actions, s) && s.main.Done? ==> NoOverclaim(c, s))
            <==> c.duration > 0 || SlotSum(c.bytes) == 0
  {
    if c.duration == 0 && SlotSum(c.bytes) > 0 {
      var actions, s := LateRunOverclaims(c);
      assert Run(c, actions, s) && s.main.Done? && !NoOverclaim(c, s);
    } else {
      forall actions, s | Run(c, actions, s) && s.main.Done?
        ensures NoOverclaim(c, s)
      {
        CompletedNoOverclaim(c, actions, s);
      }
    }
  }
}
