/**
 The saturation search shared by the RAM sweep and the latency bench: the first step
 that buys less than 5 % more bandwidth, with 0 as the "not found" sentinel.
 */
module Plateau {

  /** The test the loop makes: positive, and followed by less than 5 % growth. */
  predicate Levels(gbs: seq<real>, i: nat)
    requires i + 1 < |gbs|
  {
    gbs[i] > 0.0 && (gbs[i + 1] - gbs[i]) / gbs[i] < 0.05
  }

  /** The point the search settles on: the first that levels off, otherwise the last. */
  function Chosen(gbs: seq<real>, from: nat): (c: nat)
    requires from < |gbs|
    ensures from <= c < |gbs|
    ensures forall i :: from <= i < c ==> !Levels(gbs, i)
    ensures c + 1 == |gbs| || Levels(gbs, c)
    decreases |gbs| - from
  {
    if from + 1 == |gbs| || Levels(gbs, from) then from else Chosen(gbs, from + 1)
  }

  /** A chosen step that is itself 0 reads as "not found", and the last point replaces it. */
  function Found(steps: seq<int>, gbs: seq<real>): (c: nat)
    requires |steps| == |gbs| > 0
    ensures c < |gbs|
  {
    if steps[Chosen(gbs, 0)] == 0 then |gbs| - 1 else Chosen(gbs, 0)
  }

  method FindPlateau(steps: seq<int>, gbs: seq<real>) returns (step: int, bandwidth: real)
    requires |steps| == |gbs|
    ensures gbs == [] ==> step == 0 && bandwidth == 0.0
    ensures gbs != [] ==> step == steps[Found(steps, gbs)] && bandwidth == gbs[Found(steps, gbs)]
    ensures gbs != [] && 0 !in steps ==> Found(steps, gbs) == Chosen(gbs, 0)
  {
    step, bandwidth := 0, 0.0;
    var i := 0;
    while i + 1 < |gbs|
      invariant 0 <= i <= |gbs|
      invariant gbs != [] ==> i < |gbs| && Chosen(gbs, 0) == Chosen(gbs, i)
      invariant step == 0 && bandwidth == 0.0
    {
      var a, b := gbs[i], gbs[i + 1];
      if a > 0.0 && (b - a) / a < 0.05 {
        step, bandwidth := steps[i], a;
        break;
      }
      i := i + 1;
    }
    if step == 0 && gbs != [] {
      step, bandwidth := steps[|steps| - 1], gbs[|gbs| - 1];
    }
  }

  function Power(base: real, n: nat): real {
    if n == 0 then 1.0 else base * Power(base, n - 1)
  }

  lemma {:induction false} PowerLaws(base: real, m: nat, n: nat)
    ensures Power(base, 0) == 1.0 && Power(base, 1) == base
    ensures Power(base, m + n) == Power(base, m) * Power(base, n)
  {
    if m != 0 {
      PowerLaws(base, m - 1, n);
    }
  }

  /** Dividing by a positive bandwidth is the same as comparing with 1.05 times it. */
  lemma LevelsMeansLowGrowth(gbs: seq<real>, i: nat)
    requires i + 1 < |gbs|
    ensures Levels(gbs, i) <==> gbs[i] > 0.0 && gbs[i + 1] < 1.05 * gbs[i]
  {
    if gbs[i] > 0.0 {
      var q := (gbs[i + 1] - gbs[i]) / gbs[i];
      assert q * gbs[i] == gbs[i + 1] - gbs[i];
    }
  }

  /** z silent points, then at least 5 % growth per step as far as c. */
  predicate SilentThenGrowing(gbs: seq<real>, z: nat, c: nat)
    requires z <= c < |gbs|
  {
    && (forall i :: 0 <= i < z ==> gbs[i] == 0.0)
    && (forall i :: z <= i < c ==> gbs[i] > 0.0 && gbs[i + 1] >= 1.05 * gbs[i])
  }

  lemma {:induction false} GrowthCompounds(gbs: seq<real>, z: nat, c: nat, m: nat)
    requires z <= c < |gbs| && SilentThenGrowing(gbs, z, c) && m <= c - z
    requires forall i :: 0 <= i < |gbs| ==> gbs[i] >= 0.0
    ensures gbs[c] >= Power(1.05, m) * gbs[c - m]
    ensures Power(1.05, m) >= 1.0
  {
    if m != 0 {
      GrowthCompounds(gbs, z, c, m - 1);
      var p := Power(1.05, m - 1);
      assert p * gbs[c - m + 1] >= p * (1.05 * gbs[c - m]);
    }
  }

  lemma {:induction false} PrefixGrows(gbs: seq<real>, c: nat) returns (z: nat)
    requires c < |gbs| && forall i :: 0 <= i < |gbs| ==> gbs[i] >= 0.0
    requires forall i :: 0 <= i < c ==> !Levels(gbs, i)
    ensures z <= c && SilentThenGrowing(gbs, z, c)
  {
    if c == 0 {
      z := 0;
    } else {
      z := PrefixGrows(gbs, c - 1);
      LevelsMeansLowGrowth(gbs, c - 1);
      assert z < c - 1 ==> gbs[c - 2] > 0.0 && gbs[c - 1] >= 1.05 * gbs[c - 2];
      if gbs[c - 1] == 0.0 {
        z := c;
      }
    }
  }

  /** No point from z to c beats c. */
  lemma {:induction false} GrowthIsBestLast(gbs: seq<real>, z: nat, c: nat, i: nat)
    requires z <= i <= c < |gbs| && SilentThenGrowing(gbs, z, c)
    ensures gbs[i] <= gbs[c]
    decreases c - i
  {
    if i < c {
      GrowthIsBestLast(gbs, z, c, i + 1);
    }
  }

  ghost predicate CompoundedFrom(gbs: seq<real>, c: nat, m: nat)
    requires m <= c < |gbs|
  {
    gbs[c] >= Power(1.05, m) * gbs[c - m]
  }

  /**
   * What a saturation point c is: z silent points, then at least 5 % growth per step up to
   * it, so it is the best point so far and m steps earlier there was at most 1/1.05^m of
   * it; after it growth is below 5 %, or nothing follows.
   */
  ghost predicate SaturatesAfter(gbs: seq<real>, z: nat, c: nat)
    requires c < |gbs|
  {
    && z <= c && SilentThenGrowing(gbs, z, c)
    && (forall i :: 0 <= i <= c ==> gbs[i] <= gbs[c])
    && (forall m :: 0 <= m <= c - z ==> CompoundedFrom(gbs, c, m))
    && (c + 1 == |gbs| || (gbs[c] > 0.0 && gbs[c + 1] < 1.05 * gbs[c]))
  }

  ghost predicate Saturates(gbs: seq<real>, c: nat)
    requires c < |gbs|
  {
    exists z: nat :: SaturatesAfter(gbs, z, c)
  }

  /** For non-negative bandwidths the chosen point is the saturation point, and no other is. */
  lemma ChosenPointMeaning(gbs: seq<real>, c: nat)
    requires c < |gbs| && forall i :: 0 <= i < |gbs| ==> gbs[i] >= 0.0
    ensures Saturates(gbs, c) <==> c == Chosen(gbs, 0)
  {
    var z := ChosenSaturates(gbs);
    if z' :| SaturatesAfter(gbs, z', c) {
      ChosenPointUnique(gbs, z', c);
    }
  }

  lemma ChosenSaturates(gbs: seq<real>) returns (z: nat)
    requires gbs != [] && forall i :: 0 <= i < |gbs| ==> gbs[i] >= 0.0
    ensures SaturatesAfter(gbs, z, Chosen(gbs, 0))
  {
    var c := Chosen(gbs, 0);
    z := PrefixGrows(gbs, c);
    forall m | 0 <= m <= c - z
      ensures CompoundedFrom(gbs, c, m)
    {
      GrowthCompounds(gbs, z, c, m);
    }
    forall i | 0 <= i <= c
      ensures gbs[i] <= gbs[c]
    {
      if z <= i {
        GrowthIsBestLast(gbs, z, c, i);
      }
    }
    if c + 1 < |gbs| {
      LevelsMeansLowGrowth(gbs, c);
    }
  }

  /** No other point has that meaning, so the search result is determined by it. */
  lemma ChosenPointUnique(gbs: seq<real>, z: nat, c: nat)
    requires z <= c < |gbs| && SilentThenGrowing(gbs, z, c)
    requires c + 1 == |gbs| || (gbs[c] > 0.0 && gbs[c + 1] < 1.05 * gbs[c])
    ensures c == Chosen(gbs, 0)
  {
    var d := Chosen(gbs, 0);
    forall i | 0 <= i < |gbs| - 1
      ensures Levels(gbs, i) <==> gbs[i] > 0.0 && gbs[i + 1] < 1.05 * gbs[i]
    {
      LevelsMeansLowGrowth(gbs, i);
    }
  }

  // ----- growth per added thread, as the result's documentation words it

  /** Growth of no more than 5 % for each thread that the next point adds. */
  predicate LevelsPerThread(steps: seq<int>, gbs: seq<real>, i: nat)
    requires i + 1 < |gbs| == |steps|
  {
    gbs[i] > 0.0 && (gbs[i + 1] - gbs[i]) / gbs[i] <= 0.05 * (steps[i + 1] - steps[i]) as real
  }

  /** The first point that levels off in that sense, otherwise the last. */
  function ChosenPerThread(steps: seq<int>, gbs: seq<real>, from: nat): (c: nat)
    requires from < |gbs| == |steps|
    ensures from <= c < |gbs|
    ensures forall i :: from <= i < c ==> !LevelsPerThread(steps, gbs, i)
    ensures c + 1 == |gbs| || LevelsPerThread(steps, gbs, c)
    decreases |gbs| - from
  {
    if from + 1 == |gbs| || LevelsPerThread(steps, gbs, from) then from else ChosenPerThread(steps, gbs, from + 1)
  }

  /** A step that grows by 5 % or more, but by no more than 5 % for each thread it adds. */
  predicate SlowOnlyPerThread(steps: seq<int>, gbs: seq<real>, i: nat)
    requires i + 1 < |gbs| == |steps|
  {
    gbs[i] > 0.0 && 1.05 * gbs[i] <= gbs[i + 1] <= (1.0 + 0.05 * (steps[i + 1] - steps[i]) as real) * gbs[i]
  }

  predicate LevelsBefore(gbs: seq<real>, i: nat)
    requires i < |gbs|
  {
    exists j :: 0 <= j < i && Levels(gbs, j)
  }

  /** The two tests differ exactly at such a step, and only by the one per thread passing. */
  lemma PerThreadTest(steps: seq<int>, gbs: seq<real>, i: nat)
    requires i + 1 < |gbs| == |steps| && steps[i] < steps[i + 1]
    ensures LevelsPerThread(steps, gbs, i) <==> Levels(gbs, i) || SlowOnlyPerThread(steps, gbs, i)
    ensures SlowOnlyPerThread(steps, gbs, i) ==> !Levels(gbs, i)
  {
    LevelsMeansLowGrowth(gbs, i);
    if gbs[i] > 0.0 {
      var growth, limit := (gbs[i + 1] - gbs[i]) / gbs[i], 0.05 * (steps[i + 1] - steps[i]) as real;
      assert growth * gbs[i] == gbs[i + 1] - gbs[i];
      assert growth <= limit <==> growth * gbs[i] <= limit * gbs[i];
      assert (1.0 + limit) * gbs[i] == gbs[i] + limit * gbs[i];
      assert limit >= 0.05;
    }
  }

  predicate Rising(steps: seq<int>) {
    forall i :: 0 <= i < |steps| - 1 ==> steps[i] < steps[i + 1]
  }

  /**
   * The loop compares consecutive points and not added threads. It never stops before the
   * documented point, and it stops there exactly when each step that is slow only per
   * thread has a step that levels off before it.
   */
  lemma PerThreadPointIff(steps: seq<int>, gbs: seq<real>)
    requires |gbs| == |steps| > 0 && Rising(steps)
    ensures ChosenPerThread(steps, gbs, 0) <= Chosen(gbs, 0)
    ensures Chosen(gbs, 0) == ChosenPerThread(steps, gbs, 0)
            <==> forall i :: 0 <= i < |gbs| - 1 && SlowOnlyPerThread(steps, gbs, i) ==> LevelsBefore(gbs, i)
  {
    var c, d := Chosen(gbs, 0), ChosenPerThread(steps, gbs, 0);
    forall i | 0 <= i < |gbs| - 1
      ensures LevelsPerThread(steps, gbs, i) <==> Levels(gbs, i) || SlowOnlyPerThread(steps, gbs, i)
      ensures SlowOnlyPerThread(steps, gbs, i) ==> !Levels(gbs, i)
    {
      PerThreadTest(steps, gbs, i);
    }
    if d < c {
      assert SlowOnlyPerThread(steps, gbs, d) && !LevelsBefore(gbs, d);
    }
  }

  /** A step of exactly 5 % growth: the documentation counts it as stopped, the loop goes on. */
  predicate ExactStep(gbs: seq<real>, i: nat)
    requires i + 1 < |gbs|
  {
    gbs[i] > 0.0 && gbs[i + 1] == 1.05 * gbs[i]
  }

  /** Where every step adds a single thread, only a step of exactly 5 % can tell the two apart. */
  lemma SingleThreadStepsIff(steps: seq<int>, gbs: seq<real>)
    requires |gbs| == |steps| > 0 && forall i :: 0 <= i < |steps| - 1 ==> steps[i + 1] == steps[i] + 1
    ensures Chosen(gbs, 0) == ChosenPerThread(steps, gbs, 0)
            <==> forall i :: 0 <= i < |gbs| - 1 && ExactStep(gbs, i) ==> LevelsBefore(gbs, i)
  {
    PerThreadPointIff(steps, gbs);
    forall i | 0 <= i < |gbs| - 1
      ensures SlowOnlyPerThread(steps, gbs, i) <==> ExactStep(gbs, i)
    {
      assert (1.0 + 0.05 * (steps[i + 1] - steps[i]) as real) == 1.05;
    }
  }
}
