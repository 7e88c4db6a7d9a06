/**
 The INT8 dot-product bench of compute_bench.cpp: eight accumulators of sixteen 32-bit
 lanes, each lane adding four byte products at a time, wrapping at 32 bits.
 */
module Compute {
  import opened Arith
  import opened Clock

  const INT32 := 0x1_0000_0000
  const VECTOR := 64

  /** What a 32-bit lane keeps of an integer. */
  function Wrap32(x: int): (r: int)
    ensures -0x8000_0000 <= r < 0x8000_0000
    ensures Same32(r, x)
  {
    (x + 0x8000_0000) % INT32 - 0x8000_0000
  }

  predicate Same32(x: int, y: int) {
    (x - y) % INT32 == 0
  }

  lemma Same32Add(x: int, y: int, u: int, v: int)
    requires Same32(x, y) && Same32(u, v)
    ensures Same32(x + u, y + v)
  {
  }

  /** The dot product of the first n bytes. */
  function Dot(a: seq<nat>, b: seq<int>, n: nat): int
    requires n <= |a| == |b|
  {
    if n == 0 then 0 else Dot(a, b, n - 1) + a[n - 1] * b[n - 1]
  }

  lemma {:induction false} DotSplit(a: seq<nat>, b: seq<int>, s: nat, n: nat)
    requires s + n <= |a| == |b|
    ensures Dot(a, b, s + n) == Dot(a, b, s) + Dot(a[s..s + n], b[s..s + n], n)
  {
    if n != 0 {
      DotSplit(a, b, s, n - 1);
      DotOfPrefix(a[s..s + n], b[s..s + n], a[s..s + n - 1], b[s..s + n - 1], n - 1);
    }
  }

  lemma {:induction false} DotOfPrefix(a: seq<nat>, b: seq<int>, c: seq<nat>, d: seq<int>, n: nat)
    requires n <= |a| == |b| && n <= |c| == |d|
    requires forall i :: 0 <= i < n ==> a[i] == c[i] && b[i] == d[i]
    ensures Dot(a, b, n) == Dot(c, d, n)
  {
    if n != 0 {
      DotOfPrefix(a, b, c, d, n - 1);
    }
  }

  /** The four products that lane k adds. */
  function Quad(va: seq<nat>, vb: seq<int>, k: nat): int
    requires |va| == |vb| == VECTOR && k < 16
  {
    va[4 * k] * vb[4 * k] + va[4 * k + 1] * vb[4 * k + 1]
    + va[4 * k + 2] * vb[4 * k + 2] + va[4 * k + 3] * vb[4 * k + 3]
  }

  /** The dpbusd instruction on sixteen lanes. */
  function Dpbusd(acc: seq<int>, va: seq<nat>, vb: seq<int>): (r: seq<int>)
    requires |acc| == 16 && |va| == |vb| == VECTOR
    ensures |r| == 16
  {
    seq(16, k requires 0 <= k < 16 => Wrap32(acc[k] + Quad(va, vb, k)))
  }

  function LaneSum(acc: seq<int>, n: nat): int
    requires n <= |acc|
  {
    if n == 0 then 0 else LaneSum(acc, n - 1) + acc[n - 1]
  }

  lemma {:induction false} DpbusdAddsDot(acc: seq<int>, va: seq<nat>, vb: seq<int>, n: nat)
    requires |acc| == 16 && |va| == |vb| == VECTOR && n <= 16
    ensures Same32(LaneSum(Dpbusd(acc, va, vb), n), LaneSum(acc, n) + Dot(va, vb, 4 * n))
  {
    if n != 0 {
      DpbusdAddsDot(acc, va, vb, n - 1);
      QuadIsDot(va, vb, n - 1);
      Same32Add(LaneSum(Dpbusd(acc, va, vb), n - 1), LaneSum(acc, n - 1) + Dot(va, vb, 4 * (n - 1)),
                Dpbusd(acc, va, vb)[n - 1], acc[n - 1] + Quad(va, vb, n - 1));
    }
  }

  lemma QuadIsDot(va: seq<nat>, vb: seq<int>, k: nat)
    requires |va| == |vb| == VECTOR && k < 16
    ensures Dot(va, vb, 4 * k + 4) == Dot(va, vb, 4 * k) + Quad(va, vb, k)
  {
    assert Dot(va, vb, 4 * k + 1) == Dot(va, vb, 4 * k) + va[4 * k] * vb[4 * k];
    assert Dot(va, vb, 4 * k + 2) == Dot(va, vb, 4 * k + 1) + va[4 * k + 1] * vb[4 * k + 1];
    assert Dot(va, vb, 4 * k + 3) == Dot(va, vb, 4 * k + 2) + va[4 * k + 2] * vb[4 * k + 2];
  }

  // ----- eight accumulators

  predicate Lanes(accs: seq<seq<int>>) {
    forall j :: 0 <= j < |accs| ==> |accs[j]| == 16
  }

  function Total(accs: seq<seq<int>>): int
    requires Lanes(accs)
  {
    if accs == [] then 0 else Total(accs[..|accs| - 1]) + LaneSum(accs[|accs| - 1], 16)
  }

  lemma {:induction false} TotalChange(accs: seq<seq<int>>, j: nat, acc: seq<int>)
    requires Lanes(accs) && j < |accs| && |acc| == 16
    ensures Lanes(accs[j := acc])
    ensures Total(accs[j := acc]) == Total(accs) - LaneSum(accs[j], 16) + LaneSum(acc, 16)
  {
    var last := |accs| - 1;
    if j == last {
      assert accs[j := acc][..last] == accs[..last];
    } else {
      assert accs[j := acc][..last] == accs[..last][j := acc];
      TotalChange(accs[..last], j, acc);
    }
  }

  lemma {:induction false} ZeroTotal(accs: seq<seq<int>>)
    requires forall j :: 0 <= j < |accs| ==> accs[j] == seq(16, _ => 0)
    ensures Lanes(accs) && Total(accs) == 0
  {
    if accs != [] {
      ZeroTotal(accs[..|accs| - 1]);
      ZeroLanes(16);
    }
  }

  lemma {:induction false} ZeroLanes(n: nat)
    requires n <= 16
    ensures LaneSum(seq(16, _ => 0), n) == 0
  {
    if n != 0 {
      ZeroLanes(n - 1);
    }
  }

  /** One vector step: accumulator j takes in the 64 bytes from at on. */
  lemma VectorStep(accs: seq<seq<int>>, j: nat, a: seq<nat>, b: seq<int>, at: nat, base: int)
    requires Lanes(accs) && j < |accs| && at + VECTOR <= |a| == |b|
    requires Same32(Total(accs), base + Dot(a, b, at))
    ensures var acc := Dpbusd(accs[j], a[at..at + VECTOR], b[at..at + VECTOR]);
      Lanes(accs[j := acc]) && Same32(Total(accs[j := acc]), base + Dot(a, b, at + VECTOR))
  {
    var va, vb := a[at..at + VECTOR], b[at..at + VECTOR];
    var acc := Dpbusd(accs[j], va, vb);
    TotalChange(accs, j, acc);
    DpbusdAddsDot(accs[j], va, vb, 16);
    DotSplit(a, b, at, VECTOR);
    Same32Add(Total(accs), base + Dot(a, b, at),
              LaneSum(acc, 16) - LaneSum(accs[j], 16), Dot(va, vb, VECTOR));
  }

  lemma WholeVectors(n: nat)
    requires n % (8 * VECTOR) == 0
    ensures n / VECTOR * VECTOR == n && n / VECTOR % 8 == 0
  {
  }

  /** Vectors i .. i+7 go to the accumulators 0 .. 7. */
  method Group(acc: array<seq<int>>, a: seq<nat>, b: seq<int>, i: nat, ghost base: int)
    requires acc.Length == 8 && Lanes(acc[..]) && |a| == |b| && (i + 8) * VECTOR <= |a|
    requires Same32(Total(acc[..]), base + Dot(a, b, i * VECTOR))
    modifies acc
    ensures Lanes(acc[..]) && Same32(Total(acc[..]), base + Dot(a, b, (i + 8) * VECTOR))
  {
    for j := 0 to 8
      invariant Lanes(acc[..]) && Same32(Total(acc[..]), base + Dot(a, b, (i + j) * VECTOR))
    {
      var at := (i + j) * VECTOR;
      ghost var before := acc[..];
      VectorStep(before, j, a, b, at, base);
      acc[j] := Dpbusd(acc[j], a[at..at + VECTOR], b[at..at + VECTOR]);
      assert acc[..] == before[j := acc[j]];
    }
  }

  /** One pass takes every vector once. */
  method Pass(acc: array<seq<int>>, a: seq<nat>, b: seq<int>, ghost base: int)
    requires acc.Length == 8 && Lanes(acc[..]) && |a| == |b| && |a| % (8 * VECTOR) == 0
    requires Same32(Total(acc[..]), base)
    modifies acc
    ensures Lanes(acc[..]) && Same32(Total(acc[..]), base + Dot(a, b, |a|))
  {
    var vecs := |a| / VECTOR;
    WholeVectors(|a|);
    var i := 0;
    while i < vecs
      invariant 0 <= i <= vecs && i % 8 == 0
      invariant Lanes(acc[..]) && Same32(Total(acc[..]), base + Dot(a, b, i * VECTOR))
    {
      Group(acc, a, b, i, base);
      i := i + 8;
    }
  }

  /** Passes until the time is up. */
  method RunPasses(acc: array<seq<int>>, a: seq<nat>, b: seq<int>, timer: Timer) returns (passes: nat)
    requires acc.Length == 8 && Lanes(acc[..]) && Total(acc[..]) == 0
    requires |a| == |b| && |a| % (8 * VECTOR) == 0 && timer.Valid()
    modifies acc
    ensures passes == |timer.tests|
    ensures Lanes(acc[..]) && Same32(Total(acc[..]), passes * Dot(a, b, |a|))
  {
    ghost var dot := Dot(a, b, |a|);
    passes := 0;
    while true
      invariant 0 <= passes < |timer.tests|
      invariant Lanes(acc[..]) && Same32(Total(acc[..]), passes * dot)
      decreases |timer.tests| - passes
    {
      Pass(acc, a, b, passes * dot);
      OneMore(dot, passes);
      passes := passes + 1;
      if !timer.Continue(passes - 1) {
        break;
      }
    }
  }

  /** The timed bench: sum of all lanes at the end, and the operations it claims. */
  method MeasureInt8Vnni(a: seq<nat>, b: seq<int>, timer: Timer) returns (sum: int, ops: nat, gops: real)
    requires |a| == |b| && |a| % (8 * VECTOR) == 0 && timer.Valid()
    ensures (sum - |timer.tests| * Dot(a, b, |a|)) % 0x1_0000_0000 == 0
    ensures ops == 2 * |a| * |timer.tests|
    ensures gops == if timer.end == timer.start then 0.0
                    else (2 * |a| * |timer.tests|) as real / (timer.end - timer.start) as real
  {
    var acc := new seq<int>[8](_ => seq(16, _ => 0));
    ZeroTotal(acc[..]);
    var passes := RunPasses(acc, a, b, timer);
    sum := AddLanes(acc[..]);
    ops := passes * (|a| / VECTOR) * 128;
    OpsPerPass(|a|, passes);
    gops := Rate(ops, timer.end - timer.start);
    RateIsQuotient(ops, timer.end - timer.start);
  }

  lemma OpsPerPass(n: nat, passes: nat)
    requires n % (8 * VECTOR) == 0
    ensures passes * (n / VECTOR) * 128 == 2 * n * passes
  {
    assert n / VECTOR * 128 == 2 * n;
    assert passes * (n / VECTOR) * 128 == passes * (n / VECTOR * 128);
  }

  method AddLanes(accs: seq<seq<int>>) returns (sum: int)
    requires Lanes(accs)
    ensures sum == Total(accs)
  {
    sum := 0;
    for j := 0 to |accs|
      invariant Lanes(accs[..j]) && sum == Total(accs[..j])
    {
      ghost var before := sum;
      for k := 0 to 16
        invariant sum == before + LaneSum(accs[j], k)
      {
        sum := sum + accs[j][k];
      }
      assert accs[..j + 1][..j] == accs[..j];
    }
    assert accs[..|accs|] == accs;
  }
}
