/**
 The whole latency bench: which stream counts are tried, where the bandwidth levels off,
 and how many requests Little's Law then puts in flight.
 */
module LatencyBench {
  import opened Arith
  import opened Cycles
  import opened Chase
  import opened Wiring
  import opened Clock
  import opened Latency
  import Plateau

  const CANDIDATES: seq<nat> := [1, 2, 4, 8, 16, 32, 64, 128]

  datatype LatencyResult = LatencyResult(
    footprintBytes: nat,
    chainNs: real,
    streams: seq<nat>,
    gbs: seq<real>,
    plateauStreams: int,
    plateauGbs: real,
    impliedOutstanding: real)

  /** How many of the candidates the loop tries before a break. */
  function Tried(maxStreams: int, count: nat, from: nat): (n: nat)
    requires from <= |CANDIDATES|
    ensures from <= n <= |CANDIDATES|
    decreases |CANDIDATES| - from
  {
    if from == |CANDIDATES| || CANDIDATES[from] > maxStreams || CANDIDATES[from] > count then from
    else Tried(maxStreams, count, from + 1)
  }

  /** Stopping at the first misfit loses nothing: exactly the fitting candidates are tried. */
  lemma {:induction false} TriedAreTheFittingOnes(maxStreams: int, count: nat, from: nat)
    requires from <= |CANDIDATES|
    ensures forall i :: from <= i < |CANDIDATES| ==>
              (i < Tried(maxStreams, count, from) <==> CANDIDATES[i] <= maxStreams && CANDIDATES[i] <= count)
    decreases |CANDIDATES| - from
  {
    if from < |CANDIDATES| {
      TriedAreTheFittingOnes(maxStreams, count, from + 1);
    }
  }

  /**
   * Little's Law: the line size and the unit factors cancel, leaving the hops per
   * nanosecond of the streams over the hops per nanosecond of the dependent chain.
   */
  lemma LittlesLaw(hops: nat, ns: nat, chainHops: nat, chainNs: nat)
    requires ns > 0 && chainHops > 0 && chainNs > 0
    ensures (64 * hops) as real / ns as real * (chainNs as real / chainHops as real) / 64.0
            == (hops as real / ns as real) / (chainHops as real / chainNs as real)
  {
    var h, n, ch, cn := hops as real, ns as real, chainHops as real, chainNs as real;
    var latency := cn / ch;
    assert (64 * hops) as real == 64.0 * h;
    assert latency > 0.0 by { QuotientPositive(cn, ch); }
    assert ch / cn > 0.0 by { QuotientPositive(ch, cn); }
    assert (64.0 * h) / n == 64.0 * (h / n) by { ScaledQuotient(64.0, h, n); }
    assert latency * (ch / cn) == 1.0 by { ReciprocalProduct(cn, ch); }
    TimesReciprocal(h / n, latency, ch / cn);
    assert 64.0 * (h / n) * latency / 64.0 == (h / n) * latency by { CancelLine(h / n, latency); }
  }

  lemma EstimateIsHopRatio(gbs: real, latency: real, hops: nat, ns: nat, chainHops: nat, chainNs: nat)
    requires chainHops > 0 && latency == chainNs as real / chainHops as real
    requires gbs == if ns == 0 then 0.0 else (64 * hops) as real / ns as real
    ensures (if latency > 0.0 then gbs * latency / 64.0 else 0.0)
            == if ns == 0 || chainNs == 0 then 0.0
               else (hops as real / ns as real) / (chainHops as real / chainNs as real)
  {
    if chainNs == 0 {
      assert latency == 0.0;
    } else {
      QuotientPositive(chainNs as real, chainHops as real);
      if ns != 0 {
        LittlesLaw(hops, ns, chainHops, chainNs);
      }
    }
  }

  lemma CancelLine(x: real, y: real)
    ensures 64.0 * x * y / 64.0 == x * y
  {
    assert 64.0 * x * y == (x * y) * 64.0;
  }

  /** The bandwidths are those of the tried stream counts, each from its own run. */
  ghost predicate Measured(gbs: seq<real>, timers: seq<Timer>)
    requires |gbs| <= |timers| == |CANDIDATES| && forall k :: 0 <= k < |timers| ==> timers[k].Valid()
  {
    forall k :: 0 <= k < |gbs| ==>
      IsBandwidth(gbs[k], CANDIDATES[k], timers[k])
  }

  method MeasureScaling(arr: array<ChaseNode>, count: nat, maxStreams: int, timers: seq<Timer>)
    returns (streams: seq<nat>, gbs: seq<real>)
    requires 1 <= count == arr.Length && InRange(Nexts(arr[..], Live(count)))
    requires |timers| == |CANDIDATES| && forall k :: 0 <= k < |timers| ==> timers[k].Valid()
    ensures streams == CANDIDATES[..Tried(maxStreams, count, 0)] && |gbs| == |streams|
    ensures 0 !in streams
    ensures Measured(gbs, timers) && forall k :: 0 <= k < |gbs| ==> gbs[k] >= 0.0
  {
    streams, gbs := [], [];
    var i := 0;
    while i < |CANDIDATES|
      invariant 0 <= i <= |CANDIDATES| && streams == CANDIDATES[..i] && |gbs| == i
      invariant Tried(maxStreams, count, 0) == Tried(maxStreams, count, i)
      invariant Measured(gbs, timers) && 0 !in streams
      invariant forall k :: 0 <= k < |gbs| ==> gbs[k] >= 0.0
    {
      var k := CANDIDATES[i];
      if k > maxStreams || k > count {
        break;
      }
      assert k > 0;
      var g, _ := MeasureMlpBandwidth(arr, count, k, timers[i]);
      assert g >= 0.0 by { BandwidthMeaning(g, k, timers[i]); }
      streams, gbs, i := streams + [k], gbs + [g], i + 1;
    }
  }

  method RunLatencyBench(footprint: nat, maxStreams: int, draws: seq<nat>, chain: Timer, timers: seq<Timer>)
    returns (r: LatencyResult)
    requires |draws| == NodeCount(footprint) - 1 && Draws(draws)
    requires chain.Valid() && |timers| == |CANDIDATES| && forall k :: 0 <= k < |timers| ==> timers[k].Valid()
    ensures r.footprintBytes == 64 * NodeCount(footprint)
    ensures r.chainNs == (chain.end - chain.start) as real / (64 * |chain.tests|) as real
    ensures StreamsTried(r.streams, maxStreams, NodeCount(footprint)) && |r.gbs| == |r.streams|
    ensures Measured(r.gbs, timers)
    ensures r.gbs == [] ==> r.plateauStreams == 0 && r.plateauGbs == 0.0
    ensures r.gbs != [] ==>
      var c := Plateau.Chosen(r.gbs, 0);
      r.plateauStreams == r.streams[c] && r.plateauGbs == r.gbs[c] && Plateau.Saturates(r.gbs, c)
    ensures r.impliedOutstanding == if r.chainNs > 0.0 then r.plateauGbs * r.chainNs / 64.0 else 0.0
  {
    var arr, count := BuildChaseArray(footprint, draws);
    var chainNs, _ := MeasureDependentLatency(arr, chain, Live(count));
    var streams, gbs := MeasureScaling(arr, count, maxStreams, timers);
    r := Summarise(count * LINE, chainNs, streams, gbs);
    if gbs != [] {
      Plateau.ChosenPointMeaning(gbs, Plateau.Chosen(gbs, 0));
    }
    TriedMeaning(maxStreams, count);
  }

  /** The stream counts are the candidates within both limits, from the smallest up. */
  predicate StreamsTried(streams: seq<nat>, maxStreams: int, count: nat) {
    && streams <= [1, 2, 4, 8, 16, 32, 64, 128]
    && forall k :: k in [1, 2, 4, 8, 16, 32, 64, 128] ==> (k in streams <==> k <= maxStreams && k <= count)
  }

  lemma TriedMeaning(maxStreams: int, count: nat)
    ensures StreamsTried(CANDIDATES[..Tried(maxStreams, count, 0)], maxStreams, count)
  {
    var n := Tried(maxStreams, count, 0);
    TriedAreTheFittingOnes(maxStreams, count, 0);
    forall i | 0 <= i < |CANDIDATES|
      ensures CANDIDATES[i] in CANDIDATES[..n] <==> CANDIDATES[i] <= maxStreams && CANDIDATES[i] <= count
    {
      CandidatesIncrease();
      assert i < n ==> CANDIDATES[..n][i] == CANDIDATES[i];
    }
    assert CANDIDATES == [1, 2, 4, 8, 16, 32, 64, 128];
  }

  lemma CandidatesIncrease()
    ensures forall i, j :: 0 <= i < j < |CANDIDATES| ==> CANDIDATES[i] < CANDIDATES[j]
  {
  }

  /** The plateau and the concurrency estimate from the measured figures. */
  method Summarise(footprint: nat, chainNs: real, streams: seq<nat>, gbs: seq<real>) returns (r: LatencyResult)
    requires |gbs| == |streams| && 0 !in streams
    ensures r.footprintBytes == footprint && r.chainNs == chainNs && r.streams == streams && r.gbs == gbs
    ensures gbs == [] ==> r.plateauStreams == 0 && r.plateauGbs == 0.0
    ensures gbs != [] ==>
      r.plateauStreams == streams[Plateau.Chosen(gbs, 0)] && r.plateauGbs == gbs[Plateau.Chosen(gbs, 0)]
    ensures r.impliedOutstanding == if r.chainNs > 0.0 then r.plateauGbs * r.chainNs / 64.0 else 0.0
  {
    var plateauStreams, plateauGbs := Plateau.FindPlateau(streams, gbs);
    var implied := 0.0;
    if chainNs > 0.0 {
      var bytesInFlight := plateauGbs * chainNs;
      implied := bytesInFlight / LINE as real;
    }
    r := LatencyResult(footprint, chainNs, streams, gbs, plateauStreams, plateauGbs, implied);
  }

  /**
   * What the reported figure means: the hop rate of the plateau run over the hop rate of
   * the dependent chain; it is 0 when the clock saw no time pass in one of the two.
   */
  lemma ReportedOutstandingMeaning(r: LatencyResult, chain: Timer, timers: seq<Timer>,
                                   hops: nat, ns: nat, chainHops: nat, chainNs: nat)
    requires chain.Valid() && |timers| == |CANDIDATES| && forall k :: 0 <= k < |timers| ==> timers[k].Valid()
    requires 0 < |r.gbs| <= |CANDIDATES| && Measured(r.gbs, timers)
    requires r.chainNs == (chain.end - chain.start) as real / (64 * |chain.tests|) as real
    requires r.plateauGbs == r.gbs[Plateau.Chosen(r.gbs, 0)]
    requires r.impliedOutstanding == if r.chainNs > 0.0 then r.plateauGbs * r.chainNs / 64.0 else 0.0
    requires var c := Plateau.Chosen(r.gbs, 0);
      hops == 16 * CANDIDATES[c] * |timers[c].tests| && ns == timers[c].end - timers[c].start
    requires chainHops == 64 * |chain.tests| && chainNs == chain.end - chain.start
    ensures r.impliedOutstanding
            == if ns == 0 || chainNs == 0 then 0.0
               else (hops as real / ns as real) / (chainHops as real / chainNs as real)
  {
    var c := Plateau.Chosen(r.gbs, 0);
    BandwidthMeaning(r.plateauGbs, CANDIDATES[c], timers[c]);
    EstimateIsHopRatio(r.plateauGbs, r.chainNs, hops, ns, chainHops, chainNs);
  }
}
