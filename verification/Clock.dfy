/**
 The steady clock as the timed loops see it, and the rate formula they share.
 */
module Clock {
  import opened Arith

  /**
   * The readings of one timed do-while loop: one at the start, one for each stop test,
   * one after the loop. Every such loop body runs once per stop test.
   */
  datatype Timer = Timer(start: nat, duration: nat, tests: seq<nat>, end: nat) {

    /** The clock never runs backwards, and the last test is the first to see the time up. */
    ghost predicate Valid() {
      && tests != []
      && (forall k :: 0 <= k < |tests| ==> start <= tests[k])
      && (forall k :: 0 <= k < |tests| - 1 ==> tests[k] - start < duration)
      && duration <= tests[|tests| - 1] - start
      && tests[|tests| - 1] <= end
    }

    predicate Continue(round: nat)
      requires round < |tests|
    {
      tests[round] - start < duration
    }
  }

  /** Units per nanosecond, computed as the benches do: giga-units over seconds. */
  function Rate(units: nat, ns: nat): real {
    var seconds := ns as real / 1000000000.0;
    if seconds > 0.0 then (units as real / 1000000000.0) / seconds else 0.0
  }

  lemma RateIsQuotient(units: nat, ns: nat)
    ensures Rate(units, ns) == if ns == 0 then 0.0 else units as real / ns as real
    ensures Rate(units, ns) >= 0.0
  {
    if ns != 0 {
      var g := 1000000000.0;
      var u, n := units as real, ns as real;
      assert (u / g) / (n / g) == u / n by {
        QuotientCancels(u, n, g);
      }
      assert u / n >= 0.0;
    }
  }
}
