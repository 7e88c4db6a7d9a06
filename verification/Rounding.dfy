/**
 Rounding a size up to a multiple of a unit in 64-bit arithmetic, as the disk bench, the
 hugepage bench and the RAM buffers do.
 */
module Rounding {
  import opened Arith

  function Down(w: nat, unit: nat): nat
    requires 0 < unit
  {
    w / unit * unit
  }

  function RoundUp(v: nat, unit: nat): nat
    requires 0 < unit
  {
    Down((v + unit - 1) % UINT64, unit)
  }

  predicate LeastMultiple(r: nat, unit: nat, v: nat)
    requires 0 < unit
  {
    r % unit == 0 && v <= r < v + unit
  }

  lemma RoundDown(w: nat, unit: nat)
    requires 0 < unit
    ensures Down(w, unit) == w - w % unit
    ensures Down(w, unit) % unit == 0
  {
    QuotientUnique(Down(w, unit), unit, w / unit, 0);
  }

  /** The result is the least multiple of the unit at or above v exactly when the sum does not wrap. */
  lemma RoundUpIff(v: nat, unit: nat)
    requires v < UINT64 && 0 < unit < UINT64
    ensures LeastMultiple(RoundUp(v, unit), unit, v) <==> v + unit - 1 < 0x1_0000_0000_0000_0000
    ensures v + unit - 1 >= 0x1_0000_0000_0000_0000 ==> RoundUp(v, unit) == 0
    ensures RoundUp(v, unit) % unit == 0 && RoundUp(v, unit) < UINT64
  {
    if v + unit - 1 < UINT64 {
      RoundUpFits(v, unit);
    } else {
      RoundUpWraps(v, unit);
    }
  }

  lemma RoundUpFits(v: nat, unit: nat)
    requires 0 < unit && v + unit - 1 < UINT64
    ensures LeastMultiple(RoundUp(v, unit), unit, v) && RoundUp(v, unit) < UINT64
  {
    var w := v + unit - 1;
    ModSmall(w, UINT64);
    RoundDown(w, unit);
  }

  /** The wrapped sum is below v, and below one unit. */
  lemma RoundUpWraps(v: nat, unit: nat)
    requires v < UINT64 <= v + unit - 1 && 0 < unit < UINT64
    ensures RoundUp(v, unit) == 0 && !LeastMultiple(0, unit, v)
  {
    var w := v + unit - 1 - UINT64;
    QuotientUnique(v + unit - 1, UINT64, 1, w);
    RoundDown(w, unit);
    ModSmall(w, unit);
  }

  /** No other value has that property. */
  lemma LeastMultipleUnique(a: nat, b: nat, unit: nat, v: nat)
    requires 0 < unit && LeastMultiple(a, unit, v) && LeastMultiple(b, unit, v)
    ensures a == b
  {
    if a < b {
      SmallGap(a, b, unit);
    } else if b < a {
      SmallGap(b, a, unit);
    }
  }

  lemma SmallGap(a: nat, b: nat, unit: nat)
    requires 0 < unit && a <= b < a + unit && a % unit == b % unit
    ensures a == b
  {
    SameResidue(a, b, unit);
    ModSmall(b - a, unit);
  }

  const HUGE_PAGE: nat := 0x20_0000
  const LINE: nat := 64

  /**
   * The hugepage bench wires size / 64 nodes over a mapping of the rounded size. The nodes
   * fill it exactly, and there is one at all exactly when the footprint is above 0 and
   * rounding it does not wrap.
   */
  lemma HugepageNodeCount(footprint: nat)
    requires footprint < UINT64
    ensures var size := RoundUp(footprint, HUGE_PAGE);
      && size / LINE * 64 == size
      && (size / LINE >= 1 <==> 0 < footprint <= 0x1_0000_0000_0000_0000 - 0x20_0000)
      && (footprint <= 0x1_0000_0000_0000_0000 - 0x20_0000 ==> LeastMultiple(size, 0x20_0000, footprint))
  {
    RoundUpIff(footprint, HUGE_PAGE);
  }
}
