/**
 Division, remainders, quotients and concatenation: the few facts the other modules need.
 */
module Arith {

  const UINT64: nat := 0x1_0000_0000_0000_0000

  lemma QuotientUnique(x: nat, n: nat, q: int, r: nat)
    requires x == n * q + r && r < n
    ensures x / n == q && x % n == r
  {
    var d := q - x / n;
    assert n * d == x % n - r;
    assert d >= 1 ==> n * d >= n;
    assert d <= -1 ==> n * -d >= n;
  }

  lemma ModSmall(x: nat, n: nat)
    requires x < n
    ensures x % n == x
  {
  }

  lemma ModAtMost(x: nat, n: nat)
    requires 0 < n
    ensures x % n <= x
  {
    if x < n {
      ModSmall(x, n);
    }
  }

  lemma SameResidue(a: nat, b: nat, n: nat)
    requires 0 < n && a <= b && a % n == b % n
    ensures (b - a) % n == 0
  {
    var k := b / n - a / n;
    assert b - a == n * k;
    QuotientUnique(b - a, n, k, 0);
  }

  /** A remainder may be taken early in a sum. */
  lemma ModAdd(a: nat, b: nat, n: nat)
    requires 0 < n
    ensures (a % n + b) % n == (a + b) % n
  {
    var s := a % n + b;
    assert a + b == n * (a / n + s / n) + s % n;
    QuotientUnique(a + b, n, a / n + s / n, s % n);
  }

  lemma ModAddBoth(a: nat, b: nat, n: nat)
    requires 0 < n
    ensures (a % n + b % n) % n == (a + b) % n
  {
    ModAdd(a, b % n, n);
    ModAdd(b, a, n);
  }

  function Sum(s: seq<int>): (t: int)
    ensures (forall i :: 0 <= i < |s| ==> s[i] >= 0) ==> t >= 0
  {
    if s == [] then 0 else Sum(s[..|s| - 1]) + s[|s| - 1]
  }

  /** The laws that make it the sum: nothing, one element, and lists put together. */
  lemma {:induction false} SumLaws(a: seq<int>, b: seq<int>, x: int)
    ensures Sum([]) == 0 && Sum([x]) == x && Sum(a + b) == Sum(a) + Sum(b)
  {
    assert [x][..0] == [];
    if b == [] {
      assert a + b == a;
    } else {
      var last := |b| - 1;
      SumLaws(a, b[..last], x);
      assert (a + b)[..|a + b| - 1] == a + b[..last];
    }
  }

  function SumReals(s: seq<real>): real {
    if s == [] then 0.0 else SumReals(s[..|s| - 1]) + s[|s| - 1]
  }

  lemma {:induction false} SumRealsLaws(a: seq<real>, b: seq<real>, x: real)
    ensures SumReals([]) == 0.0 && SumReals([x]) == x && SumReals(a + b) == SumReals(a) + SumReals(b)
  {
    assert [x][..0] == [];
    if b == [] {
      assert a + b == a;
    } else {
      var last := |b| - 1;
      SumRealsLaws(a, b[..last], x);
      assert (a + b)[..|a + b| - 1] == a + b[..last];
    }
  }

  lemma OneMore(d: int, n: nat)
    ensures (n + 1) * d == n * d + d
  {
  }

  lemma Distribute(q: nat, k: nat, j: nat)
    requires j < k
    ensures q * k == q * j + q * (k - j)
    ensures q >= 1 ==> q * j < q * k
  {
    assert q >= 1 ==> q * (k - j) >= 1;
  }

  lemma QuotientPositive(a: real, b: real)
    requires a > 0.0 && b > 0.0
    ensures a / b > 0.0
  {
  }

  lemma ScaledQuotient(k: real, a: real, b: real)
    requires b > 0.0
    ensures (k * a) / b == k * (a / b)
  {
    var q := a / b;
    assert a == q * b;
    assert k * a == (k * q) * b;
  }

  lemma QuotientCancels(a: real, b: real, c: real)
    requires b > 0.0 && c > 0.0
    ensures b / c > 0.0
    ensures (a / c) / (b / c) == a / b
  {
    var q := a / b;
    assert a == q * b;
    assert a / c == q * (b / c);
  }

  lemma ReciprocalProduct(a: real, b: real)
    requires a > 0.0 && b > 0.0
    ensures (a / b) * (b / a) == 1.0
  {
    Inverses(a / b, b / a, a, b);
  }

  lemma Inverses(p: real, q: real, a: real, b: real)
    requires a > 0.0 && p * b == a && q * a == b
    ensures p * q == 1.0
  {
    assert (p * q) * a == a by {
      assert p * (q * a) == p * b;
    }
    assert (p * q - 1.0) * a == 0.0;
  }

  lemma TimesReciprocal(x: real, y: real, z: real)
    requires z > 0.0 && y * z == 1.0
    ensures x * y == x / z
  {
    assert (x * y) * z == x * (y * z) == x;
  }

  lemma SumOfQuotients(a: real, b: real, c: real)
    requires c > 0.0
    ensures (a + b) / c == a / c + b / c
  {
    assert a == (a / c) * c && b == (b / c) * c;
    assert (a / c + b / c) * c == a + b;
  }

  lemma QuotientFalls(a: real, b: real, c: real)
    requires a >= 0.0 && 0.0 < b <= c
    ensures 0.0 <= a / c <= a / b
  {
    var q, r := a / b, a / c;
    assert q * b == a && r * c == a;
    if r > q {
      assert r * c >= r * b;
      assert r * b > q * b;
    }
  }

  lemma QuotientMonotone(a: real, b: real, c: real)
    requires a <= b && c > 0.0
    ensures a / c <= b / c
  {
    SumOfQuotients(a, b - a, c);
    assert (b - a) / c >= 0.0;
  }

  lemma Regroup<T>(a: seq<T>, b: seq<T>, c: seq<T>)
    ensures a + (b + c) == a + b + c
  {
  }
}
