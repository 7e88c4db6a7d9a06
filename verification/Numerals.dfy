/**
 Decimal and hexadecimal numerals: printing and reading back.
 */
module Numerals {

  function DigitChar(d: nat): (c: char)
    requires d < 16
  {
    if d < 10 then '0' + d as char else 'a' + (d - 10) as char
  }

  /** The value of a hexadecimal digit of either case; 16 for any other character. */
  function DigitValue(c: char): (d: nat)
    ensures d <= 16
  {
    if '0' <= c <= '9' then (c - '0') as nat
    else if 'a' <= c <= 'f' then (c - 'a') as nat + 10
    else if 'A' <= c <= 'F' then (c - 'A') as nat + 10
    else 16
  }

  /** The digits are these, in lower and upper case ... */
  lemma DigitTable(i: nat)
    requires i < 16
    ensures DigitValue("0123456789abcdef"[i]) == i == DigitValue("0123456789ABCDEF"[i])
  {
  }

  /** ... and there are no others. */
  lemma OnlyDigits(c: char)
    requires DigitValue(c) < 16
    ensures c == "0123456789abcdef"[DigitValue(c)] || c == "0123456789ABCDEF"[DigitValue(c)]
  {
  }

  lemma DigitRoundTrip(d: nat)
    requires d < 16
    ensures DigitValue(DigitChar(d)) == d
  {
  }

  /** The shortest numeral of n. */
  function Numeral(n: nat, base: nat): (s: string)
    requires 2 <= base <= 16
    ensures s != []
  {
    if n < base then [DigitChar(n)] else Numeral(n / base, base) + [DigitChar(n % base)]
  }

  function ValueOf(s: string, base: nat): nat {
    if s == [] then 0 else ValueOf(s[..|s| - 1], base) * base + DigitValue(s[|s| - 1])
  }

  predicate AllDigits(s: string, base: nat) {
    forall i :: 0 <= i < |s| ==> DigitValue(s[i]) < base
  }

  lemma AppendDigit(s: string, c: char, base: nat)
    ensures ValueOf(s + [c], base) == ValueOf(s, base) * base + DigitValue(c)
    ensures AllDigits(s, base) && DigitValue(c) < base ==> AllDigits(s + [c], base)
  {
    assert (s + [c])[..|s|] == s;
  }

  lemma DigitAppended(s: string, d: nat, base: nat)
    requires d < base <= 16 && AllDigits(s, base)
    ensures AllDigits(s + [DigitChar(d)], base)
    ensures ValueOf(s + [DigitChar(d)], base) == ValueOf(s, base) * base + d
  {
    DigitRoundTrip(d);
    AppendDigit(s, DigitChar(d), base);
  }

  lemma Recompose(q: nat, n: nat, base: nat)
    requires base > 0 && q == n / base
    ensures q * base + n % base == n
  {
  }

  lemma {:induction false} NumeralValue(n: nat, base: nat)
    requires 2 <= base <= 16
    ensures AllDigits(Numeral(n, base), base)
    ensures ValueOf(Numeral(n, base), base) == n
  {
    if n < base {
      DigitRoundTrip(n);
      assert Numeral(n, base) == [] + [DigitChar(n)];
      AppendDigit([], DigitChar(n), base);
    } else {
      var q, d := n / base, n % base;
      QuotientShrinks(n, base);
      NumeralValue(q, base);
      DigitAppended(Numeral(q, base), d, base);
      Recompose(q, n, base);
    }
  }

  lemma QuotientShrinks(n: nat, base: nat)
    requires 2 <= base <= n
    ensures 1 <= n / base < n
  {
    Recompose(n / base, n, base);
  }

  lemma {:induction false} NoLeadingZero(n: nat, base: nat)
    requires 2 <= base <= 16
    ensures Numeral(n, base)[0] == '0' ==> n == 0 && |Numeral(n, base)| == 1
  {
    if n >= base {
      var q := n / base;
      QuotientShrinks(n, base);
      NoLeadingZero(q, base);
    }
  }

  /** Leading zeros do not change the value. */
  lemma {:induction false} LeadingZeros(zeros: nat, s: string, base: nat)
    requires base <= 16
    ensures ValueOf(seq(zeros, _ => '0') + s, base) == ValueOf(s, base)
    ensures AllDigits(s, base) && base > 0 ==> AllDigits(seq(zeros, _ => '0') + s, base)
  {
    var z := seq(zeros, _ => '0');
    if s == [] {
      assert z + s == z;
      ZerosAreZero(zeros, base);
    } else {
      var last := |s| - 1;
      assert (z + s)[..zeros + last] == z + s[..last];
      LeadingZeros(zeros, s[..last], base);
    }
  }

  lemma {:induction false} ZerosAreZero(zeros: nat, base: nat)
    ensures ValueOf(seq(zeros, _ => '0'), base) == 0
  {
    if zeros != 0 {
      assert seq(zeros, _ => '0')[..zeros - 1] == seq(zeros - 1, _ => '0');
      ZerosAreZero(zeros - 1, base);
    }
  }

  /** What a stream prints for a signed integer. */
  function IntText(n: int): string {
    if n < 0 then "-" + Numeral(-n, 10) else Numeral(n, 10)
  }

  /** The text is a decimal numeral of n. */
  predicate Denotes(text: string, n: int) {
    if n < 0 then |text| > 1 && text[0] == '-' && AllDigits(text[1..], 10) && ValueOf(text[1..], 10) == -n
    else text != [] && AllDigits(text, 10) && ValueOf(text, 10) == n
  }

  lemma IntTextDenotes(n: int)
    ensures Denotes(IntText(n), n)
  {
    NumeralValue(if n < 0 then -n else n, 10);
    if n < 0 {
      assert IntText(n)[1..] == Numeral(-n, 10);
    }
  }
}
