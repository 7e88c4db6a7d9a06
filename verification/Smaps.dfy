/**
 The one-pass scan of /proc/self/smaps in hugepage_bench.cpp, against the sum it stands
 for: the AnonHugePages of every mapping that starts inside the target range.
 */
module Smaps {
  import opened Arith
  import opened Numerals
  import opened Wrappers

  datatype Vma = Vma(start: nat, end: nat)

  // ----- strtoull

  predicate IsSpace(c: char) {
    c == ' ' || c == '\t' || c == '\n' || c == '\r' || c == '\U{000B}' || c == '\U{000C}'
  }

  function SkipSpaces(s: string): string {
    if s != [] && IsSpace(s[0]) then SkipSpaces(s[1..]) else s
  }

  /** The leading digits of a text. */
  function DigitSpan(s: string, base: nat): (n: nat)
    ensures n <= |s|
  {
    if s != [] && DigitValue(s[0]) < base then 1 + DigitSpan(s[1..], base) else 0
  }

  function SkipPrefix(s: string, base: nat): string {
    if base == 16 && |s| >= 3 && s[0] == '0' && (s[1] == 'x' || s[1] == 'X') && DigitValue(s[2]) < 16 then s[2..] else s
  }

  /** White space, a sign, a 0x prefix in base 16, digits; too large a value becomes 2^64 - 1. */
  function StrToULL(s: string, base: nat): (v: nat)
    requires base <= 16
    ensures v < UINT64
  {
    var t := SkipSpaces(s);
    var signed := t != [] && (t[0] == '-' || t[0] == '+');
    var u := SkipPrefix(if signed then t[1..] else t, base);
    var v := ValueOf(u[..DigitSpan(u, base)], base);
    if v >= UINT64 then UINT64 - 1
    else if signed && t[0] == '-' then (UINT64 - v) % UINT64
    else v
  }

  // ----- parse_header

  /** The first position of c at or after from, |s| if there is none. */
  function Find(s: string, c: char, from: nat): (i: nat)
    requires from <= |s|
    ensures from <= i <= |s|
    ensures forall k :: from <= k < i ==> s[k] != c
    ensures i < |s| ==> s[i] == c
    decreases |s| - from
  {
    if from == |s| || s[from] == c then from else Find(s, c, from + 1)
  }

  function Header(line: string): Option<Vma> {
    var dash := Find(line, '-', 0);
    if dash == |line| || dash == 0 || !AllDigits(line[..dash], 16) then None else
      var sp := Find(line, ' ', dash);
      if sp == |line| then None
      else Some(Vma(StrToULL(line[..dash], 16), StrToULL(line[dash + 1..sp], 16)))
  }

  /** A dash behind hex digits alone, and a space behind the dash. */
  predicate HeaderShape(line: string, dash: nat, sp: nat) {
    && 0 < dash < sp < |line| && line[dash] == '-' && line[sp] == ' '
    && AllDigits(line[..dash], 16)
    && forall k :: dash < k < sp ==> line[k] != ' '
  }

  /** Exactly such lines are headers, and the two numbers are read from before and behind the dash. */
  lemma HeaderIff(line: string, v: Vma)
    ensures Header(line) == Some(v)
            <==> exists dash: nat, sp: nat :: HeaderShape(line, dash, sp)
                                    && v == Vma(StrToULL(line[..dash], 16), StrToULL(line[dash + 1..sp], 16))
  {
    var dash := Find(line, '-', 0);
    if 0 < dash < |line| {
      var sp := Find(line, ' ', dash);
      forall d: nat, e: nat | HeaderShape(line, d, e)
        ensures d == dash && e == sp
      {
        ShapeIsUnique(line, d, e, dash, sp);
      }
      assert sp < |line| && AllDigits(line[..dash], 16) ==> HeaderShape(line, dash, sp);
    } else {
      forall d: nat, e: nat
        ensures !HeaderShape(line, d, e)
      {
        if HeaderShape(line, d, e) {
          ShapeHasDash(line, d, e);
        }
      }
    }
  }

  /** Hex digits are not dashes. */
  lemma NoDashBefore(line: string, d: nat)
    requires d < |line| && AllDigits(line[..d], 16)
    ensures forall k :: 0 <= k < d ==> line[k] != '-'
  {
    forall k | 0 <= k < d
      ensures line[k] != '-'
    {
      assert DigitValue(line[..d][k]) < 16;
    }
  }

  lemma ShapeHasDash(line: string, d: nat, e: nat)
    requires HeaderShape(line, d, e)
    ensures Find(line, '-', 0) == d
  {
    NoDashBefore(line, d);
  }

  lemma ShapeIsUnique(line: string, d: nat, e: nat, dash: nat, sp: nat)
    requires HeaderShape(line, d, e)
    requires dash == Find(line, '-', 0) < |line| && sp == Find(line, ' ', dash)
    ensures d == dash && e == sp
  {
    ShapeHasDash(line, d, e);
  }

  method ParseHeader(line: string) returns (r: Option<Vma>)
    ensures r == Header(line)
  {
    var dash := Find(line, '-', 0);
    if dash == |line| || dash == 0 {
      return None;
    }
    for i := 0 to dash
      invariant AllDigits(line[..i], 16)
    {
      if DigitValue(line[i]) >= 16 {
        assert line[..dash][i] == line[i];
        return None;
      }
      assert line[..i + 1] == line[..i] + [line[i]];
    }
    var sp := Find(line, ' ', dash);
    if sp == |line| {
      return None;
    }
    r := Some(Vma(StrToULL(line[..dash], 16), StrToULL(line[dash + 1..sp], 16)));
  }

  // ----- the scan

  const ANON := "AnonHugePages:"

  /** The three ways a line is treated. */
  datatype Line = Head(v: Vma) | AnonLine(kb: nat) | Skipped

  function Classify(line: string): Line {
    var v := Header(line);
    if v.Some? then Head(v.value)
    else if ANON <= line then AnonLine(StrToULL(line[|ANON|..], 10))
    else Skipped
  }

  ghost predicate Treated(line: string, kind: Line) {
    Classify(line) == kind
  }

  /** lines says how each line of the text is treated. */
  ghost predicate AreLines(text: seq<string>, lines: seq<Line>) {
    && |lines| == |text|
    && forall i {:trigger Treated(text[i], lines[i])} :: 0 <= i < |text| ==> Treated(text[i], lines[i])
  }

  /** The running sum, in bytes, with 64-bit wrap-around. */
  function AddKb(sum: nat, kb: nat): (r: nat)
    ensures r < UINT64
  {
    (sum + kb * 1024) % UINT64
  }

  lemma AddKbTwice(sum: nat, a: nat, b: nat)
    ensures AddKb(AddKb(sum, a), b) == AddKb(sum, a + b)
  {
    ModAdd(sum + a * 1024, b * 1024, UINT64);
  }

  /** The sum after the lines, starting from a flag and a sum. */
  function Scan(lines: seq<Line>, lo: nat, hi: nat, inRange: bool, sum: nat): nat {
    if lines == [] then sum else
      match lines[0]
      case Head(v) => Scan(lines[1..], lo, hi, lo <= v.start < hi, sum)
      case AnonLine(kb) => Scan(lines[1..], lo, hi, inRange, if inRange then AddKb(sum, kb) else sum)
      case Skipped => Scan(lines[1..], lo, hi, inRange, sum)
  }

  /** None stands for a file that could not be opened. */
  method ConfirmedHugepageBytes(file: Option<seq<string>>, lo: nat, hi: nat, ghost lines: seq<Line>)
    returns (bytes: nat)
    requires file.Some? ==> AreLines(file.value, lines)
    ensures bytes == if file.None? then 0 else Scan(lines, lo, hi, false, 0)
  {
    if file.None? {
      return 0;
    }
    var text := file.value;
    var inRange := false;
    bytes := 0;
    for i := 0 to |text|
      invariant Scan(lines, lo, hi, false, 0) == Scan(lines[i..], lo, hi, inRange, bytes)
    {
      var line := text[i];
      assert Treated(line, lines[i]) && lines[i..][1..] == lines[i + 1..];
      var v := ParseHeader(line);
      if v.Some? {
        inRange := lo <= v.value.start < hi;
        continue;
      }
      if inRange && ANON <= line {
        var kb := StrToULL(line[|ANON|..], 10);
        bytes := AddKb(bytes, kb);
      }
    }
  }

  // ----- the file the scan reads

  datatype Field = Anon(pad: nat, kb: nat) | Other(name: string, text: string)

  /** One mapping: its range, each address printed with leading zeros of its own, the rest of its header, its fields. */
  datatype Record = Record(start: nat, startZeros: nat, end: nat, endZeros: nat, rest: string, fields: seq<Field>)

  function Repeat(c: char, n: nat): string {
    seq(n, _ => c)
  }

  function HexText(n: nat, zeros: nat): string {
    Repeat('0', zeros) + Numeral(n, 16)
  }

  function HeaderLine(r: Record): string {
    HexText(r.start, r.startZeros) + ("-" + (HexText(r.end, r.endZeros) + (" " + r.rest)))
  }

  function FieldLine(f: Field): string {
    match f
    case Anon(pad, kb) => ANON + (Repeat(' ', pad) + (Numeral(kb, 10) + " kB"))
    case Other(name, text) => name + (":" + text)
  }

  predicate FieldOk(f: Field) {
    match f
    case Anon(pad, kb) => kb < UINT64
    case Other(name, text) =>
      name != "AnonHugePages" && forall i :: 0 <= i < |name| ==> name[i] != '-' && name[i] != ':'
  }

  predicate RecordOk(r: Record) {
    r.start < UINT64 && r.end < UINT64 && forall i :: 0 <= i < |r.fields| ==> FieldOk(r.fields[i])
  }

  function FieldLines(fields: seq<Field>): seq<string> {
    if fields == [] then [] else [FieldLine(fields[0])] + FieldLines(fields[1..])
  }

  function FileLines(records: seq<Record>): seq<string> {
    if records == [] then [] else
      [HeaderLine(records[0])] + (FieldLines(records[0].fields) + FileLines(records[1..]))
  }

  function AnonKb(fields: seq<Field>): nat {
    if fields == [] then 0 else (if fields[0].Anon? then fields[0].kb else 0) + AnonKb(fields[1..])
  }

  function AnonKbInRange(records: seq<Record>, lo: nat, hi: nat): nat {
    if records == [] then 0 else
      (if lo <= records[0].start < hi then AnonKb(records[0].fields) else 0)
      + AnonKbInRange(records[1..], lo, hi)
  }

  // ----- reading back what was printed

  lemma {:induction false} SpanOfDigits(s: string, rest: string, base: nat)
    requires AllDigits(s, base) && (rest == [] || DigitValue(rest[0]) >= base)
    ensures DigitSpan(s + rest, base) == |s|
  {
    if s == [] {
      assert s + rest == rest;
    } else {
      assert (s + rest)[1..] == s[1..] + rest;
      SpanOfDigits(s[1..], rest, base);
    }
  }

  /** What the C library calls white space. */
  predicate Blank(s: string) {
    forall i :: 0 <= i < |s| ==> s[i] in " \t\n\r\U{000B}\U{000C}"
  }

  lemma {:induction false} SpacesSkipped(blank: string, s: string)
    requires Blank(blank) && s != [] && !IsSpace(s[0])
    ensures SkipSpaces(blank + s) == s
  {
    if blank == [] {
      assert blank + s == s;
    } else {
      assert blank[0] in " \t\n\r\U{000B}\U{000C}";
      assert (blank + s)[1..] == blank[1..] + s;
      SpacesSkipped(blank[1..], s);
    }
  }

  lemma DigitIsPlain(c: char)
    requires DigitValue(c) < 16
    ensures !IsSpace(c) && c != '-' && c != '+' && c != ':' && c != 'x' && c != 'X'
  {
  }

  /** Too large a value reads as the largest. */
  function Saturated(v: nat): nat {
    if v < 0x1_0000_0000_0000_0000 then v else 0xffff_ffff_ffff_ffff
  }

  /** A digit string reads as its value, with spaces before it and anything but a digit behind it. */
  lemma ReadDigits(blank: string, s: string, rest: string, base: nat)
    requires Blank(blank) && base <= 16 && s != [] && AllDigits(s, base)
    requires rest == [] || (DigitValue(rest[0]) >= base && rest[0] != 'x' && rest[0] != 'X')
    ensures StrToULL(blank + (s + rest), base) == Saturated(ValueOf(s, base))
  {
    var t := s + rest;
    DigitIsPlain(s[0]);
    SpacesSkipped(blank, t);
    NumberInFront(s, rest, base);
  }

  /** Where the digits of a number end. */
  lemma NumberInFront(s: string, rest: string, base: nat)
    requires base <= 16 && s != [] && AllDigits(s, base)
    requires rest == [] || (DigitValue(rest[0]) >= base && rest[0] != 'x' && rest[0] != 'X')
    ensures var t := s + rest;
      SkipPrefix(t, base) == t && DigitSpan(t, base) == |s| && t[..|s|] == s
  {
    if |s| >= 2 {
      DigitIsPlain(s[1]);
    }
    SpanOfDigits(s, rest, base);
  }

  lemma SignInFront(c: char, t: string, base: nat, digits: string)
    requires base <= 16 && (c == '+' || c == '-')
    requires SkipPrefix(t, base) == t && t[..DigitSpan(t, base)] == digits
    ensures StrToULL([c] + t, base) == SignedValue(c, ValueOf(digits, base))
  {
    assert ([c] + t)[1..] == t;
  }

  /** A minus negates modulo 2^64 whatever is not too large. */
  function SignedValue(c: char, v: nat): nat {
    if c == '-' && v < 0x1_0000_0000_0000_0000 then (0x1_0000_0000_0000_0000 - v) % 0x1_0000_0000_0000_0000
    else Saturated(v)
  }

  lemma ReadSigned(c: char, s: string, rest: string, base: nat)
    requires base <= 16 && s != [] && AllDigits(s, base) && (c == '+' || c == '-')
    requires rest == [] || (DigitValue(rest[0]) >= base && rest[0] != 'x' && rest[0] != 'X')
    ensures StrToULL([c] + (s + rest), base) == SignedValue(c, ValueOf(s, base))
  {
    NumberInFront(s, rest, base);
    SignInFront(c, s + rest, base, s);
  }

  /** A 0x in front of hexadecimal digits is skipped. */
  lemma ReadPrefixed(x: char, s: string, rest: string)
    requires (x == 'x' || x == 'X') && s != [] && AllDigits(s, 16)
    requires rest == [] || DigitValue(rest[0]) >= 16
    ensures StrToULL(['0', x] + (s + rest), 16) == Saturated(ValueOf(s, 16))
  {
    var t := s + rest;
    assert (['0', x] + t)[2..] == t;
    SpanOfDigits(s, rest, 16);
    assert t[..|s|] == s;
  }

  /** A text without a number in front reads as 0. */
  lemma ReadNothing(rest: string, base: nat)
    requires base <= 16 && (rest == [] || (DigitValue(rest[0]) >= base && !IsSpace(rest[0]) && rest[0] !in "+-"))
    ensures StrToULL(rest, base) == 0
  {
  }

  lemma ReadHex(n: nat, zeros: nat)
    requires n < UINT64
    ensures AllDigits(HexText(n, zeros), 16) && HexText(n, zeros) != []
    ensures StrToULL(HexText(n, zeros), 16) == n
  {
    NumeralValue(n, 16);
    LeadingZeros(zeros, Numeral(n, 16), 16);
    ReadDigits("", HexText(n, zeros), "", 16);
    assert "" + (HexText(n, zeros) + "") == HexText(n, zeros);
  }

  lemma FindAt(a: string, c: char, b: string, from: nat)
    requires from <= |a| && forall i :: from <= i < |a| ==> a[i] != c
    ensures Find(a + ([c] + b), c, from) == |a|
  {
    var s := a + ([c] + b);
    assert s[|a|] == c;
    assert forall i :: from <= i < |a| ==> s[i] == a[i];
  }

  lemma HexHasNo(n: nat, zeros: nat, c: char)
    requires n < UINT64 && (c == '-' || c == ' ')
    ensures forall i :: 0 <= i < |HexText(n, zeros)| ==> HexText(n, zeros)[i] != c
  {
    ReadHex(n, zeros);
  }

  lemma HeaderParts(a: string, b: string, rest: string)
    requires a != [] && AllDigits(a, 16)
    requires forall i :: 0 <= i < |a| ==> a[i] != '-' && a[i] != ' '
    requires forall i :: 0 <= i < |b| ==> b[i] != ' '
    ensures Header(a + ("-" + (b + (" " + rest)))) == Some(Vma(StrToULL(a, 16), StrToULL(b, 16)))
  {
    var line, front := a + ("-" + (b + (" " + rest))), a + ("-" + b);
    FindAt(a, '-', b + (" " + rest), 0);
    assert line == front + (" " + rest);
    assert forall i :: |a| + 1 <= i < |front| ==> front[i] == b[i - |a| - 1];
    FindAt(front, ' ', rest, |a|);
    assert line[..|a|] == a;
    assert line[|a| + 1..|front|] == b;
  }

  /** Every printed header is recognised and its two addresses are recovered. */
  lemma HeaderRecovered(r: Record)
    requires r.start < UINT64 && r.end < UINT64
    ensures Header(HeaderLine(r)) == Some(Vma(r.start, r.end))
  {
    ReadHex(r.start, r.startZeros);
    ReadHex(r.end, r.endZeros);
    HexHasNo(r.start, r.startZeros, '-');
    HexHasNo(r.start, r.startZeros, ' ');
    HexHasNo(r.end, r.endZeros, ' ');
    HeaderParts(HexText(r.start, r.startZeros), HexText(r.end, r.endZeros), r.rest);
  }

  /** No field line passes for a header. */
  lemma FieldIsNoHeader(f: Field)
    requires FieldOk(f)
    ensures Header(FieldLine(f)) == None
  {
    var line := FieldLine(f);
    var colon := if f.Anon? then |ANON| - 1 else |f.name|;
    assert line[colon] == ':';
    assert forall i :: 0 <= i < colon ==> line[i] == if f.Anon? then ANON[i] else f.name[i];
    var dash := Find(line, '-', 0);
    if dash < |line| {
      assert colon < dash && line[..dash][colon] == ':';
    }
  }

  lemma NameBehindPrefix(name: string, text: string)
    requires forall i :: 0 <= i < |name| ==> name[i] != ':'
    ensures ANON <= name + (":" + text) ==> name == "AnonHugePages"
  {
    var line, n := name + (":" + text), |name|;
    assert line[n] == ':' && line[..n] == name;
    assert ANON[..13] == "AnonHugePages" && ANON[13] == ':';
    if ANON <= line {
      assert forall i :: 0 <= i < 13 ==> line[i] == ANON[i];
      assert line[13] == ':';
      assert n == 13;
    }
  }

  lemma OtherIsNotAnon(f: Field)
    requires FieldOk(f) && f.Other?
    ensures !(ANON <= FieldLine(f))
  {
    NameBehindPrefix(f.name, f.text);
  }

  /** How a printed field is treated. */
  function FieldKind(f: Field): Line {
    match f
    case Anon(pad, kb) => AnonLine(kb)
    case Other(name, text) => Skipped
  }

  lemma FieldClassified(f: Field)
    requires FieldOk(f)
    ensures Classify(FieldLine(f)) == FieldKind(f)
  {
    FieldIsNoHeader(f);
    match f
    case Other(name, text) => OtherIsNotAnon(f);
    case Anon(pad, kb) =>
      NumeralValue(kb, 10);
      ReadDigits(Repeat(' ', pad), Numeral(kb, 10), " kB", 10);
      assert ANON <= FieldLine(f) && FieldLine(f)[|ANON|..] == Repeat(' ', pad) + (Numeral(kb, 10) + " kB");
  }

  function FieldKinds(fields: seq<Field>): seq<Line> {
    if fields == [] then [] else [FieldKind(fields[0])] + FieldKinds(fields[1..])
  }

  function FileKinds(records: seq<Record>): seq<Line> {
    if records == [] then [] else
      [Head(Vma(records[0].start, records[0].end))] + (FieldKinds(records[0].fields) + FileKinds(records[1..]))
  }

  lemma LinesConcat(a: seq<string>, ka: seq<Line>, b: seq<string>, kb: seq<Line>)
    requires AreLines(a, ka) && AreLines(b, kb)
    ensures AreLines(a + b, ka + kb)
  {
    forall i | 0 <= i < |a + b|
      ensures Treated((a + b)[i], (ka + kb)[i])
    {
      if i < |a| {
        assert Treated(a[i], ka[i]);
      } else {
        assert Treated(b[i - |a|], kb[i - |a|]);
      }
    }
  }

  lemma LinesOne(line: string, kind: Line)
    requires Classify(line) == kind
    ensures AreLines([line], [kind])
  {
    assert Treated([line][0], [kind][0]);
  }

  lemma {:induction false} FieldsClassified(fields: seq<Field>)
    requires forall i :: 0 <= i < |fields| ==> FieldOk(fields[i])
    ensures AreLines(FieldLines(fields), FieldKinds(fields))
  {
    if fields != [] {
      FieldClassified(fields[0]);
      FieldsClassified(fields[1..]);
      LinesOne(FieldLine(fields[0]), FieldKind(fields[0]));
      LinesConcat([FieldLine(fields[0])], [FieldKind(fields[0])], FieldLines(fields[1..]), FieldKinds(fields[1..]));
    }
  }

  /** Each line of a printed file is treated as what it was printed for. */
  lemma {:induction false} FileClassified(records: seq<Record>)
    requires forall i :: 0 <= i < |records| ==> RecordOk(records[i])
    ensures AreLines(FileLines(records), FileKinds(records))
  {
    if records != [] {
      var r := records[0];
      var head := Head(Vma(r.start, r.end));
      HeaderRecovered(r);
      FieldsClassified(r.fields);
      FileClassified(records[1..]);
      LinesOne(HeaderLine(r), head);
      LinesConcat(FieldLines(r.fields), FieldKinds(r.fields), FileLines(records[1..]), FileKinds(records[1..]));
      LinesConcat([HeaderLine(r)], [head], FieldLines(r.fields) + FileLines(records[1..]),
                  FieldKinds(r.fields) + FileKinds(records[1..]));
    }
  }

  // ----- the sum

  lemma {:induction false} FieldsScanned(fields: seq<Field>, more: seq<Line>, lo: nat, hi: nat, inRange: bool, sum: nat)
    requires sum < UINT64
    ensures Scan(FieldKinds(fields) + more, lo, hi, inRange, sum)
            == Scan(more, lo, hi, inRange, if inRange then AddKb(sum, AnonKb(fields)) else sum)
  {
    if fields == [] {
      assert FieldKinds(fields) + more == more;
    } else {
      var f := fields[0];
      assert (FieldKinds(fields) + more)[1..] == FieldKinds(fields[1..]) + more;
      var kb := if f.Anon? then f.kb else 0;
      FieldsScanned(fields[1..], more, lo, hi, inRange, if inRange then AddKb(sum, kb) else sum);
      AddKbTwice(sum, kb, AnonKb(fields[1..]));
    }
  }

  lemma {:induction false} RecordsScanned(records: seq<Record>, lo: nat, hi: nat, inRange: bool, sum: nat)
    requires sum < UINT64
    ensures Scan(FileKinds(records), lo, hi, inRange, sum) == AddKb(sum, AnonKbInRange(records, lo, hi))
  {
    if records != [] {
      var r, more := records[0], FileKinds(records[1..]);
      var hit := lo <= r.start < hi;
      assert FileKinds(records)[1..] == FieldKinds(r.fields) + more;
      FieldsScanned(r.fields, more, lo, hi, hit, sum);
      if hit {
        RecordsScanned(records[1..], lo, hi, hit, AddKb(sum, AnonKb(r.fields)));
        AddKbTwice(sum, AnonKb(r.fields), AnonKbInRange(records[1..], lo, hi));
      } else {
        RecordsScanned(records[1..], lo, hi, hit, sum);
      }
    }
  }

  /** The one-pass scan returns 1024 times the sum over the mappings that start in the range. */
  lemma ScanIsRangeSum(records: seq<Record>, lo: nat, hi: nat)
    requires forall i :: 0 <= i < |records| ==> RecordOk(records[i])
    ensures AreLines(FileLines(records), FileKinds(records))
    ensures Scan(FileKinds(records), lo, hi, false, 0) == AnonKbInRange(records, lo, hi) * 1024 % UINT64
  {
    FileClassified(records);
    RecordsScanned(records, lo, hi, false, 0);
  }

  lemma {:induction false} AnonKbPositiveIff(fields: seq<Field>)
    ensures AnonKb(fields) > 0 <==> HasHugePages(fields)
  {
    if fields != [] {
      AnonKbPositiveIff(fields[1..]);
      assert fields == [fields[0]] + fields[1..];
    }
  }

  predicate HasHugePages(fields: seq<Field>) {
    exists f :: f in fields && f.Anon? && f.kb > 0
  }

  /** A mapping that starts in the range and has huge pages. */
  predicate Backed(r: Record, lo: nat, hi: nat) {
    lo <= r.start < hi && HasHugePages(r.fields)
  }

  lemma {:induction false} RangeSumPositiveIff(records: seq<Record>, lo: nat, hi: nat)
    ensures AnonKbInRange(records, lo, hi) > 0 <==> exists r :: r in records && Backed(r, lo, hi)
  {
    if records != [] {
      AnonKbPositiveIff(records[0].fields);
      RangeSumPositiveIff(records[1..], lo, hi);
      assert records == [records[0]] + records[1..];
      if r :| r in records[1..] && Backed(r, lo, hi) {
        assert r in records;
      } else {
        assert (exists r :: r in records && Backed(r, lo, hi)) <==> Backed(records[0], lo, hi);
      }
    }
  }

  /**
   * The answer is right, some mapping in the range is backed by huge pages, exactly unless
   * the sum is a multiple of 2^54 kB, which reads as none.
   */
  lemma ConfirmedIff(records: seq<Record>, lo: nat, hi: nat)
    ensures var kb := AnonKbInRange(records, lo, hi);
      (kb * 1024 % UINT64 > 0 <==> exists r :: r in records && Backed(r, lo, hi))
      <==> kb == 0 || kb % (UINT64 / 1024) != 0
  {
    RangeSumPositiveIff(records, lo, hi);
    SumVisibleIff(AnonKbInRange(records, lo, hi));
  }

  lemma SumVisibleIff(kb: nat)
    ensures kb * 1024 % UINT64 > 0 <==> kb % (UINT64 / 1024) != 0
    ensures kb % (UINT64 / 1024) != 0 ==> kb != 0
  {
    var wrap := UINT64 / 1024;
    assert kb == wrap * (kb / wrap) + kb % wrap;
    QuotientUnique(kb * 1024, UINT64, kb / wrap, kb % wrap * 1024);
  }

  /** One mapping with 2^54 kB in huge pages reads as none. */
  lemma WrappedSumReadsAsNone()
    ensures var records := [Record(0, 0, 1, 0, "", [Anon(0, UINT64 / 1024)])];
      && (exists r :: r in records && Backed(r, 0, 1))
      && AnonKbInRange(records, 0, 1) * 1024 % UINT64 == 0
  {
    var fields := [Anon(0, UINT64 / 1024)];
    var r := Record(0, 0, 1, 0, "", fields);
    assert fields[1..] == [] && [r][1..] == [];
    assert fields[0] in fields && HasHugePages(r.fields);
    assert r in [r] && Backed(r, 0, 1);
    assert AnonKb(fields) == UINT64 / 1024;
  }

  // ----- mappings of one address space

  predicate Disjoint(a: Record, b: Record) {
    a.end <= b.start || b.end <= a.start
  }

  /** Mappings do not overlap, lie below 2^64, and hold no more huge-page bytes than addresses. */
  predicate AddressSpace(records: seq<Record>) {
    && (forall i :: 0 <= i < |records| ==>
          records[i].start <= records[i].end < UINT64
          && AnonKb(records[i].fields) * 1024 <= records[i].end - records[i].start)
    && (forall i, j :: 0 <= i < j < |records| ==> Disjoint(records[i], records[j]))
  }

  function Addresses(lo: nat, hi: nat): (a: set<nat>)
    ensures forall x :: x in a <==> lo <= x < hi
    decreases hi
  {
    if hi <= lo then {} else Addresses(lo, hi - 1) + {hi - 1}
  }

  lemma {:induction false} AddressCount(lo: nat, hi: nat)
    requires lo <= hi
    ensures |Addresses(lo, hi)| == hi - lo
    decreases hi
  {
    if lo < hi {
      AddressCount(lo, hi - 1);
    }
  }

  lemma SubsetCount(a: set<nat>, b: set<nat>)
    requires a <= b
    ensures |a| <= |b|
  {
    assert b == a + (b - a);
  }

  lemma AddressSpaceTail(records: seq<Record>)
    requires records != [] && AddressSpace(records)
    ensures AddressSpace(records[1..])
    ensures forall j :: 0 <= j < |records| - 1 ==> Disjoint(records[0], records[1..][j])
  {
    assert forall j :: 0 <= j < |records| - 1 ==> records[1..][j] == records[j + 1];
  }

  function AddressesOf(r: Record): set<nat> {
    Addresses(r.start, r.end)
  }

  predicate IsMapped(records: seq<Record>, x: nat) {
    exists i :: 0 <= i < |records| && x in AddressesOf(records[i])
  }

  /** The mapped addresses: as many as the huge pages need, or more, and all of them mapped by a record. */
  lemma {:induction false} MappedAddresses(records: seq<Record>, lo: nat, hi: nat) returns (mapped: set<nat>)
    requires AddressSpace(records)
    ensures AnonKbInRange(records, lo, hi) * 1024 <= |mapped|
    ensures forall x :: x in mapped ==> IsMapped(records, x)
  {
    if records == [] {
      mapped := {};
    } else {
      AddressSpaceTail(records);
      var rest := MappedAddresses(records[1..], lo, hi);
      var first := AddressesOf(records[0]);
      AddressCount(records[0].start, records[0].end);
      assert first !! rest;
      mapped := first + rest;
      forall x | x in mapped
        ensures IsMapped(records, x)
      {
        if x in rest {
          var i :| 0 <= i < |records| - 1 && x in AddressesOf(records[1..][i]);
          assert records[i + 1] == records[1..][i];
        }
      }
    }
  }

  /** So in an address space the sum never wraps. */
  lemma AddressSpaceSum(records: seq<Record>, lo: nat, hi: nat)
    requires AddressSpace(records)
    ensures AnonKbInRange(records, lo, hi) * 1024 < UINT64
  {
    var mapped := MappedAddresses(records, lo, hi);
    AddressCount(0, UINT64 - 1);
    SubsetCount(mapped, Addresses(0, UINT64 - 1));
  }

  /** And a non-zero sum means huge pages in the range, without exception. */
  lemma AddressSpaceAnswer(records: seq<Record>, lo: nat, hi: nat)
    requires AddressSpace(records)
    ensures var bytes := AnonKbInRange(records, lo, hi) * 1024;
      && bytes % UINT64 == bytes
      && (bytes > 0 <==> exists r :: r in records && Backed(r, lo, hi))
  {
    AddressSpaceSum(records, lo, hi);
    ModSmall(AnonKbInRange(records, lo, hi) * 1024, UINT64);
    RangeSumPositiveIff(records, lo, hi);
  }

  /** What run_hugepage_bench asks of the file: the bytes backed by huge pages in its mapping. */
  method HugepageConfirmed(text: seq<string>, base: nat, size: nat, ghost records: seq<Record>)
    returns (confirmed: bool, bytes: nat)
    requires text == FileLines(records) && forall i :: 0 <= i < |records| ==> RecordOk(records[i])
    ensures bytes == AnonKbInRange(records, base, base + size) * 1024 % UINT64
    ensures confirmed <==> bytes > 0
    ensures AddressSpace(records) ==>
      && bytes == AnonKbInRange(records, base, base + size) * 1024
      && (confirmed <==> exists r :: r in records && Backed(r, base, base + size))
  {
    ScanIsRangeSum(records, base, base + size);
    if AddressSpace(records) {
      AddressSpaceAnswer(records, base, base + size);
    }
    bytes := ConfirmedHugepageBytes(Some(text), base, base + size, FileKinds(records));
    confirmed := bytes > 0;
  }
}
