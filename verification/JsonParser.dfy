/**
 A recursive-descent parser for the grammar of RFC 8259 (sections 2 to 7), written
 independently of the printer, and the proof that it undoes the printer.
 */
module JsonParser {
  import opened Arith
  import opened Json
  import opened Numerals
  import opened Wrappers

  datatype Parsed<+T> = Fail | Ok(value: T, rest: string)

  predicate IsWs(c: char) {
    c == ' ' || c == '\t' || c == '\n' || c == '\r'
  }

  function SkipWs(s: string): (r: string)
    ensures |r| <= |s|
  {
    if s != [] && IsWs(s[0]) then SkipWs(s[1..]) else s
  }

  /** The next character that is not white space is c. */
  predicate Starts(s: string, c: char) {
    var t := SkipWs(s);
    t != [] && t[0] == c
  }

  // ----- numbers (section 6)

  predicate IsDigit(c: char) {
    '0' <= c <= '9'
  }

  predicate IsNumberChar(c: char) {
    IsDigit(c) || c == '-' || c == '+' || c == '.' || c == 'e' || c == 'E'
  }

  /** How far a number has been read: number = [ minus ] int [ frac ] [ exp ]. */
  datatype Progress = Start | Minus | Zero | Digits | Point | Fraction | ExpMark | ExpSign | Exponent | Dead

  function NextProgress(p: Progress, c: char): Progress {
    match p
    case Start => if c == '-' then Minus else IntStart(c)
    case Minus => IntStart(c)
    case Zero => if c == '.' then Point else if c == 'e' || c == 'E' then ExpMark else Dead
    case Digits =>
      if IsDigit(c) then Digits else if c == '.' then Point else if c == 'e' || c == 'E' then ExpMark else Dead
    case Point => if IsDigit(c) then Fraction else Dead
    case Fraction => if IsDigit(c) then Fraction else if c == 'e' || c == 'E' then ExpMark else Dead
    case ExpMark => if c == '+' || c == '-' then ExpSign else if IsDigit(c) then Exponent else Dead
    case ExpSign => if IsDigit(c) then Exponent else Dead
    case Exponent => if IsDigit(c) then Exponent else Dead
    case Dead => Dead
  }

  /** int = zero / ( digit1-9 *DIGIT ). */
  function IntStart(c: char): Progress {
    if c == '0' then Zero else if IsDigit(c) then Digits else Dead
  }

  predicate Completes(p: Progress, s: string)
    decreases |s|
  {
    if s == [] then p.Zero? || p.Digits? || p.Fraction? || p.Exponent?
    else Completes(NextProgress(p, s[0]), s[1..])
  }

  predicate IsNumber(s: string) {
    Completes(Start, s)
  }

  function NumberSpan(s: string): (n: nat)
    ensures n <= |s|
  {
    if s != [] && IsNumberChar(s[0]) then 1 + NumberSpan(s[1..]) else 0
  }

  function ParseNumber(s: string): (r: Parsed<string>)
    ensures r.Ok? ==> |r.rest| < |s|
  {
    var n := NumberSpan(s);
    if IsNumber(s[..n]) then Ok(s[..n], s[n..]) else Fail
  }

  // ----- strings (section 7), from behind the opening quotation mark

  /** The value of four hexadecimal digits, None if one of them is something else. */
  function HexFour(s: string): Option<nat>
    requires |s| == 4
  {
    if AllDigits(s, 16) then Some(ValueOf(s, 16)) else None
  }

  /** The character an escape stands for, and how many characters the escape takes. */
  function ParseEscape(s: string): (r: Option<(char, nat)>)
    requires s != [] && s[0] == '\\'
    ensures r.Some? ==> 2 <= r.value.1 <= |s|
  {
    if |s| < 2 then None else
      match s[1]
      case '"' => Some(('"', 2))
      case '\\' => Some(('\\', 2))
      case '/' => Some(('/', 2))
      case 'b' => Some(('\U{0008}', 2))
      case 'f' => Some(('\U{000C}', 2))
      case 'n' => Some(('\n', 2))
      case 'r' => Some(('\r', 2))
      case 't' => Some(('\t', 2))
      case 'u' =>
        if |s| < 6 then None else
          var n := HexFour(s[2..6]);
          if n.Some? && (n.value < 0xD800 || 0xE000 <= n.value < 0x10000) then Some((n.value as char, 6)) else None
      case _ => None
  }

  function ParseChars(s: string): (r: Parsed<string>)
    ensures r.Ok? ==> |r.rest| < |s|
  {
    if s == [] || s[0] < ' ' then Fail
    else if s[0] == '"' then Ok("", s[1..])
    else if s[0] == '\\' then
      var e := ParseEscape(s);
      if e.None? then Fail else Prepend(e.value.0, ParseChars(s[e.value.1..]))
    else Prepend(s[0], ParseChars(s[1..]))
  }

  function Prepend(c: char, r: Parsed<string>): (r': Parsed<string>)
    ensures r'.Ok? <==> r.Ok?
    ensures r'.Ok? ==> r'.rest == r.rest
  {
    match r
    case Fail => Fail
    case Ok(value, rest) => Ok([c] + value, rest)
  }

  // ----- values, arrays and objects (sections 3 to 5)

  function Literal(s: string, word: string, x: Scalar): (r: Parsed<Json>)
    requires word != []
    ensures r.Ok? ==> |r.rest| < |s|
  {
    if word <= s then Ok(Leaf(x), s[|word|..]) else Fail
  }

  function NumberLeaf(r: Parsed<string>): (r': Parsed<Json>)
    ensures r'.Ok? ==> r.Ok? && r'.rest == r.rest
  {
    match r
    case Fail => Fail
    case Ok(text, rest) => Ok(Leaf(Num(text)), rest)
  }

  function StringLeaf(r: Parsed<string>): (r': Parsed<Json>)
    ensures r'.Ok? ==> r.Ok? && r'.rest == r.rest
  {
    match r
    case Fail => Fail
    case Ok(t, rest) => Ok(Leaf(Str(t)), rest)
  }

  function ParseValue(s0: string): (r: Parsed<Json>)
    ensures r.Ok? ==> |r.rest| < |s0|
    decreases |s0|, 0
  {
    var s := SkipWs(s0);
    if s == [] then Fail
    else if IsDigit(s[0]) || s[0] == '-' then NumberLeaf(ParseNumber(s))
    else if s[0] == '"' then StringLeaf(ParseChars(s[1..]))
    else if s[0] == '[' then
      if Starts(s[1..], ']') then Ok(Arr([]), SkipWs(s[1..])[1..]) else ParseElements(s[1..], [])
    else if s[0] == '{' then
      if Starts(s[1..], '}') then Ok(Obj([]), SkipWs(s[1..])[1..]) else ParseFields(s[1..], [])
    else if s[0] == 'n' then Literal(s, "null", Null)
    else if s[0] == 't' then Literal(s, "true", Bool(true))
    else if s[0] == 'f' then Literal(s, "false", Bool(false))
    else Fail
  }

  /** One element and what follows it, with the elements before it given. */
  function ParseElements(s: string, before: seq<Json>): (r: Parsed<Json>)
    ensures r.Ok? ==> |r.rest| < |s|
    decreases |s|, 1
  {
    var v := ParseValue(s);
    if v.Fail? then Fail else
      var t := SkipWs(v.rest);
      if t != [] && t[0] == ',' then ParseElements(t[1..], before + [v.value])
      else if t != [] && t[0] == ']' then Ok(Arr(before + [v.value]), t[1..])
      else Fail
  }

  function ParseFields(s0: string, before: seq<Member>): (r: Parsed<Json>)
    ensures r.Ok? ==> |r.rest| < |s0|
    decreases |s0|, 1
  {
    var s := SkipWs(s0);
    if s == [] || s[0] != '"' then Fail else
      var k := ParseChars(s[1..]);
      if k.Fail? then Fail else
        var colon := SkipWs(k.rest);
        if colon == [] || colon[0] != ':' then Fail else
          var v := ParseValue(colon[1..]);
          if v.Fail? then Fail else
            var t := SkipWs(v.rest);
            var members := before + [Member(k.value, v.value)];
            if t != [] && t[0] == ',' then ParseFields(t[1..], members)
            else if t != [] && t[0] == '}' then Ok(Obj(members), t[1..])
            else Fail
  }

  /** JSON-text = ws value ws. */
  function Parse(s: string): Option<Json> {
    var r := ParseValue(s);
    if r.Ok? && SkipWs(r.rest) == [] then Some(r.value) else None
  }

  // ----- which trees print to JSON text

  predicate NoControls(s: string) {
    forall i :: 0 <= i < |s| ==> s[i] >= ' '
  }

  predicate ScalarNumberOk(x: Scalar) {
    x.Num? ==> IsNumber(x.text)
  }

  /** Every number token is one of the grammar's. */
  predicate NumbersOk(v: Json)
    decreases v, 1
  {
    match v
    case Leaf(x) => ScalarNumberOk(x)
    case Arr(items) => ItemNumbersOk(items)
    case Obj(members) => MemberNumbersOk(members)
  }

  predicate ItemNumbersOk(items: seq<Json>)
    decreases items, 0
  {
    items == [] || (NumbersOk(items[0]) && ItemNumbersOk(items[1..]))
  }

  predicate MemberNumbersOk(members: seq<Member>)
    decreases members, 0
  {
    members == [] || (NumbersOk(members[0].val) && MemberNumbersOk(members[1..]))
  }

  /** No string or key holds a control character. */
  predicate Clean(v: Json)
    decreases v, 1
  {
    match v
    case Leaf(x) => x.Str? ==> NoControls(x.s)
    case Arr(items) => CleanItems(items)
    case Obj(members) => CleanMembers(members)
  }

  predicate CleanItems(items: seq<Json>)
    decreases items, 0
  {
    items == [] || (Clean(items[0]) && CleanItems(items[1..]))
  }

  predicate CleanMembers(members: seq<Member>)
    decreases members, 0
  {
    members == [] || (NoControls(members[0].key) && Clean(members[0].val) && CleanMembers(members[1..]))
  }

  // ----- parsing what was printed

  lemma {:induction false} ParseEscaped(s: string, rest: string)
    ensures ParseChars(Escape(s) + "\"" + rest) == if NoControls(s) then Ok(s, rest) else Fail
  {
    if s == [] {
      assert Escape(s) + "\"" + rest == "\"" + rest;
    } else {
      ParseEscaped(s[1..], rest);
      var tail := Escape(s[1..]) + "\"" + rest;
      assert Escape(s) + "\"" + rest == EscapeChar(s[0]) + tail;
      assert NoControls(s) <==> s[0] >= ' ' && NoControls(s[1..]);
      if s[0] == '"' || s[0] == '\\' {
        var all := EscapeChar(s[0]) + tail;
        assert all[2..] == tail;
        assert ParseEscape(all) == Some((s[0], 2));
      } else {
        assert (EscapeChar(s[0]) + tail)[1..] == tail;
      }
      assert s == [s[0]] + s[1..];
    }
  }

  lemma {:induction false} CompletingChars(p: Progress, s: string)
    requires Completes(p, s)
    ensures !p.Dead?
    ensures forall i :: 0 <= i < |s| ==> IsNumberChar(s[i])
    decreases |s|
  {
    if s != [] {
      CompletingChars(NextProgress(p, s[0]), s[1..]);
      assert forall i :: 1 <= i < |s| ==> s[i] == s[1..][i - 1];
    }
  }

  lemma NumberChars(s: string)
    requires IsNumber(s)
    ensures forall i :: 0 <= i < |s| ==> IsNumberChar(s[i])
    ensures s != [] && (IsDigit(s[0]) || s[0] == '-')
  {
    CompletingChars(Start, s);
    if s != [] {
      CompletingChars(NextProgress(Start, s[0]), s[1..]);
    }
  }

  lemma {:induction false} SpanOfNumber(s: string, rest: string)
    requires forall i :: 0 <= i < |s| ==> IsNumberChar(s[i])
    requires rest == [] || !IsNumberChar(rest[0])
    ensures NumberSpan(s + rest) == |s|
  {
    if s == [] {
      assert s + rest == rest;
    } else {
      assert (s + rest)[1..] == s[1..] + rest;
      SpanOfNumber(s[1..], rest);
    }
  }

  lemma ParsePrintedNumber(text: string, rest: string)
    requires IsNumber(text) && (rest == [] || !IsNumberChar(rest[0]))
    ensures ParseNumber(text + rest) == Ok(text, rest)
  {
    NumberChars(text);
    SpanOfNumber(text, rest);
    assert (text + rest)[..|text|] == text && (text + rest)[|text|..] == rest;
  }

  /** Printed values start with none of the characters that separate them. */
  lemma PrintStarts(v: Json)
    requires NumbersOk(v)
    ensures Print(v) != []
    ensures var c := Print(v)[0]; !IsWs(c) && c != ']' && c != '}' && c != ','
  {
    if v.Leaf? && v.x.Num? {
      NumberChars(v.x.text);
    }
  }

  predicate Ends(rest: string) {
    rest == [] || !IsNumberChar(rest[0])
  }

  lemma Behind(c: char, s: string)
    ensures ([c] + s)[0] == c && ([c] + s)[1..] == s
  {
  }

  lemma Regroup4(a: string, b: string, c: string, d: string)
    ensures a + b + c + d == a + (b + (c + d))
  {
  }

  // ----- what the parser does on each kind of first character

  lemma ParseValueString(s: string)
    ensures ParseValue("\"" + s) == StringLeaf(ParseChars(s))
  {
    Behind('"', s);
  }

  lemma ParseValueNumber(s: string)
    requires s != [] && (IsDigit(s[0]) || s[0] == '-')
    ensures ParseValue(s) == NumberLeaf(ParseNumber(s))
  {
    assert SkipWs(s) == s;
  }

  lemma ParseValueWord(s: string, rest: string)
    ensures s == "null" + rest ==> ParseValue(s) == Ok(Leaf(Null), rest)
    ensures s == "true" + rest ==> ParseValue(s) == Ok(Leaf(Bool(true)), rest)
    ensures s == "false" + rest ==> ParseValue(s) == Ok(Leaf(Bool(false)), rest)
  {
    assert s == "null" + rest ==> s[0] == 'n' && s[4..] == rest && "null" <= s;
    assert s == "true" + rest ==> s[0] == 't' && s[4..] == rest && "true" <= s;
    assert s == "false" + rest ==> s[0] == 'f' && s[5..] == rest && "false" <= s;
  }

  lemma ParseValueArray(s: string)
    requires s != [] && !IsWs(s[0])
    ensures ParseValue("[" + s) == if s[0] == ']' then Ok(Arr([]), s[1..]) else ParseElements(s, [])
  {
    Behind('[', s);
  }

  lemma ParseValueObject(s: string)
    requires s != [] && !IsWs(s[0])
    ensures ParseValue("{" + s) == if s[0] == '}' then Ok(Obj([]), s[1..]) else ParseFields(s, [])
  {
    Behind('{', s);
    var all := "{" + s;
    assert SkipWs(all) == all && SkipWs(s) == s && all[0] == '{';
  }

  lemma ElementsStep(s: string, before: seq<Json>, v: Json, c: char, t: string)
    requires ParseValue(s) == Ok(v, [c] + t)
    ensures c == ',' ==> ParseElements(s, before) == ParseElements(t, before + [v])
    ensures c == ']' ==> ParseElements(s, before) == Ok(Arr(before + [v]), t)
  {
    Behind(c, t);
  }

  lemma FieldsKey(k: string, s: string, before: seq<Member>)
    ensures ParseFields(Quote(k) + (":" + s), before).Ok? ==> NoControls(k) && ParseValue(s).Ok?
  {
    FieldStarts(k, s);
  }

  lemma FieldStarts(k: string, s: string)
    ensures var all := Quote(k) + (":" + s);
      && all[0] == '"'
      && ParseChars(all[1..]) == if NoControls(k) then Ok(k, ":" + s) else Fail
  {
    var inner := Escape(k) + "\"" + (":" + s);
    assert Quote(k) + (":" + s) == "\"" + inner;
    Behind('"', inner);
    ParseEscaped(k, ":" + s);
  }

  lemma FieldsStep(k: string, s: string, before: seq<Member>, v: Json, c: char, t: string)
    requires NoControls(k) && ParseValue(s) == Ok(v, [c] + t)
    ensures c == ',' ==> ParseFields(Quote(k) + (":" + s), before) == ParseFields(t, before + [Member(k, v)])
    ensures c == '}' ==> ParseFields(Quote(k) + (":" + s), before) == Ok(Obj(before + [Member(k, v)]), t)
  {
    FieldStarts(k, s);
    Behind(':', s);
    Behind(c, t);
  }

  // ----- the round trip, part by part

  lemma ParsePrintedScalar(x: Scalar, rest: string)
    requires ScalarNumberOk(x) && Ends(rest)
    ensures ParseValue(ScalarText(x) + rest) == if Clean(Leaf(x)) then Ok(Leaf(x), rest) else Fail
  {
    match x {
      case Null => ParseValueWord("null" + rest, rest);
      case Bool(b) => ParseValueWord(ScalarText(x) + rest, rest);
      case Num(text) =>
        NumberChars(text);
        ParsePrintedNumber(text, rest);
        assert (text + rest)[0] == text[0];
        ParseValueNumber(text + rest);
      case Str(t) =>
        ParseEscaped(t, rest);
        ParseValueString(Escape(t) + "\"" + rest);
        Regroup4("\"", Escape(t), "\"", rest);
        Regroup(Escape(t), "\"", rest);
    }
  }

  lemma StructuralIsNotWs(c: char)
    requires c in "[]{},:\""
    ensures !IsWs(c)
  {
  }

  /** A bracketed text parses as its inside does. */
  lemma PrintedArray(items: seq<Json>, rest: string)
    requires ItemNumbersOk(items)
    requires items != [] ==> ParseElements(PrintItems(items) + ("]" + rest), [])
                             == if CleanItems(items) then Ok(Arr(items), rest) else Fail
    ensures ParseValue(Print(Arr(items)) + rest) == if Clean(Arr(items)) then Ok(Arr(items), rest) else Fail
  {
    var inner := PrintItems(items) + ("]" + rest);
    assert Print(Arr(items)) + rest == "[" + inner;
    if items == [] {
      assert inner == "]" + rest;
      Behind(']', rest);
      StructuralIsNotWs(']');
    } else {
      PrintStarts(items[0]);
      assert inner[0] == Print(items[0])[0];
    }
    ParseValueArray(inner);
  }

  lemma MembersStart(members: seq<Member>)
    requires members != []
    ensures PrintMembers(members) != [] && PrintMembers(members)[0] == '"'
  {
    assert PrintMember(members[0])[0] == Quote(members[0].key)[0];
  }

  lemma EmptyObject(rest: string)
    ensures ParseValue(Print(Obj([])) + rest) == Ok(Obj([]), rest)
  {
    assert Print(Obj([])) + rest == "{" + ("}" + rest);
    Behind('}', rest);
    StructuralIsNotWs('}');
    ParseValueObject("}" + rest);
  }

  lemma PrintedObject(members: seq<Member>, rest: string)
    requires members != []
    requires ParseFields(PrintMembers(members) + ("}" + rest), [])
             == if CleanMembers(members) then Ok(Obj(members), rest) else Fail
    ensures ParseValue(Print(Obj(members)) + rest) == if CleanMembers(members) then Ok(Obj(members), rest) else Fail
  {
    var inner := PrintMembers(members) + ("}" + rest);
    Regroup4("{", PrintMembers(members), "}", rest);
    MembersStart(members);
    assert inner[0] == '"';
    StructuralIsNotWs('"');
    ParseValueObject(inner);
  }

  lemma {:induction false} ParsePrinted(v: Json, rest: string)
    requires NumbersOk(v) && Ends(rest)
    ensures ParseValue(Print(v) + rest) == if Clean(v) then Ok(v, rest) else Fail
    decreases v, 2
  {
    match v
    case Leaf(x) => ParsePrintedScalar(x, rest);
    case Arr(items) =>
      if items != [] {
        ParsePrintedItems([], items, rest);
        assert [] + items == items;
      }
      PrintedArray(items, rest);
    case Obj(members) =>
      if members != [] {
        ParsePrintedMembers([], members, rest);
        assert [] + members == members;
        PrintedObject(members, rest);
      } else {
        EmptyObject(rest);
      }
  }

  lemma HeadAndRest<T>(before: seq<T>, s: seq<T>)
    requires s != []
    ensures before + [s[0]] + s[1..] == before + s
  {
  }

  /** Behind the first of several parts: a comma and the others, or the closing bracket. */
  function Tail(more: string, last: bool, close: char, rest: string): string {
    if last then [close] + rest else "," + (more + ([close] + rest))
  }

  lemma ItemsText(items: seq<Json>, rest: string)
    requires items != []
    ensures PrintItems(items) + ("]" + rest)
            == Print(items[0]) + Tail(PrintItems(items[1..]), items[1..] == [], ']', rest)
  {
    var v, m, r := Print(items[0]), PrintItems(items[1..]), "]" + rest;
    if items[1..] == [] {
      assert PrintItems(items) == v;
    } else {
      Regroup4(v, ",", m, r);
    }
  }

  lemma PrintedItemsStep(before: seq<Json>, v: Json, more: seq<Json>, rest: string)
    requires var tail := Tail(PrintItems(more), more == [], ']', rest);
      ParseValue(Print(v) + tail) == if Clean(v) then Ok(v, tail) else Fail
    requires more != [] ==> ParseElements(PrintItems(more) + ("]" + rest), before + [v])
                            == if CleanItems(more) then Ok(Arr(before + [v] + more), rest) else Fail
    ensures ParseElements(Print(v) + Tail(PrintItems(more), more == [], ']', rest), before)
            == if Clean(v) && CleanItems(more) then Ok(Arr(before + [v] + more), rest) else Fail
  {
    var tail := Tail(PrintItems(more), more == [], ']', rest);
    if Clean(v) {
      if more == [] {
        ElementsStep(Print(v) + tail, before, v, ']', rest);
        assert before + [v] + more == before + [v];
      } else {
        ElementsStep(Print(v) + tail, before, v, ',', PrintItems(more) + ("]" + rest));
      }
    }
  }

  lemma {:induction false} ParsePrintedItems(before: seq<Json>, items: seq<Json>, rest: string)
    requires items != [] && ItemNumbersOk(items)
    ensures ParseElements(PrintItems(items) + ("]" + rest), before)
            == if CleanItems(items) then Ok(Arr(before + items), rest) else Fail
    decreases items, 1
  {
    var v, more := items[0], items[1..];
    ItemsText(items, rest);
    ParsePrinted(v, Tail(PrintItems(more), more == [], ']', rest));
    if more != [] {
      ParsePrintedItems(before + [v], more, rest);
    }
    PrintedItemsStep(before, v, more, rest);
    HeadAndRest(before, items);
  }

  lemma MembersText(members: seq<Member>, rest: string)
    requires members != []
    ensures PrintMembers(members) + ("}" + rest)
            == Quote(members[0].key)
               + (":" + (Print(members[0].val) + Tail(PrintMembers(members[1..]), members[1..] == [], '}', rest)))
  {
    var q, v, m, r := Quote(members[0].key), Print(members[0].val), PrintMembers(members[1..]), "}" + rest;
    assert PrintMember(members[0]) == q + ":" + v;
    if members[1..] == [] {
      assert PrintMembers(members) == q + ":" + v;
      Regroup4(q, ":", v, r);
    } else {
      Regroup4(q + ":" + v, ",", m, r);
      Regroup4(q, ":", v, "," + (m + r));
    }
  }

  lemma PrintedMembersStep(before: seq<Member>, m: Member, more: seq<Member>, rest: string)
    requires var tail := Tail(PrintMembers(more), more == [], '}', rest);
      ParseValue(Print(m.val) + tail) == if Clean(m.val) then Ok(m.val, tail) else Fail
    requires more != [] ==> ParseFields(PrintMembers(more) + ("}" + rest), before + [m])
                            == if CleanMembers(more) then Ok(Obj(before + [m] + more), rest) else Fail
    ensures ParseFields(Quote(m.key) + (":" + (Print(m.val) + Tail(PrintMembers(more), more == [], '}', rest))), before)
            == if NoControls(m.key) && Clean(m.val) && CleanMembers(more) then Ok(Obj(before + [m] + more), rest)
               else Fail
  {
    var tail := Tail(PrintMembers(more), more == [], '}', rest);
    if !NoControls(m.key) || !Clean(m.val) {
      FieldsKey(m.key, Print(m.val) + tail, before);
    } else if more == [] {
      FieldsStep(m.key, Print(m.val) + tail, before, m.val, '}', rest);
      assert before + [m] + more == before + [m];
    } else {
      FieldsStep(m.key, Print(m.val) + tail, before, m.val, ',', PrintMembers(more) + ("}" + rest));
    }
  }

  lemma {:induction false} ParsePrintedMembers(before: seq<Member>, members: seq<Member>, rest: string)
    requires members != [] && MemberNumbersOk(members)
    ensures ParseFields(PrintMembers(members) + ("}" + rest), before)
            == if CleanMembers(members) then Ok(Obj(before + members), rest) else Fail
    decreases members, 1
  {
    var m, more := members[0], members[1..];
    MembersText(members, rest);
    ParsePrinted(m.val, Tail(PrintMembers(more), more == [], '}', rest));
    if more != [] {
      ParsePrintedMembers(before + [m], more, rest);
    }
    PrintedMembersStep(before, m, more, rest);
    HeadAndRest(before, members);
  }

  /**
   * The round trip: what is printed (and ended with a newline) parses back to the same
   * tree exactly when no string in it holds a control character.
   */
  lemma RoundTripIff(v: Json)
    requires NumbersOk(v)
    ensures Parse(Print(v)) == Some(v) <==> Clean(v)
    ensures Parse(Print(v) + "\n") == Some(v) <==> Clean(v)
    ensures !Clean(v) ==> Parse(Print(v)) == None && Parse(Print(v) + "\n") == None
  {
    ParsePrinted(v, "");
    ParsePrinted(v, "\n");
    assert Print(v) + "" == Print(v);
  }

  /** Different clean trees never print alike. */
  lemma PrintInjective(v: Json, w: Json)
    requires NumbersOk(v) && NumbersOk(w) && Clean(v) && Clean(w)
    requires Print(v) == Print(w)
    ensures v == w
  {
    RoundTripIff(v);
    RoundTripIff(w);
  }

  // ----- reading the tree predicates member by member

  predicate KeysPlain(members: seq<Member>) {
    forall i :: 0 <= i < |members| ==> NoControls(members[i].key)
  }

  predicate ValuesClean(members: seq<Member>) {
    forall i :: 0 <= i < |members| ==> Clean(members[i].val)
  }

  lemma {:induction false} CleanMembersIff(members: seq<Member>)
    ensures CleanMembers(members) <==> KeysPlain(members) && ValuesClean(members)
  {
    if members != [] {
      CleanMembersIff(members[1..]);
      assert forall i :: 1 <= i < |members| ==> members[i] == members[1..][i - 1];
      assert KeysPlain(members) <==> NoControls(members[0].key) && KeysPlain(members[1..]);
      assert ValuesClean(members) <==> Clean(members[0].val) && ValuesClean(members[1..]);
    }
  }

  lemma {:induction false} CleanItemsIff(items: seq<Json>)
    ensures CleanItems(items) <==> forall i :: 0 <= i < |items| ==> Clean(items[i])
  {
    if items != [] {
      CleanItemsIff(items[1..]);
      assert forall i :: 1 <= i < |items| ==> items[i] == items[1..][i - 1];
    }
  }

  lemma {:induction false} MemberNumbersIff(members: seq<Member>)
    ensures MemberNumbersOk(members) <==> forall i :: 0 <= i < |members| ==> NumbersOk(members[i].val)
  {
    if members != [] {
      MemberNumbersIff(members[1..]);
      assert forall i :: 1 <= i < |members| ==> members[i] == members[1..][i - 1];
    }
  }

  lemma {:induction false} ItemNumbersIff(items: seq<Json>)
    ensures ItemNumbersOk(items) <==> forall i :: 0 <= i < |items| ==> NumbersOk(items[i])
  {
    if items != [] {
      ItemNumbersIff(items[1..]);
      assert forall i :: 1 <= i < |items| ==> items[i] == items[1..][i - 1];
    }
  }

  lemma {:induction false} DigitsComplete(s: string)
    requires AllDigits(s, 10)
    ensures Completes(Digits, s)
  {
    if s != [] {
      assert DigitValue(s[0]) < 10;
      DigitsComplete(s[1..]);
    }
  }

  lemma NumeralIsNumber(n: nat)
    ensures IsNumber(Numeral(n, 10)) && Completes(Minus, Numeral(n, 10))
  {
    var s := Numeral(n, 10);
    NumeralValue(n, 10);
    NoLeadingZero(n, 10);
    assert DigitValue(s[0]) < 10;
    DigitsComplete(s[1..]);
  }

  /** Printed integers are number tokens of the grammar. */
  lemma IntTextIsNumber(n: int)
    ensures IsNumber(IntText(n))
  {
    NumeralIsNumber(if n < 0 then -n else n);
    assert n < 0 ==> IntText(n)[1..] == Numeral(-n, 10);
  }
}
