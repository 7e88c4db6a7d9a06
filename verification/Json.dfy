/**
 JSON trees, their compact printing, and the writer calls that produce them.
 */
module Json {
  import opened Arith

  /** Number tokens are kept as printed: the text of an integer, or of a finite double. */
  datatype Scalar = Null | Bool(b: bool) | Num(text: string) | Str(s: string)

  datatype Json = Leaf(x: Scalar) | Arr(items: seq<Json>) | Obj(members: seq<Member>)

  datatype Member = Member(key: string, val: Json)

  /** One call on the writer; the kv helpers are a Key followed by a Value. */
  datatype Call = BeginObject | EndObject | BeginArray | EndArray | Key(k: string) | Value(x: Scalar)

  // ----- printing

  function EscapeChar(c: char): string {
    if c == '"' || c == '\\' then ['\\', c] else [c]
  }

  function Escape(s: string): string {
    if s == [] then [] else EscapeChar(s[0]) + Escape(s[1..])
  }

  function Quote(s: string): string {
    "\"" + Escape(s) + "\""
  }

  function ScalarText(x: Scalar): string {
    match x
    case Null => "null"
    case Bool(b) => if b then "true" else "false"
    case Num(text) => text
    case Str(s) => Quote(s)
  }

  function Comma<T>(before: seq<T>): string {
    if before == [] then "" else ","
  }

  function Print(v: Json): string
    decreases v, 1
  {
    match v
    case Leaf(x) => ScalarText(x)
    case Arr(items) => "[" + PrintItems(items) + "]"
    case Obj(members) => "{" + PrintMembers(members) + "}"
  }

  function PrintItems(items: seq<Json>): string
    decreases items, 0
  {
    if items == [] then "" else
      Print(items[0]) + Comma(items[1..]) + PrintItems(items[1..])
  }

  function PrintMember(m: Member): string
    decreases m, 1
  {
    Quote(m.key) + ":" + Print(m.val)
  }

  function PrintMembers(members: seq<Member>): string
    decreases members, 0
  {
    if members == [] then "" else
      PrintMember(members[0]) + Comma(members[1..]) + PrintMembers(members[1..])
  }

  lemma {:induction false} EscapeConcat(a: string, b: string)
    ensures Escape(a + b) == Escape(a) + Escape(b)
  {
    if a == [] {
      assert a + b == b;
    } else {
      EscapeConcat(a[1..], b);
      assert (a + b)[1..] == a[1..] + b;
      Regroup(EscapeChar(a[0]), Escape(a[1..]), Escape(b));
    }
  }

  lemma {:induction false} EscapePlain(s: string)
    requires forall i :: 0 <= i < |s| ==> s[i] != '"' && s[i] != '\\'
    ensures Escape(s) == s
  {
    if s != [] {
      EscapePlain(s[1..]);
      assert s == [s[0]] + s[1..];
    }
  }

  /** A quote or a backslash gets a backslash, and nothing else changes. */
  lemma EscapeMeaning(a: string, c: char, b: string)
    requires c == '"' || c == '\\'
    ensures Escape(a + [c] + b) == Escape(a) + ['\\', c] + Escape(b)
    ensures (forall i :: 0 <= i < |a| ==> a[i] != '"' && a[i] != '\\') ==> Escape(a) == a
  {
    EscapeConcat(a + [c], b);
    EscapeAppend(a, c);
    if forall i :: 0 <= i < |a| ==> a[i] != '"' && a[i] != '\\' {
      EscapePlain(a);
    }
  }

  lemma {:induction false} EscapeAppend(s: string, c: char)
    ensures Escape(s + [c]) == Escape(s) + EscapeChar(c)
  {
    if s != [] {
      EscapeAppend(s[1..], c);
      assert (s + [c])[1..] == s[1..] + [c];
    } else {
      assert (s + [c])[1..] == [];
    }
  }

  lemma {:induction false} PrintItemsAppend(items: seq<Json>, v: Json)
    ensures PrintItems(items + [v]) == PrintItems(items) + Comma(items) + Print(v)
  {
    if items != [] {
      PrintItemsAppend(items[1..], v);
      assert (items + [v])[1..] == items[1..] + [v];
    } else {
      assert (items + [v])[1..] == [];
    }
  }

  lemma {:induction false} PrintMembersAppend(members: seq<Member>, m: Member)
    ensures PrintMembers(members + [m]) == PrintMembers(members) + Comma(members) + PrintMember(m)
  {
    if members != [] {
      PrintMembersAppend(members[1..], m);
      assert (members + [m])[1..] == members[1..] + [m];
    } else {
      assert (members + [m])[1..] == [];
    }
  }

  // ----- the calls that write a tree

  function CallsOf(v: Json): seq<Call>
    decreases v, 1
  {
    match v
    case Leaf(x) => [Value(x)]
    case Arr(items) => [BeginArray] + CallsOfItems(items) + [EndArray]
    case Obj(members) => [BeginObject] + CallsOfMembers(members) + [EndObject]
  }

  function CallsOfItems(items: seq<Json>): seq<Call>
    decreases items, 0
  {
    if items == [] then [] else CallsOf(items[0]) + CallsOfItems(items[1..])
  }

  function CallsOfMembers(members: seq<Member>): seq<Call>
    decreases members, 0
  {
    if members == [] then [] else
      [Key(members[0].key)] + CallsOf(members[0].val) + CallsOfMembers(members[1..])
  }

  lemma {:induction false} CallsOfItemsAppend(items: seq<Json>, v: Json)
    ensures CallsOfItems(items + [v]) == CallsOfItems(items) + CallsOf(v)
  {
    if items != [] {
      CallsOfItemsAppend(items[1..], v);
      assert (items + [v])[1..] == items[1..] + [v];
    } else {
      assert (items + [v])[1..] == [];
    }
  }

  lemma {:induction false} CallsOfMembersAppend(members: seq<Member>, m: Member)
    ensures CallsOfMembers(members + [m]) == CallsOfMembers(members) + [Key(m.key)] + CallsOf(m.val)
  {
    if members != [] {
      CallsOfMembersAppend(members[1..], m);
      assert (members + [m])[1..] == members[1..] + [m];
    } else {
      assert (members + [m])[1..] == [];
    }
  }
}
