/**
 The printing is compact: nothing is printed between tokens that the grammar of RFC 8259
 would let a reader skip.
 */
module JsonCompact {
  import opened Json

  predicate NoWhiteSpace(s: string) {
    forall i :: 0 <= i < |s| ==> s[i] != ' ' && s[i] != '\t' && s[i] != '\n' && s[i] != '\r'
  }

  /** No string, key or number token of the tree holds white space. */
  predicate Solid(v: Json)
    decreases v, 1
  {
    match v
    case Leaf(x) => (x.Str? ==> NoWhiteSpace(x.s)) && (x.Num? ==> NoWhiteSpace(x.text))
    case Arr(items) => SolidItems(items)
    case Obj(members) => SolidMembers(members)
  }

  predicate SolidItems(items: seq<Json>)
    decreases items, 0
  {
    items == [] || (Solid(items[0]) && SolidItems(items[1..]))
  }

  predicate SolidMembers(members: seq<Member>)
    decreases members, 0
  {
    members == [] || (NoWhiteSpace(members[0].key) && Solid(members[0].val) && SolidMembers(members[1..]))
  }

  lemma {:induction false} EscapeAddsNone(s: string)
    requires NoWhiteSpace(s)
    ensures NoWhiteSpace(Escape(s))
  {
    if s != [] {
      EscapeAddsNone(s[1..]);
    }
  }

  lemma QuoteAddsNone(s: string)
    requires NoWhiteSpace(s)
    ensures NoWhiteSpace(Quote(s))
  {
    EscapeAddsNone(s);
  }

  /** Then its printing holds none either. */
  lemma {:induction false} PrintIsCompact(v: Json)
    requires Solid(v)
    ensures NoWhiteSpace(Print(v))
    decreases v, 1
  {
    match v
    case Leaf(x) =>
      if x.Str? {
        QuoteAddsNone(x.s);
      }
    case Arr(items) => ItemsAreCompact(items);
    case Obj(members) => MembersAreCompact(members);
  }

  lemma {:induction false} ItemsAreCompact(items: seq<Json>)
    requires SolidItems(items)
    ensures NoWhiteSpace(PrintItems(items))
    decreases items, 0
  {
    if items != [] {
      PrintIsCompact(items[0]);
      ItemsAreCompact(items[1..]);
    }
  }

  lemma {:induction false} MembersAreCompact(members: seq<Member>)
    requires SolidMembers(members)
    ensures NoWhiteSpace(PrintMembers(members))
    decreases members, 0
  {
    if members != [] {
      QuoteAddsNone(members[0].key);
      PrintIsCompact(members[0].val);
      MembersAreCompact(members[1..]);
      assert NoWhiteSpace(PrintMember(members[0]));
    }
  }
}
