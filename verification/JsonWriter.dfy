/**
 The streaming writer of util.hpp, and the proof that on legal calls its comma stack and
 key flag print exactly the tree being built.
 */
module JsonWriter {
  import opened Arith
  import opened Json
  import opened JsonProtocol
  import opened Wrappers

  /** The writer's own state: what is in the stream, one "has an element" flag per container. */
  datatype Writer = Writer(out: string, stack: seq<bool>, justWroteKey: bool)

  const START := Writer("", [], false)

  function CommaIfNeeded(w: Writer): Writer {
    if w.stack == [] then w else
      var last := |w.stack| - 1;
      w.(out := w.out + if w.stack[last] then "," else "", stack := w.stack[..last] + [true])
  }

  function BeforeValue(w: Writer): Writer {
    if w.justWroteKey then w.(justWroteKey := false) else CommaIfNeeded(w)
  }

  function Emit(w: Writer, text: string): Writer {
    w.(out := w.out + text)
  }

  predicate Defined(w: Writer, c: Call) {
    c.EndObject? || c.EndArray? ==> w.stack != []
  }

  /** What each call does to the writer; ending with no container open is undefined. */
  function Apply(w: Writer, c: Call): Writer
    requires Defined(w, c)
  {
    match c
    case BeginObject => var w' := Emit(BeforeValue(w), "{"); w'.(stack := w'.stack + [false])
    case BeginArray => var w' := Emit(BeforeValue(w), "["); w'.(stack := w'.stack + [false])
    case EndObject => Emit(w.(stack := w.stack[..|w.stack| - 1]), "}")
    case EndArray => Emit(w.(stack := w.stack[..|w.stack| - 1]), "]")
    case Key(k) => Emit(CommaIfNeeded(w), Quote(k) + ":").(justWroteKey := true)
    case Value(x) => Emit(BeforeValue(w), ScalarText(x))
  }

  // ----- the text of an unfinished document

  function FrameText(f: Frame): string {
    match f
    case InArray(items) => "[" + PrintItems(items)
    case InObject(members, pending) =>
      "{" + PrintMembers(members) + if pending.Some? then Comma(members) + Quote(pending.value) + ":" else ""
  }

  /** A container once a value has been started inside it. */
  function ParentText(f: Frame): string {
    FrameText(f) + if f.InArray? then Comma(f.items) else ""
  }

  function Lead(frames: seq<Frame>): string {
    if frames == [] then "" else Lead(frames[..|frames| - 1]) + ParentText(frames[|frames| - 1])
  }

  function DocText(d: Doc): string {
    if d.result.Some? then Print(d.result.value)
    else if d.frames == [] then ""
    else Lead(d.frames[..|d.frames| - 1]) + FrameText(Top(d))
  }

  predicate Busy(f: Frame) {
    match f
    case InArray(items) => items != []
    case InObject(members, pending) => members != [] || pending.Some?
  }

  predicate KeyPending(d: Doc) {
    d.frames != [] && Top(d).InObject? && Top(d).pending.Some?
  }

  /** The refinement relation between the writer's state and the document being built. */
  ghost predicate Agrees(w: Writer, d: Doc) {
    && Nested(d)
    && w.out == DocText(d)
    && w.justWroteKey == KeyPending(d)
    && |w.stack| == |d.frames|
    && (forall i :: 0 <= i < |d.frames| - 1 ==> w.stack[i])
    && (d.frames != [] ==> w.stack[|d.frames| - 1] == Busy(Top(d)))
  }

  // ----- each call keeps the relation

  ghost predicate ReadyForValue(w: Writer, d: Doc) {
    && w.out == Lead(d.frames) && !w.justWroteKey
    && |w.stack| == |d.frames| && forall i :: 0 <= i < |d.frames| ==> w.stack[i]
  }

  lemma LeadBehindKey(d: Doc)
    requires KeyPending(d) && d.result.None?
    ensures Lead(d.frames) == DocText(d)
  {
    assert ParentText(Top(d)) == FrameText(Top(d));
  }

  lemma LeadInArray(d: Doc)
    requires d.frames != [] && d.result.None? && Top(d).InArray?
    ensures Lead(d.frames) == DocText(d) + Comma(Top(d).items)
  {
    Regroup(Lead(d.frames[..|d.frames| - 1]), FrameText(Top(d)), Comma(Top(d).items));
  }

  lemma ReadyInArray(w: Writer, d: Doc)
    requires Agrees(w, d) && TakesValue(d) && d.frames != [] && Top(d).InArray?
    ensures ReadyForValue(CommaIfNeeded(w), d)
  {
    LeadInArray(d);
    assert w.stack[|w.stack| - 1] == (Top(d).items != []);
  }

  lemma BeforeValueReadies(w: Writer, d: Doc)
    requires Agrees(w, d) && TakesValue(d)
    ensures ReadyForValue(BeforeValue(w), d)
  {
    if KeyPending(d) {
      LeadBehindKey(d);
    } else if d.frames != [] {
      ReadyInArray(w, d);
    }
  }

  lemma OpenedText(d: Doc, f: Frame)
    requires d.result.None?
    ensures DocText(Push(d, f)) == Lead(d.frames) + FrameText(f)
  {
    assert (d.frames + [f])[..|d.frames|] == d.frames;
  }

  lemma PushNested(d: Doc, f: Frame)
    requires TakesValue(d) && Nested(d)
    ensures Nested(Push(d, f)) && Top(Push(d, f)) == f
  {
  }

  lemma OpenedAgrees(w: Writer, d: Doc, f: Frame)
    requires TakesValue(d) && Nested(d) && (f == InArray([]) || f == InObject([], None))
    requires w.out == Lead(d.frames) + FrameText(f) && !w.justWroteKey && |w.stack| == |d.frames| + 1
    requires !w.stack[|d.frames|] && forall i :: 0 <= i < |d.frames| ==> w.stack[i]
    ensures Agrees(w, Push(d, f))
  {
    OpenedText(d, f);
    PushNested(d, f);
    assert !Busy(f) && !KeyPending(Push(d, f));
  }

  lemma OpenedWriter(r: Writer, d: Doc, f: Frame)
    requires ReadyForValue(r, d) && TakesValue(d) && Nested(d) && (f == InArray([]) || f == InObject([], None))
    ensures Agrees(Writer(r.out + FrameText(f), r.stack + [false], false), Push(d, f))
  {
    OpenedAgrees(Writer(r.out + FrameText(f), r.stack + [false], false), d, f);
  }

  lemma BeginAgrees(w: Writer, d: Doc, c: Call)
    requires Agrees(w, d) && Legal(d, c) && (c.BeginObject? || c.BeginArray?)
    ensures Agrees(Apply(w, c), Step(d, c))
  {
    BeforeValueReadies(w, d);
    var r, f := BeforeValue(w), if c.BeginObject? then InObject([], None) else InArray([]);
    OpenedWriter(r, d, f);
    assert FrameText(f) == if c.BeginObject? then "{" else "[";
    assert Apply(w, c) == Writer(r.out + FrameText(f), r.stack + [false], false);
  }

  lemma ItemText(items: seq<Json>, v: Json)
    ensures FrameText(InArray(items + [v])) == ParentText(InArray(items)) + Print(v)
  {
    PrintItemsAppend(items, v);
    Regroup("[", PrintItems(items) + Comma(items), Print(v));
    Regroup("[", PrintItems(items), Comma(items));
  }

  lemma RegroupMember(open: string, p: string, c: string, q: string, v: string)
    ensures open + (p + c + (q + ":" + v)) == (open + p + (c + q + ":")) + v
  {
    var left, right := open + (p + c + (q + ":" + v)), (open + p + (c + q + ":")) + v;
    assert |left| == |right|;
    assert forall i :: 0 <= i < |left| ==> left[i] == right[i];
  }

  lemma MemberText(members: seq<Member>, k: string, v: Json)
    ensures FrameText(InObject(members + [Member(k, v)], None)) == ParentText(InObject(members, Some(k))) + Print(v)
  {
    PrintMembersAppend(members, Member(k, v));
    RegroupMember("{", PrintMembers(members), Comma(members), Quote(k), Print(v));
    assert ParentText(InObject(members, Some(k))) == FrameText(InObject(members, Some(k)));
  }

  lemma KeyText(members: seq<Member>, k: string)
    ensures FrameText(InObject(members, Some(k)))
            == FrameText(InObject(members, None)) + (Comma(members) + (Quote(k) + ":"))
  {
    Regroup(Comma(members), Quote(k), ":");
  }

  /** The delivered value's text is the lead of its container followed by its own printing. */
  lemma DeliverText(d: Doc, v: Json)
    requires TakesValue(d) && Nested(d)
    ensures DocText(Deliver(d, v)) == Lead(d.frames) + Print(v)
  {
    if d.frames != [] {
      match Top(d)
      case InArray(items) =>
        ItemText(items, v);
        TopText(d, InArray(items + [v]), Print(v));
      case InObject(members, pending) =>
        MemberText(members, pending.value, v);
        TopText(d, InObject(members + [Member(pending.value, v)], None), Print(v));
    }
  }

  lemma TopText(d: Doc, f: Frame, more: string)
    requires d.frames != [] && d.result.None? && FrameText(f) == ParentText(Top(d)) + more
    ensures DocText(WithTop(d, f)) == Lead(d.frames) + more
  {
    var below := d.frames[..|d.frames| - 1];
    assert WithTop(d, f).frames[..|d.frames| - 1] == below;
    Regroup(Lead(below), ParentText(Top(d)), more);
  }

  /** A writer standing behind a complete value agrees with the document it was delivered to. */
  lemma DeliveredAgrees(w: Writer, d: Doc, v: Json)
    requires TakesValue(d) && Nested(d) && w.out == Lead(d.frames) + Print(v) && !w.justWroteKey
    requires |w.stack| == |d.frames| && forall i :: 0 <= i < |d.frames| ==> w.stack[i]
    ensures Agrees(w, Deliver(d, v))
  {
    DeliverText(d, v);
  }

  lemma EndAgrees(w: Writer, d: Doc, c: Call)
    requires Agrees(w, d) && Legal(d, c) && (c.EndObject? || c.EndArray?)
    ensures Defined(w, c)
    ensures Agrees(Apply(w, c), Step(d, c))
  {
    var v := if c.EndObject? then Obj(Top(d).members) else Arr(Top(d).items);
    assert FrameText(Top(d)) + (if c.EndObject? then "}" else "]") == Print(v);
    DeliveredAgrees(Apply(w, c), Pop(d), v);
  }

  lemma KeyDocText(d: Doc, k: string)
    requires Nested(d) && TakesKey(d)
    ensures DocText(Step(d, Key(k))) == DocText(d) + Comma(Top(d).members) + (Quote(k) + ":")
  {
    var below, members := d.frames[..|d.frames| - 1], Top(d).members;
    assert Step(d, Key(k)).frames[..|d.frames| - 1] == below;
    KeyText(members, k);
    Regroup(Lead(below), FrameText(Top(d)), Comma(members) + (Quote(k) + ":"));
    Regroup(DocText(d), Comma(members), Quote(k) + ":");
  }

  lemma KeyOut(w: Writer, d: Doc, k: string)
    requires Agrees(w, d) && TakesKey(d)
    ensures Apply(w, Key(k)).out == DocText(Step(d, Key(k)))
  {
    KeyDocText(d, k);
    assert w.out + (if Busy(Top(d)) then "," else "") == w.out + Comma(Top(d).members);
  }

  lemma KeyedTop(d: Doc, k: string)
    requires Nested(d) && TakesKey(d)
    ensures var d' := Step(d, Key(k));
      Nested(d') && |d'.frames| == |d.frames| && Busy(Top(d')) && KeyPending(d') && d'.result == d.result
  {
    StepKeepsNested(d, Key(k));
  }

  lemma KeyAgrees(w: Writer, d: Doc, k: string)
    requires Agrees(w, d) && TakesKey(d)
    ensures Agrees(Apply(w, Key(k)), Step(d, Key(k)))
  {
    KeyOut(w, d, k);
    KeyedTop(d, k);
    var w' := Apply(w, Key(k));
    assert w'.stack == w.stack[..|w.stack| - 1] + [true] && w'.justWroteKey;
  }

  lemma StepAgrees(w: Writer, d: Doc, c: Call)
    requires Agrees(w, d) && Legal(d, c)
    ensures Defined(w, c)
    ensures Agrees(Apply(w, c), Step(d, c))
  {
    match c
    case Key(k) => KeyAgrees(w, d, k);
    case Value(x) =>
      BeforeValueReadies(w, d);
      DeliveredAgrees(Apply(w, c), d, Leaf(x));
    case EndObject => EndAgrees(w, d, c);
    case EndArray => EndAgrees(w, d, c);
    case BeginObject => BeginAgrees(w, d, c);
    case BeginArray => BeginAgrees(w, d, c);
  }

  // ----- whole traces

  /** None once a container was ended that was never begun. */
  function Write(w: Option<Writer>, calls: seq<Call>): Option<Writer> {
    if calls == [] then w else
      var before := Write(w, calls[..|calls| - 1]);
      var c := calls[|calls| - 1];
      if before.Some? && Defined(before.value, c) then Some(Apply(before.value, c)) else None
  }

  lemma {:induction false} LegalTraceAgrees(calls: seq<Call>)
    requires Build(Some(EMPTY), calls).Some?
    ensures Write(Some(START), calls).Some?
    ensures Agrees(Write(Some(START), calls).value, Build(Some(EMPTY), calls).value)
  {
    if calls != [] {
      var last := |calls| - 1;
      LegalTraceAgrees(calls[..last]);
      StepAgrees(Write(Some(START), calls[..last]).value, Build(Some(EMPTY), calls[..last]).value, calls[last]);
    }
  }

  /**
   * Every legal complete trace leaves exactly the compact printing of the one tree it
   * spells, an empty stack, and no key pending.
   */
  lemma CompleteTracePrintsTree(calls: seq<Call>, v: Json)
    requires Build(Some(EMPTY), calls) == Some(Doc([], Some(v)))
    ensures Write(Some(START), calls) == Some(Writer(Print(v), [], false))
    ensures calls == CallsOf(v)
  {
    LegalTraceAgrees(calls);
    CompleteTraceIff(calls, v);
  }

  // ----- the class

  /** What a stream prints for a double; NaN and the infinities have no such text. */
  datatype Double = NonFinite | Finite(text: string)

  function DoubleScalar(v: Double): Scalar {
    match v
    case NonFinite => Null
    case Finite(text) => Num(text)
  }

  class Stream {
    var out: string
    var stack: seq<bool>
    var justWroteKey: bool
    ghost var doc: Option<Doc>

    ghost function State(): Writer
      reads this
    {
      Writer(out, stack, justWroteKey)
    }

    /** As long as all calls were legal, the output is the text of the document so far. */
    ghost predicate Valid()
      reads this
    {
      forall d {:trigger Agrees(State(), d)} :: doc == Some(d) ==> Agrees(State(), d)
    }

    constructor ()
      ensures Valid() && State() == START && doc == Some(EMPTY)
    {
      out, stack, justWroteKey := "", [], false;
      doc := Some(EMPTY);
    }

    ghost method Record(before: Writer, c: Call)
      requires doc.Some? ==> Agrees(before, doc.value)
      requires Defined(before, c) && State() == Apply(before, c)
      modifies this`doc
      ensures doc == Track(old(doc), c) && Valid()
    {
      if doc.Some? && Legal(doc.value, c) {
        StepAgrees(before, doc.value, c);
      }
      doc := Track(doc, c);
    }

    static method EscapeText(s: string) returns (r: string)
      ensures r == Escape(s)
    {
      r := "";
      for i := 0 to |s|
        invariant r == Escape(s[..i])
      {
        EscapeAppend(s[..i], s[i]);
        assert s[..i + 1] == s[..i] + [s[i]];
        if s[i] == '"' || s[i] == '\\' {
          r := r + ['\\'];
        }
        r := r + [s[i]];
      }
      assert s[..|s|] == s;
    }

    method WriteCommaIfNeeded()
      modifies this`out, this`stack
      ensures State() == CommaIfNeeded(old(State()))
    {
      if stack != [] {
        if stack[|stack| - 1] {
          out := out + ",";
        }
        stack := stack[..|stack| - 1] + [true];
      }
    }

    method WriteBeforeValue()
      modifies this`out, this`stack, this`justWroteKey
      ensures State() == BeforeValue(old(State()))
    {
      if justWroteKey {
        justWroteKey := false;
        return;
      }
      WriteCommaIfNeeded();
    }

    method WriteBeginObject()
      requires Valid()
      modifies this
      ensures Valid() && State() == Apply(old(State()), BeginObject) && doc == Track(old(doc), BeginObject)
    {
      WriteBeforeValue();
      out := out + "{";
      stack := stack + [false];
      Record(old(State()), BeginObject);
    }

    method WriteEndObject()
      requires Valid() && stack != []
      modifies this
      ensures Valid() && State() == Apply(old(State()), EndObject) && doc == Track(old(doc), EndObject)
    {
      stack := stack[..|stack| - 1];
      out := out + "}";
      Record(old(State()), EndObject);
    }

    method WriteBeginArray()
      requires Valid()
      modifies this
      ensures Valid() && State() == Apply(old(State()), BeginArray) && doc == Track(old(doc), BeginArray)
    {
      WriteBeforeValue();
      out := out + "[";
      stack := stack + [false];
      Record(old(State()), BeginArray);
    }

    method WriteEndArray()
      requires Valid() && stack != []
      modifies this
      ensures Valid() && State() == Apply(old(State()), EndArray) && doc == Track(old(doc), EndArray)
    {
      stack := stack[..|stack| - 1];
      out := out + "]";
      Record(old(State()), EndArray);
    }

    method WriteKey(k: string)
      requires Valid()
      modifies this
      ensures Valid() && State() == Apply(old(State()), Key(k)) && doc == Track(old(doc), Key(k))
    {
      WriteCommaIfNeeded();
      var escaped := EscapeText(k);
      out := out + ("\"" + escaped + "\"" + ":");
      justWroteKey := true;
      Record(old(State()), Key(k));
    }

    /** The value overloads: the text of the scalar behind whatever separator is due. */
    method WriteValue(x: Scalar)
      requires Valid()
      modifies this
      ensures Valid() && State() == Apply(old(State()), Value(x)) && doc == Track(old(doc), Value(x))
    {
      WriteBeforeValue();
      match x {
        case Str(s) =>
          var escaped := EscapeText(s);
          out := out + ("\"" + escaped + "\"");
        case Num(text) => out := out + text;
        case Bool(b) => out := out + (if b then "true" else "false");
        case Null => out := out + "null";
      }
      Record(old(State()), Value(x));
    }

    method WriteKv(k: string, x: Scalar)
      requires Valid()
      modifies this
      ensures Valid() && State() == Apply(Apply(old(State()), Key(k)), Value(x))
      ensures doc == Track(Track(old(doc), Key(k)), Value(x))
    {
      WriteKey(k);
      WriteValue(x);
    }
  }
}
