/**
 Which call sequences are legal, and the document each of them builds. The writer itself
 keeps only one flag per open container; this is the ghost view that also knows objects
 from arrays.
 */
module JsonProtocol {
  import opened Arith
  import opened Json
  import opened Wrappers

  /** An open container: what is complete in it, and the key whose value is awaited. */
  datatype Frame = InArray(items: seq<Json>) | InObject(members: seq<Member>, pending: Option<string>)

  /** The open containers, outermost first, and the finished top-level value. */
  datatype Doc = Doc(frames: seq<Frame>, result: Option<Json>)

  const EMPTY := Doc([], None)

  function Top(d: Doc): Frame
    requires d.frames != []
  {
    d.frames[|d.frames| - 1]
  }

  function WithTop(d: Doc, f: Frame): Doc
    requires d.frames != []
  {
    d.(frames := d.frames[..|d.frames| - 1] + [f])
  }

  function Push(d: Doc, f: Frame): Doc {
    d.(frames := d.frames + [f])
  }

  function Pop(d: Doc): Doc
    requires d.frames != []
  {
    d.(frames := d.frames[..|d.frames| - 1])
  }

  predicate Awaits(f: Frame) {
    f.InArray? || f.pending.Some?
  }

  /** A value may come: at the top level once, in an array, in an object after its key. */
  predicate TakesValue(d: Doc) {
    d.result.None? && (d.frames == [] || Awaits(Top(d)))
  }

  predicate TakesKey(d: Doc) {
    d.frames != [] && Top(d).InObject? && Top(d).pending.None?
  }

  function Deliver(d: Doc, v: Json): Doc
    requires TakesValue(d)
  {
    if d.frames == [] then d.(result := Some(v)) else
      match Top(d)
      case InArray(items) => WithTop(d, InArray(items + [v]))
      case InObject(members, pending) => WithTop(d, InObject(members + [Member(pending.value, v)], None))
  }

  predicate Legal(d: Doc, c: Call) {
    match c
    case BeginObject => TakesValue(d)
    case BeginArray => TakesValue(d)
    case EndObject => TakesKey(d) && TakesValue(Pop(d))
    case EndArray => d.frames != [] && Top(d).InArray? && TakesValue(Pop(d))
    case Key(k) => TakesKey(d)
    case Value(x) => TakesValue(d)
  }

  function Step(d: Doc, c: Call): Doc
    requires Legal(d, c)
  {
    match c
    case BeginObject => Push(d, InObject([], None))
    case BeginArray => Push(d, InArray([]))
    case EndObject => Deliver(Pop(d), Obj(Top(d).members))
    case EndArray => Deliver(Pop(d), Arr(Top(d).items))
    case Key(k) => WithTop(d, Top(d).(pending := Some(k)))
    case Value(x) => Deliver(d, Leaf(x))
  }

  /** None once an illegal call has been made. */
  function Track(d: Option<Doc>, c: Call): Option<Doc> {
    if d.Some? && Legal(d.value, c) then Some(Step(d.value, c)) else None
  }

  function Build(d: Option<Doc>, calls: seq<Call>): Option<Doc> {
    if calls == [] then d else Track(Build(d, calls[..|calls| - 1]), calls[|calls| - 1])
  }

  /** Every container but the innermost is waiting for the one inside it. */
  ghost predicate Nested(d: Doc) {
    && (d.result.Some? ==> d.frames == [])
    && forall i :: 0 <= i < |d.frames| - 1 ==> Awaits(d.frames[i])
  }

  lemma StepKeepsNested(d: Doc, c: Call)
    requires Nested(d) && Legal(d, c)
    ensures Nested(Step(d, c))
  {
  }

  // ----- legal traces and trees correspond one to one

  function FrameCalls(f: Frame): seq<Call> {
    match f
    case InArray(items) => [BeginArray] + CallsOfItems(items)
    case InObject(members, pending) =>
      [BeginObject] + CallsOfMembers(members) + if pending.Some? then [Key(pending.value)] else []
  }

  function FramesCalls(frames: seq<Frame>): seq<Call> {
    if frames == [] then [] else FramesCalls(frames[..|frames| - 1]) + FrameCalls(frames[|frames| - 1])
  }

  /** The only calls that can have led to a document. */
  function CallsSoFar(d: Doc): seq<Call> {
    if d.result.Some? then CallsOf(d.result.value) else FramesCalls(d.frames)
  }

  lemma FramesCallsPush(frames: seq<Frame>, f: Frame)
    ensures FramesCalls(frames + [f]) == FramesCalls(frames) + FrameCalls(f)
  {
    assert (frames + [f])[..|frames|] == frames;
  }

  lemma ItemCompletesFrame(items: seq<Json>, v: Json)
    ensures FrameCalls(InArray(items + [v])) == FrameCalls(InArray(items)) + CallsOf(v)
  {
    CallsOfItemsAppend(items, v);
  }

  lemma MemberCompletesFrame(members: seq<Member>, k: string, v: Json)
    ensures FrameCalls(InObject(members + [Member(k, v)], None))
            == FrameCalls(InObject(members, Some(k))) + CallsOf(v)
  {
    CallsOfMembersAppend(members, Member(k, v));
    var calls := CallsOfMembers(members);
    Regroup([BeginObject], calls, [Key(k)]);
    Regroup([BeginObject], calls + [Key(k)], CallsOf(v));
    NothingPending(members + [Member(k, v)]);
  }

  lemma NothingPending(members: seq<Member>)
    ensures FrameCalls(InObject(members, None)) == [BeginObject] + CallsOfMembers(members)
  {
  }

  lemma TopCalls(d: Doc, f: Frame)
    requires d.frames != [] && d.result.None?
    ensures CallsSoFar(d) == FramesCalls(d.frames[..|d.frames| - 1]) + FrameCalls(Top(d))
    ensures CallsSoFar(WithTop(d, f)) == FramesCalls(d.frames[..|d.frames| - 1]) + FrameCalls(f)
  {
    FramesCallsPush(d.frames[..|d.frames| - 1], f);
  }

  lemma TopGrows(d: Doc, f: Frame, more: seq<Call>)
    requires d.frames != [] && d.result.None? && FrameCalls(f) == FrameCalls(Top(d)) + more
    ensures CallsSoFar(WithTop(d, f)) == CallsSoFar(d) + more
  {
    TopCalls(d, f);
    Regroup(FramesCalls(d.frames[..|d.frames| - 1]), FrameCalls(Top(d)), more);
  }

  lemma DeliverCalls(d: Doc, v: Json)
    requires TakesValue(d)
    ensures CallsSoFar(Deliver(d, v)) == CallsSoFar(d) + CallsOf(v)
  {
    if d.frames != [] {
      match Top(d)
      case InArray(items) =>
        ItemCompletesFrame(items, v);
        TopGrows(d, InArray(items + [v]), CallsOf(v));
      case InObject(members, pending) =>
        MemberCompletesFrame(members, pending.value, v);
        TopGrows(d, InObject(members + [Member(pending.value, v)], None), CallsOf(v));
    }
  }

  /** Ending a container turns its calls so far into the calls of the finished value. */
  lemma CloseCalls(d: Doc, v: Json, c: Call)
    requires d.frames != [] && d.result.None? && TakesValue(Pop(d)) && Nested(d)
    requires CallsOf(v) == FrameCalls(Top(d)) + [c]
    ensures CallsSoFar(Deliver(Pop(d), v)) == CallsSoFar(d) + [c]
  {
    DeliverCalls(Pop(d), v);
    Regroup(FramesCalls(d.frames[..|d.frames| - 1]), FrameCalls(Top(d)), [c]);
  }

  lemma StepCalls(d: Doc, c: Call)
    requires Nested(d) && Legal(d, c)
    ensures CallsSoFar(Step(d, c)) == CallsSoFar(d) + [c]
  {
    match c
    case BeginObject => FramesCallsPush(d.frames, InObject([], None));
    case BeginArray => FramesCallsPush(d.frames, InArray([]));
    case EndObject => CloseCalls(d, Obj(Top(d).members), c);
    case EndArray => CloseCalls(d, Arr(Top(d).items), c);
    case Key(k) => TopGrows(d, Top(d).(pending := Some(k)), [c]);
    case Value(x) => DeliverCalls(d, Leaf(x));
  }

  ghost predicate ReachedBy(d: Option<Doc>, calls: seq<Call>) {
    d.Some? ==> Nested(d.value) && calls == CallsSoFar(d.value)
  }

  lemma TrackKeepsReached(d: Option<Doc>, calls: seq<Call>, c: Call)
    requires ReachedBy(d, calls)
    ensures ReachedBy(Track(d, c), calls + [c])
  {
    if d.Some? && Legal(d.value, c) {
      StepKeepsNested(d.value, c);
      StepCalls(d.value, c);
    }
  }

  lemma {:induction false} TraceIsDetermined(calls: seq<Call>)
    ensures ReachedBy(Build(Some(EMPTY), calls), calls)
  {
    if calls != [] {
      var last := |calls| - 1;
      TraceIsDetermined(calls[..last]);
      TrackKeepsReached(Build(Some(EMPTY), calls[..last]), calls[..last], calls[last]);
      assert calls == calls[..last] + [calls[last]];
    }
  }

  lemma {:induction false} BuildConcat(d: Option<Doc>, a: seq<Call>, b: seq<Call>)
    ensures Build(d, a + b) == Build(Build(d, a), b)
  {
    if b == [] {
      assert a + b == a;
    } else {
      assert (a + b)[..|a + b| - 1] == a + b[..|b| - 1];
      BuildConcat(d, a, b[..|b| - 1]);
    }
  }

  lemma BuildThree(d0: Option<Doc>, a: seq<Call>, d1: Option<Doc>, b: seq<Call>, d2: Option<Doc>, c: seq<Call>)
    requires Build(d0, a) == d1 && Build(d1, b) == d2
    ensures Build(d0, a + b + c) == Build(d2, c)
  {
    BuildConcat(d0, a, b);
    BuildConcat(d0, a + b, c);
  }

  lemma BuildOne(d: Doc, c: Call)
    requires Legal(d, c)
    ensures Build(Some(d), [c]) == Some(Step(d, c))
  {
    assert [c][..0] == [];
  }

  lemma EndsDeliver(d: Doc, items: seq<Json>, members: seq<Member>)
    requires TakesValue(d)
    ensures Build(Some(Push(d, InArray(items))), [EndArray]) == Some(Deliver(d, Arr(items)))
    ensures Build(Some(Push(d, InObject(members, None))), [EndObject]) == Some(Deliver(d, Obj(members)))
  {
    assert Pop(Push(d, InArray(items))) == d;
    assert Pop(Push(d, InObject(members, None))) == d;
    BuildOne(Push(d, InArray(items)), EndArray);
    BuildOne(Push(d, InObject(members, None)), EndObject);
  }

  /** The calls of a tree deliver that tree wherever a value may come. */
  lemma {:induction false} CallsDeliverTree(d: Doc, v: Json)
    requires TakesValue(d)
    ensures Build(Some(d), CallsOf(v)) == Some(Deliver(d, v))
    decreases v, 1
  {
    match v
    case Leaf(x) =>
      BuildOne(d, Value(x));
    case Arr(items) =>
      BuildOne(d, BeginArray);
      BuildConcat(Some(d), [BeginArray], CallsOfItems(items));
      CallsDeliverItems(d, [], items);
      assert [] + items == items;
      EndsDeliver(d, items, []);
      BuildConcat(Some(d), [BeginArray] + CallsOfItems(items), [EndArray]);
    case Obj(members) =>
      BuildOne(d, BeginObject);
      BuildConcat(Some(d), [BeginObject], CallsOfMembers(members));
      CallsDeliverMembers(d, [], members);
      assert [] + members == members;
      EndsDeliver(d, [], members);
      BuildConcat(Some(d), [BeginObject] + CallsOfMembers(members), [EndObject]);
  }

  lemma ItemDelivers(d: Doc, done: seq<Json>, v: Json)
    requires TakesValue(d)
    ensures TakesValue(Push(d, InArray(done)))
    ensures Deliver(Push(d, InArray(done)), v) == Push(d, InArray(done + [v]))
  {
  }

  lemma {:induction false} CallsDeliverItems(d: Doc, done: seq<Json>, items: seq<Json>)
    requires TakesValue(d)
    ensures Build(Some(Push(d, InArray(done))), CallsOfItems(items)) == Some(Push(d, InArray(done + items)))
    decreases items, 0
  {
    if items == [] {
      assert done + items == done;
    } else {
      var v, rest := items[0], items[1..];
      ItemDelivers(d, done, v);
      CallsDeliverTree(Push(d, InArray(done)), v);
      CallsDeliverItems(d, done + [v], rest);
      BuildConcat(Some(Push(d, InArray(done))), CallsOf(v), CallsOfItems(rest));
      Regroup(done, [v], rest);
      assert [v] + rest == items;
    }
  }

  lemma KeyThenValue(d: Doc, done: seq<Member>, m: Member)
    requires TakesValue(d)
    ensures Build(Some(Push(d, InObject(done, None))), [Key(m.key)]) == Some(Push(d, InObject(done, Some(m.key))))
    ensures Deliver(Push(d, InObject(done, Some(m.key))), m.val) == Push(d, InObject(done + [m], None))
  {
    BuildOne(Push(d, InObject(done, None)), Key(m.key));
  }

  lemma {:induction false} CallsDeliverMembers(d: Doc, done: seq<Member>, members: seq<Member>)
    requires TakesValue(d)
    ensures Build(Some(Push(d, InObject(done, None))), CallsOfMembers(members))
            == Some(Push(d, InObject(done + members, None)))
    decreases members, 0
  {
    if members == [] {
      assert done + members == done;
    } else {
      var m, rest := members[0], members[1..];
      KeyThenValue(d, done, m);
      CallsDeliverTree(Push(d, InObject(done, Some(m.key))), m.val);
      CallsDeliverMembers(d, done + [m], rest);
      BuildThree(Some(Push(d, InObject(done, None))), [Key(m.key)], Some(Push(d, InObject(done, Some(m.key)))),
                 CallsOf(m.val), Some(Push(d, InObject(done + [m], None))), CallsOfMembers(rest));
      Regroup(done, [m], rest);
      assert [m] + rest == members;
    }
  }

  /** A call sequence is a legal, complete document for v exactly when it is the calls of v. */
  lemma CompleteTraceIff(calls: seq<Call>, v: Json)
    ensures Build(Some(EMPTY), calls) == Some(Doc([], Some(v))) <==> calls == CallsOf(v)
  {
    CallsDeliverTree(EMPTY, v);
    if Build(Some(EMPTY), calls) == Some(Doc([], Some(v))) {
      TraceIsDetermined(calls);
    }
  }
}
