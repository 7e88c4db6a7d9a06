/**
 One step of the multi-threaded sweep in ram_bench.cpp as a transition system: main
 spawns t workers, reads the clock, releases them through the go flag, joins them and
 reads the clock again; each worker spins on go, reads the clock, runs its kernel pass by
 pass until its time is up, and stores its byte count in its own slot.
 */
module SweepProtocol {
  import opened Arith
  import opened Clock

  /** Buffer sizes of the workers, and the time each kernel has to run. */
  datatype Config = Config(bytes: seq<nat>, duration: nat)

  datatype WorkerPc = Unspawned | Spinning | Released | Running | Testing | Storing | Exited

  datatype Worker = Worker(pc: WorkerPc, start: nat, passes: nat, end: nat)

  datatype MainPc = Spawning | Releasing | Joining | Done

  datatype State = State(
    now: nat,
    go: bool,
    main: MainPc,
    spawned: nat,
    joined: nat,
    wallStart: nat,
    wallEnd: nat,
    workers: seq<Worker>,
    slots: seq<nat>)

  /** One atomic step. Tick lets time pass; every clock reading takes the current time. */
  datatype Action =
    | Tick(to: nat)
    | Spawn | ReadWallStart | Release | Join | ReadWallEnd
    | Spin(i: nat) | SeeGo(i: nat) | ReadStart(i: nat) | Pass(i: nat) | Test(i: nat) | Store(i: nat)

  function Initial(c: Config): State {
    State(0, false, Spawning, 0, 0, 0, 0,
          seq(|c.bytes|, _ => Worker(Unspawned, 0, 0, 0)),
          seq(|c.bytes|, _ => 0))
  }

  predicate WorkerAt(s: State, i: nat, pc: WorkerPc) {
    i < |s.workers| && s.workers[i].pc == pc
  }

  predicate Enabled(c: Config, s: State, a: Action) {
    match a
    case Tick(to) => s.now <= to
    case Spawn => s.main.Spawning? && s.spawned < |s.workers|
    case ReadWallStart => s.main.Spawning? && s.spawned == |s.workers|
    case Release => s.main.Releasing?
    case Join => s.main.Joining? && WorkerAt(s, s.joined, Exited)
    case ReadWallEnd => s.main.Joining? && s.joined == |s.workers|
    case Spin(i) => WorkerAt(s, i, Spinning) && !s.go
    case SeeGo(i) => WorkerAt(s, i, Spinning) && s.go
    case ReadStart(i) => WorkerAt(s, i, Released)
    case Pass(i) => WorkerAt(s, i, Running)
    case Test(i) => WorkerAt(s, i, Testing)
    case Store(i) => WorkerAt(s, i, Storing) && |s.slots| == |s.workers| == |c.bytes|
  }

  /** The byte count a worker has moved, and what a uint64_t keeps of it. */
  function Work(c: Config, s: State, i: nat): nat
    requires i < |c.bytes| == |s.workers|
  {
    s.workers[i].passes * c.bytes[i]
  }

  function With(s: State, i: nat, w: Worker): State
    requires i < |s.workers|
  {
    s.(workers := s.workers[i := w])
  }

  function Next(c: Config, s: State, a: Action): State
    requires Enabled(c, s, a)
  {
    match a
    case Tick(to) => s.(now := to)
    case Spawn => With(s, s.spawned, s.workers[s.spawned].(pc := Spinning)).(spawned := s.spawned + 1)
    case ReadWallStart => s.(wallStart := s.now, main := Releasing)
    case Release => s.(go := true, main := Joining)
    case Join => s.(joined := s.joined + 1)
    case ReadWallEnd => s.(wallEnd := s.now, main := Done)
    case Spin(i) => s
    case SeeGo(i) => With(s, i, s.workers[i].(pc := Released))
    case ReadStart(i) => With(s, i, s.workers[i].(pc := Running, start := s.now))
    case Pass(i) => With(s, i, s.workers[i].(pc := Testing, passes := s.workers[i].passes + 1))
    case Test(i) =>
      if s.now - s.workers[i].start < c.duration then With(s, i, s.workers[i].(pc := Running))
      else With(s, i, s.workers[i].(pc := Storing, end := s.now))
    case Store(i) =>
      With(s, i, s.workers[i].(pc := Exited)).(slots := s.slots[i := Work(c, s, i) % UINT64])
  }

  /** s is where the run takes the system; every action was enabled when it was taken. */
  ghost predicate Run(c: Config, actions: seq<Action>, s: State) {
    if actions == [] then s == Initial(c) else
      var last := |actions| - 1;
      exists before :: Run(c, actions[..last], before)
                       && Enabled(c, before, actions[last]) && s == Next(c, before, actions[last])
  }

  // ----- the invariant

  predicate Past(pc: WorkerPc) {
    pc.Released? || pc.Running? || pc.Testing? || pc.Storing? || pc.Exited?
  }

  predicate Timed(pc: WorkerPc) {
    pc.Running? || pc.Testing? || pc.Storing? || pc.Exited?
  }

  predicate Finished(pc: WorkerPc) {
    pc.Storing? || pc.Exited?
  }

  predicate WorkerOk(c: Config, s: State, i: nat)
    requires i < |s.workers| == |s.slots| == |c.bytes|
  {
    var w := s.workers[i];
    && (w.pc.Unspawned? <==> s.spawned <= i)
    && (Past(w.pc) ==> s.go)
    && (Timed(w.pc) ==> s.wallStart <= w.start <= s.now)
    && (Finished(w.pc) ==> w.start + c.duration <= w.end <= s.now && w.passes >= 1)
    && (w.pc.Testing? ==> w.passes >= 1)
    && (!Timed(w.pc) ==> w.passes == 0)
    && (i < s.joined ==> w.pc.Exited?)
    && s.slots[i] == (if w.pc.Exited? then Work(c, s, i) % UINT64 else 0)
    && (s.main.Done? ==> w.pc.Exited? && w.end <= s.wallEnd)
  }

  ghost predicate Inv(c: Config, s: State) {
    && |s.workers| == |s.slots| == |c.bytes|
    && s.joined <= s.spawned <= |s.workers|
    && (s.go <==> s.main.Joining? || s.main.Done?)
    && (!s.main.Spawning? ==> s.spawned == |s.workers| && s.wallStart <= s.now)
    && (s.main.Done? ==> s.joined == |s.workers| && s.wallStart <= s.wallEnd <= s.now)
    && (!s.go ==> s.joined == 0)
    && forall i :: 0 <= i < |s.workers| ==> WorkerOk(c, s, i)
  }

  lemma StepKeepsWorker(c: Config, s: State, a: Action, i: nat)
    requires Inv(c, s) && Enabled(c, s, a) && i < |s.workers|
    ensures |Next(c, s, a).workers| == |Next(c, s, a).slots| == |c.bytes|
    ensures WorkerOk(c, Next(c, s, a), i)
  {
    assert WorkerOk(c, s, i);
  }

  lemma StepKeepsInv(c: Config, s: State, a: Action)
    requires Inv(c, s) && Enabled(c, s, a)
    ensures Inv(c, Next(c, s, a))
  {
    var s' := Next(c, s, a);
    forall i: nat | i < |s.workers|
      ensures WorkerOk(c, s', i)
    {
      StepKeepsWorker(c, s, a, i);
    }
    if a.Join? {
      assert WorkerOk(c, s, s.joined);
    }
  }

  lemma {:induction false} RunKeepsInv(c: Config, actions: seq<Action>, s: State)
    requires Run(c, actions, s)
    ensures Inv(c, s)
  {
    if actions != [] {
      var last := |actions| - 1;
      var before :| Run(c, actions[..last], before)
                    && Enabled(c, before, actions[last]) && s == Next(c, before, actions[last]);
      RunKeepsInv(c, actions[..last], before);
      StepKeepsInv(c, before, actions[last]);
    }
  }

  // ----- safety

  /** In every interleaving, no kernel pass is made before all workers exist and go is set. */
  lemma NoKernelBeforeGo(c: Config, actions: seq<Action>, s: State, i: nat)
    requires Run(c, actions, s) && i < |s.workers|
    requires s.workers[i].passes > 0 || Past(s.workers[i].pc)
    ensures s.go && s.spawned == |c.bytes|
    ensures forall j :: 0 <= j < |s.workers| ==> !s.workers[j].pc.Unspawned?
  {
    RunKeepsInv(c, actions, s);
    assert WorkerOk(c, s, i);
    forall j | 0 <= j < |s.workers|
      ensures !s.workers[j].pc.Unspawned?
    {
      assert WorkerOk(c, s, j);
    }
  }

  /** At the end every worker's clock interval lies in main's, and none is shorter than asked. */
  lemma IntervalsNest(c: Config, actions: seq<Action>, s: State, i: nat)
    requires Run(c, actions, s) && s.main.Done? && i < |c.bytes|
    ensures |s.workers| == |c.bytes|
    ensures s.wallStart <= s.workers[i].start
    ensures s.workers[i].start + c.duration <= s.workers[i].end <= s.wallEnd
    ensures c.duration <= s.wallEnd - s.wallStart
  {
    RunKeepsInv(c, actions, s);
    assert WorkerOk(c, s, i);
  }

  function Stores(actions: seq<Action>, i: nat): nat {
    if actions == [] then 0 else
      var last := |actions| - 1;
      Stores(actions[..last], i) + if actions[last] == Store(i) then 1 else 0
  }

  /** A step changes slot i only if it is worker i's own store. */
  lemma OnlyOwnerWrites(c: Config, s: State, a: Action, i: nat)
    requires Inv(c, s) && Enabled(c, s, a) && i < |s.slots|
    ensures |Next(c, s, a).slots| == |s.slots|
    ensures a != Store(i) ==> Next(c, s, a).slots[i] == s.slots[i]
    ensures a == Store(i) ==> s.slots[i] == 0 && Next(c, s, a).slots[i] == Work(c, s, i) % UINT64
  {
    assert WorkerOk(c, s, i);
  }

  lemma ExitIsStore(c: Config, s: State, a: Action, i: nat)
    requires Inv(c, s) && Enabled(c, s, a) && i < |s.workers|
    ensures |Next(c, s, a).workers| == |s.workers|
    ensures Next(c, s, a).workers[i].pc.Exited? <==> s.workers[i].pc.Exited? || a == Store(i)
    ensures a == Store(i) ==> !s.workers[i].pc.Exited?
  {
    assert WorkerOk(c, s, i);
  }

  /** Each slot has been stored exactly once by then if its worker has exited, and never before. */
  lemma {:induction false} StoredOnce(c: Config, actions: seq<Action>, s: State, i: nat)
    requires Run(c, actions, s) && i < |s.workers|
    ensures Stores(actions, i) == if s.workers[i].pc.Exited? then 1 else 0
  {
    if actions != [] {
      var last := |actions| - 1;
      var before :| Run(c, actions[..last], before)
                    && Enabled(c, before, actions[last]) && s == Next(c, before, actions[last]);
      RunKeepsInv(c, actions[..last], before);
      ExitIsStore(c, before, actions[last], i);
      StoredOnce(c, actions[..last], before, i);
    }
  }

  /** In every completed run each slot was stored exactly once, and holds its worker's own count. */
  lemma EverySlotStoredOnce(c: Config, actions: seq<Action>, s: State, i: nat)
    requires Run(c, actions, s) && s.main.Done? && i < |c.bytes|
    ensures |s.workers| == |s.slots| == |c.bytes|
    ensures Stores(actions, i) == 1 && s.slots[i] == Work(c, s, i) % UINT64 && s.workers[i].passes >= 1
  {
    RunKeepsInv(c, actions, s);
    assert WorkerOk(c, s, i);
    StoredOnce(c, actions, s, i);
  }

  // ----- the clock readings of a worker

  /** The time at the end of a run. */
  function TimeAfter(actions: seq<Action>): nat {
    if actions == [] then 0 else
      var last := |actions| - 1;
      if actions[last].Tick? then actions[last].to else TimeAfter(actions[..last])
  }

  /** The time at which an action was taken, for the last time if it was taken more than once. */
  function TimeOf(actions: seq<Action>, a: Action): nat {
    if actions == [] then 0 else
      var last := |actions| - 1;
      if actions[last] == a then TimeAfter(actions[..last]) else TimeOf(actions[..last], a)
  }

  /** The time is what the last tick said, and an action happens at the time of the steps before it. */
  lemma {:induction false} TimesMeaning(actions: seq<Action>, k: nat, a: Action)
    requires k < |actions|
    ensures (forall j :: k < j < |actions| ==> !actions[j].Tick?) && actions[k].Tick?
            ==> TimeAfter(actions) == actions[k].to
    ensures (forall j :: k < j < |actions| ==> actions[j] != a) && actions[k] == a
            ==> TimeOf(actions, a) == TimeAfter(actions[..k])
  {
    var last := |actions| - 1;
    if k < last {
      TimesMeaning(actions[..last], k, a);
      assert actions[..last][..k] == actions[..k];
    }
  }

  /** Before the first tick it is 0. */
  lemma {:induction false} NoTickNoTime(actions: seq<Action>)
    requires forall j :: 0 <= j < |actions| ==> !actions[j].Tick?
    ensures TimeAfter(actions) == 0
  {
    if actions != [] {
      NoTickNoTime(actions[..|actions| - 1]);
    }
  }

  /** What it read at its stop tests, one after the other. */
  function TestTimes(actions: seq<Action>, i: nat): seq<nat> {
    if actions == [] then [] else
      var last := |actions| - 1;
      TestTimes(actions[..last], i) + if actions[last] == Test(i) then [TimeAfter(actions[..last])] else []
  }

  /** The readings of worker i's kernel loop; it ends with the last of them. */
  function WorkerTimer(c: Config, actions: seq<Action>, i: nat): Timer {
    var tests := TestTimes(actions, i);
    Timer(TimeOf(actions, ReadStart(i)), c.duration, tests, if tests == [] then 0 else tests[|tests| - 1])
  }

  /** The readings up to now are those of a do-while loop that has made the worker's passes. */
  ghost predicate ReadingsFit(c: Config, w: Worker, start: nat, tests: seq<nat>) {
    && (Timed(w.pc) ==> w.start == start)
    && |tests| == (if w.pc.Testing? then w.passes - 1 else w.passes)
    && (forall k :: 0 <= k < |tests| ==> start <= tests[k])
    && (forall k :: 0 <= k < |tests| - 1 ==> tests[k] - start < c.duration)
    && (!Finished(w.pc) && tests != [] ==> tests[|tests| - 1] - start < c.duration)
    && (Finished(w.pc) ==> tests != [] && tests[|tests| - 1] == w.end && c.duration <= w.end - start)
  }

  /** A stop test adds the current time, and ends the loop if that is late enough. */
  lemma TestKeepsReadings(c: Config, w: Worker, now: nat, start: nat, tests: seq<nat>)
    requires w.pc.Testing? && w.passes >= 1 && start <= now && ReadingsFit(c, w, start, tests)
    ensures now - start < c.duration ==> ReadingsFit(c, w.(pc := Running), start, tests + [now])
    ensures now - start >= c.duration ==> ReadingsFit(c, w.(pc := Storing, end := now), start, tests + [now])
  {
  }

  lemma StepKeepsReadings(c: Config, s: State, a: Action, i: nat, start: nat, tests: seq<nat>)
    requires Inv(c, s) && Enabled(c, s, a) && i < |s.workers| && ReadingsFit(c, s.workers[i], start, tests)
    ensures |Next(c, s, a).workers| == |s.workers|
    ensures ReadingsFit(c, Next(c, s, a).workers[i], if a == ReadStart(i) then s.now else start,
                        tests + if a == Test(i) then [s.now] else [])
  {
    assert WorkerOk(c, s, i);
    if a == Test(i) {
      TestKeepsReadings(c, s.workers[i], s.now, start, tests);
    } else {
      assert tests + [] == tests;
    }
  }

  lemma {:induction false} RunTime(c: Config, actions: seq<Action>, s: State)
    requires Run(c, actions, s)
    ensures s.now == TimeAfter(actions)
  {
    if actions != [] {
      var last := |actions| - 1;
      var before :| Run(c, actions[..last], before)
                    && Enabled(c, before, actions[last]) && s == Next(c, before, actions[last]);
      RunTime(c, actions[..last], before);
    }
  }

  lemma LastStep(c: Config, actions: seq<Action>, s: State) returns (before: State)
    requires Run(c, actions, s) && actions != []
    ensures var last := |actions| - 1;
      && Run(c, actions[..last], before) && Inv(c, before) && before.now == TimeAfter(actions[..last])
      && Enabled(c, before, actions[last]) && s == Next(c, before, actions[last])
  {
    var last := |actions| - 1;
    before :| Run(c, actions[..last], before)
              && Enabled(c, before, actions[last]) && s == Next(c, before, actions[last]);
    RunKeepsInv(c, actions[..last], before);
    RunTime(c, actions[..last], before);
  }

  lemma {:induction false} RunKeepsReadings(c: Config, actions: seq<Action>, s: State, i: nat)
    requires Run(c, actions, s) && i < |s.workers|
    ensures ReadingsFit(c, s.workers[i], TimeOf(actions, ReadStart(i)), TestTimes(actions, i))
  {
    if actions != [] {
      var last := |actions| - 1;
      var before := LastStep(c, actions, s);
      assert |before.workers| == |s.workers| by { StepKeepsInv(c, before, actions[last]); }
      RunKeepsReadings(c, actions[..last], before, i);
      var start, tests := TimeOf(actions[..last], ReadStart(i)), TestTimes(actions[..last], i);
      StepKeepsReadings(c, before, actions[last], i, start, tests);
    }
  }

  /** Main's wall interval begins and ends with its own two clock readings. */
  lemma {:induction false} WallReadings(c: Config, actions: seq<Action>, s: State)
    requires Run(c, actions, s)
    ensures !s.main.Spawning? ==> s.wallStart == TimeOf(actions, ReadWallStart)
    ensures s.main.Done? ==> s.wallEnd == TimeOf(actions, ReadWallEnd)
  {
    if actions != [] {
      var last := |actions| - 1;
      var before := LastStep(c, actions, s);
      WallReadings(c, actions[..last], before);
    }
  }

  /** A worker that has finished its kernel read the clock as a timed do-while loop does, once per pass. */
  lemma WorkerTimerValid(c: Config, actions: seq<Action>, s: State, i: nat)
    requires Run(c, actions, s) && i < |s.workers| && Finished(s.workers[i].pc)
    ensures var timer := WorkerTimer(c, actions, i);
      && timer.Valid() && |timer.tests| == s.workers[i].passes
      && timer.start == s.workers[i].start && timer.end == s.workers[i].end
  {
    RunKeepsReadings(c, actions, s, i);
    ReadingsAreTimer(c, s.workers[i], WorkerTimer(c, actions, i));
  }

  lemma ReadingsAreTimer(c: Config, w: Worker, timer: Timer)
    requires Finished(w.pc) && ReadingsFit(c, w, timer.start, timer.tests) && timer.duration == c.duration
    requires timer.tests != [] ==> timer.end == timer.tests[|timer.tests| - 1]
    ensures timer.Valid() && |timer.tests| == w.passes && timer.start == w.start && timer.end == w.end
  {
  }

  /** In a completed run each slot holds rounds times bytes for the rounds of its worker's own timed loop. */
  lemma SlotIsKernelResult(c: Config, actions: seq<Action>, s: State, i: nat)
    requires Run(c, actions, s) && s.main.Done? && i < |c.bytes|
    ensures WorkerTimer(c, actions, i).Valid()
    ensures |s.slots| == |c.bytes| && s.slots[i] == |WorkerTimer(c, actions, i).tests| * c.bytes[i] % UINT64
  {
    EverySlotStoredOnce(c, actions, s, i);
    RunKeepsInv(c, actions, s);
    assert WorkerOk(c, s, i);
    WorkerTimerValid(c, actions, s, i);
  }

  // ----- progress

  function Weight(pc: WorkerPc): nat {
    match pc
    case Unspawned => 6
    case Spinning => 5
    case Released => 4
    case Running => 3
    case Testing => 2
    case Storing => 1
    case Exited => 0
  }

  function Weights(workers: seq<Worker>): nat {
    if workers == [] then 0 else Weights(workers[..|workers| - 1]) + Weight(workers[|workers| - 1].pc)
  }

  lemma {:induction false} WeightsChange(workers: seq<Worker>, i: nat, w: Worker)
    requires i < |workers|
    ensures Weights(workers[i := w]) == Weights(workers) - Weight(workers[i].pc) + Weight(w.pc)
  {
    var last := |workers| - 1;
    if i == last {
      assert workers[i := w][..last] == workers[..last];
    } else {
      assert workers[i := w][..last] == workers[..last][i := w];
      WeightsChange(workers[..last], i, w);
    }
  }

  function MainWeight(m: MainPc): nat {
    match m
    case Spawning => 3
    case Releasing => 2
    case Joining => 1
    case Done => 0
  }

  /** How far the system is from being done. */
  function Distance(s: State): int {
    Weights(s.workers) + MainWeight(s.main) + |s.workers| - s.joined
  }

  /** A step main is waiting for: its own, or one of the worker it is about to join. */
  function Move(s: State): Action
    requires !s.main.Done? && s.joined <= |s.workers|
  {
    match s.main
    case Spawning => if s.spawned < |s.workers| then Spawn else ReadWallStart
    case Releasing => Release
    case Joining =>
      if s.joined == |s.workers| then ReadWallEnd else
        var i := s.joined;
        match s.workers[i].pc
        case Exited => Join
        case Released => ReadStart(i)
        case Running => Pass(i)
        case Testing => Test(i)
        case Storing => Store(i)
        case _ => SeeGo(i)
  }

  /** No deadlock: until main is done some step other than spinning and waiting is enabled. */
  lemma NoDeadlock(c: Config, actions: seq<Action>, s: State)
    requires Run(c, actions, s) && !s.main.Done?
    ensures s.joined <= |s.workers|
    ensures Enabled(c, s, Move(s)) && !Move(s).Tick? && !Move(s).Spin?
  {
    RunKeepsInv(c, actions, s);
    if s.joined < |s.workers| {
      assert WorkerOk(c, s, s.joined);
    }
  }

  lemma Extend(c: Config, actions: seq<Action>, s: State, a: Action)
    requires Run(c, actions, s) && Enabled(c, s, a)
    ensures Run(c, actions + [a], Next(c, s, a))
  {
    assert (actions + [a])[..|actions|] == actions;
  }

  /** Let the time run out for a worker at its stop test, then take the awaited step. */
  lemma MoveComesCloser(c: Config, actions: seq<Action>, s: State) returns (more: seq<Action>, s': State)
    requires Run(c, actions, s) && !s.main.Done?
    ensures Run(c, actions + more, s') && 0 <= Distance(s') < Distance(s)
  {
    NoDeadlock(c, actions, s);
    RunKeepsInv(c, actions, s);
    var a := Move(s);
    if a.Test? {
      var tick := Tick(s.now + c.duration);
      Extend(c, actions, s, tick);
      var later := Next(c, s, tick);
      Extend(c, actions + [tick], later, a);
      more, s' := [tick, a], Next(c, later, a);
      Regroup(actions, [tick], [a]);
      assert [tick] + [a] == more;
      assert WorkerOk(c, s, a.i);
    } else {
      Extend(c, actions, s, a);
      more, s' := [a], Next(c, s, a);
    }
    RunKeepsInv(c, actions + more, s');
    DistanceDrops(c, s, s', a);
  }

  lemma DistanceDrops(c: Config, s: State, s': State, a: Action)
    requires Inv(c, s) && Inv(c, s') && !s.main.Done? && a == Move(s) && Enabled(c, s, a)
    requires if a.Test? then s' == With(s, a.i, s'.workers[a.i]).(now := s'.now) && s'.workers[a.i].pc.Storing?
             else s' == Next(c, s, a)
    ensures 0 <= Distance(s') < Distance(s)
  {
    if a.Spawn? {
      assert WorkerOk(c, s, s.spawned);
      WeightsChange(s.workers, s.spawned, s'.workers[s.spawned]);
    } else if a.SeeGo? || a.ReadStart? || a.Pass? || a.Test? || a.Store? {
      assert WorkerOk(c, s, a.i);
      WeightsChange(s.workers, a.i, s'.workers[a.i]);
    }
  }

  /** From wherever a run has got to, it can be continued until main is done. */
  lemma {:induction false} EveryRunCanFinish(c: Config, actions: seq<Action>, s: State)
    returns (more: seq<Action>, final: State)
    requires Run(c, actions, s)
    ensures Run(c, actions + more, final) && final.main.Done?
    decreases Distance(s)
  {
    RunKeepsInv(c, actions, s);
    if s.main.Done? {
      more, final := [], s;
      assert actions + [] == actions;
    } else {
      var step, s' := MoveComesCloser(c, actions, s);
      var rest, end := EveryRunCanFinish(c, actions + step, s');
      more, final := step + rest, end;
      Regroup(actions, step, rest);
    }
  }
}
