/**
 * The locks of the executive, hart by hart. Every kernel path is the sequence of its acquisitions and
 * releases; harts interleave freely. Because every path takes its locks in one order, whatever the
 * harts are doing, some hart can go on.
 */
module LockOrder {
  import opened Base

  datatype Lock =
    | Table
    | TaskManager
    | Endpoint(slot: nat)
    | GlobalQueue
    | LocalQueue(hart: nat)
    | DelayQueue(hart: nat)

  datatype Op = Acquire(lock: Lock) | Release(lock: Lock)

  /** The order: table before endpoint before the queues; task manager before the queues. */
  function Rank(l: Lock): nat {
    match l
    case Table => 0
    case TaskManager => 0
    case Endpoint(_) => 1
    case _ => 2
  }

  // ---------------------------------------------------------------------------------------------
  // The kernel paths

  function Guarded(l: Lock, body: seq<Op>): seq<Op> { [Acquire(l)] + body + [Release(l)] }

  /** `add_task`. */
  function Insert(): seq<Op> { Guarded(GlobalQueue, []) }

  /** `set_next_runnable` on hart `h`: local queue, size and head of the global one, idle time slice. */
  function Switch(h: nat, globalReady: bool, idle: bool): seq<Op> {
    Guarded(LocalQueue(h), []) + Guarded(GlobalQueue, []) +
    (if globalReady then Guarded(GlobalQueue, []) else []) + (if idle then Guarded(DelayQueue(h), []) else [])
  }

  function Repeat(n: nat, ops: seq<Op>): seq<Op> { if n == 0 then [] else ops + Repeat(n - 1, ops) }

  datatype Path =
    | CreateEndpoint(found: bool, slot: nat)
    | DestroyEndpoint(slot: nat, waiters: nat)
    | Send(slot: nat, wakes: bool)
    | TryReceive(slot: nat)
    | Receive(slot: nat, blocks: bool)
    | CreateTask(added: bool)
    | EndTask(wakesParent: bool)
    | WaitTask(blocks: bool)
    | DetachTask
    | Sleep(accepted: bool)
    | Yield(idleCaller: bool)
    | TimerInterrupt(released: nat, idleCaller: bool)
    | Arm(idle: bool)

  /** The lock operations of a path on hart `h`; `ready` and `idle` are what the switch finds. */
  function Script(p: Path, h: nat, ready: bool, idle: bool): seq<Op> {
    match p
    case CreateEndpoint(found, i) => Guarded(Table, if found then Guarded(Endpoint(i), []) else [])
    case DestroyEndpoint(i, n) => Guarded(Table, Guarded(Endpoint(i), Repeat(n, Insert())))
    case Send(i, wakes) => Guarded(Endpoint(i), if wakes then Insert() else [])
    case TryReceive(i) => Guarded(Endpoint(i), [])
    case Receive(i, blocks) => Guarded(Endpoint(i), if blocks then Switch(h, ready, idle) else [])
    case CreateTask(added) => Guarded(TaskManager, []) + (if added then Insert() else [])
    case EndTask(wakes) => Switch(h, ready, idle) + Guarded(TaskManager, if wakes then Insert() else [])
    case WaitTask(blocks) => Guarded(TaskManager, if blocks then Switch(h, ready, idle) else [])
    case DetachTask => Guarded(TaskManager, [])
    case Sleep(accepted) => if accepted then Guarded(DelayQueue(h), []) + Switch(h, ready, idle) else []
    case Yield(idleCaller) => (if idleCaller then [] else Insert()) + Switch(h, ready, idle)
    case TimerInterrupt(n, idleCaller) =>
      Repeat(n, Guarded(DelayQueue(h), []) + Insert()) + Guarded(DelayQueue(h), []) +
      (if idleCaller then [] else Insert()) + Switch(h, ready, idle)
    case Arm(i) => if i then Guarded(DelayQueue(h), []) else []
  }

  // ---------------------------------------------------------------------------------------------
  // Ordered scripts

  /** From the locks already held, the script only acquires upwards, releases what it holds, and ends with nothing. */
  predicate Ordered(held: seq<Lock>, ops: seq<Op>)
    decreases ops
  {
    if ops == [] then held == []
    else match ops[0]
         case Acquire(l) => (forall k :: 0 <= k < |held| ==> Rank(held[k]) < Rank(l)) && Ordered(held + [l], ops[1..])
         case Release(l) => held != [] && held[|held| - 1] == l && Ordered(held[..|held| - 1], ops[1..])
  }

  /** A run of single acquisitions of queue locks, each released at once. */
  predicate Flat(ops: seq<Op>)
    decreases ops
  {
    ops == [] ||
    (|ops| >= 2 && ops[0].Acquire? && ops[1] == Release(ops[0].lock) && Rank(ops[0].lock) == 2 && Flat(ops[2..]))
  }

  lemma {:induction false} FlatAppend(a: seq<Op>, b: seq<Op>)
    requires Flat(a) && Flat(b)
    ensures Flat(a + b)
    decreases a
  {
    if a == [] {
      assert a + b == b;
    } else {
      FlatAppend(a[2..], b);
      assert (a + b)[2..] == a[2..] + b;
    }
  }

  lemma {:induction false} FlatRepeat(n: nat, ops: seq<Op>)
    requires Flat(ops)
    ensures Flat(Repeat(n, ops))
  {
    if n > 0 {
      FlatRepeat(n - 1, ops);
      FlatAppend(ops, Repeat(n - 1, ops));
    }
  }

  lemma PairIsFlat(l: Lock)
    requires Rank(l) == 2
    ensures Flat(Guarded(l, []))
  {
    assert Guarded(l, []) == [Acquire(l), Release(l)];
    assert Guarded(l, [])[2..] == [];
  }

  lemma SwitchIsFlat(h: nat, ready: bool, idle: bool)
    ensures Flat(Switch(h, ready, idle)) && Flat(Insert()) && Flat(Guarded(DelayQueue(h), []))
  {
    PairIsFlat(LocalQueue(h));
    PairIsFlat(GlobalQueue);
    PairIsFlat(DelayQueue(h));
    var a := Guarded(LocalQueue(h), []) + Guarded(GlobalQueue, []);
    var b := if ready then Guarded(GlobalQueue, []) else [];
    var c := if idle then Guarded(DelayQueue(h), []) else [];
    FlatAppend(Guarded(LocalQueue(h), []), Guarded(GlobalQueue, []));
    FlatAppend(a, b);
    FlatAppend(a + b, c);
  }

  /** A flat run may be executed inside any locks that come before the queues. */
  lemma {:induction false} FlatIsOrdered(held: seq<Lock>, ops: seq<Op>, rest: seq<Op>)
    requires Flat(ops) && Ordered(held, rest) && forall k :: 0 <= k < |held| ==> Rank(held[k]) < 2
    ensures Ordered(held, ops + rest)
    decreases ops
  {
    if ops == [] {
      assert ops + rest == rest;
    } else {
      var l := ops[0].lock;
      FlatIsOrdered(held, ops[2..], rest);
      assert (ops + rest)[1..][1..] == ops[2..] + rest;
      assert (held + [l])[..|held|] == held;
      assert Ordered(held + [l], (ops + rest)[1..]);
    }
  }

  /** One lock around a flat body. */
  lemma GuardedIsOrdered(l: Lock, body: seq<Op>, rest: seq<Op>)
    requires Rank(l) < 2 && Flat(body) && Ordered([], rest)
    ensures Ordered([], Guarded(l, body) + rest)
  {
    var tail := [Release(l)] + rest;
    assert tail[1..] == rest && [l][..0] == [];
    assert Ordered([l], tail);
    FlatIsOrdered([l], body, tail);
    assert (Guarded(l, body) + rest)[1..] == body + tail;
    assert [] + [l] == [l];
  }

  /** The endpoint lock inside the table lock. */
  lemma TableIsOrdered(i: nat, body: seq<Op>)
    requires Flat(body)
    ensures Ordered([], Guarded(Table, Guarded(Endpoint(i), body)))
  {
    var held := [Table, Endpoint(i)];
    assert Ordered([Table], [Release(Table)]);
    var tail := [Release(Endpoint(i)), Release(Table)];
    assert tail[1..] == [Release(Table)] && held[..1] == [Table];
    assert Ordered(held, tail);
    FlatIsOrdered(held, body, tail);
    var ops := Guarded(Table, Guarded(Endpoint(i), body));
    assert ops[1..][1..] == body + tail;
    assert [] + [Table] == [Table] && [Table] + [Endpoint(i)] == held;
    assert Ordered([Table], ops[1..]);
  }

  /** Every kernel path takes its locks in order and gives them all back. */
  lemma PathsAreOrdered(p: Path, h: nat, ready: bool, idle: bool)
    ensures Ordered([], Script(p, h, ready, idle))
  {
    SwitchIsFlat(h, ready, idle);
    var switch, insert, delay := Switch(h, ready, idle), Insert(), Guarded(DelayQueue(h), []);
    var script := Script(p, h, ready, idle);
    assert script + [] == script && Ordered([], []) && Flat([]);
    match p
    case CreateEndpoint(found, i) =>
      if found {
        TableIsOrdered(i, []);
      } else {
        GuardedIsOrdered(Table, [], []);
      }
    case DestroyEndpoint(i, n) =>
      FlatRepeat(n, insert);
      TableIsOrdered(i, Repeat(n, insert));
    case Send(i, wakes) => GuardedIsOrdered(Endpoint(i), if wakes then insert else [], []);
    case TryReceive(i) => GuardedIsOrdered(Endpoint(i), [], []);
    case Receive(i, blocks) => GuardedIsOrdered(Endpoint(i), if blocks then switch else [], []);
    case CreateTask(added) =>
      var rest := if added then insert else [];
      FlatIsOrdered([], rest, []);
      assert rest + [] == rest;
      GuardedIsOrdered(TaskManager, [], rest);
    case EndTask(wakes) =>
      var guarded := Guarded(TaskManager, if wakes then insert else []);
      GuardedIsOrdered(TaskManager, if wakes then insert else [], []);
      assert guarded + [] == guarded;
      FlatIsOrdered([], switch, guarded);
    case WaitTask(blocks) => GuardedIsOrdered(TaskManager, if blocks then switch else [], []);
    case DetachTask => GuardedIsOrdered(TaskManager, [], []);
    case Sleep(accepted) =>
      FlatAppend(delay, switch);
      FlatIsOrdered([], script, []);
    case Yield(idleCaller) =>
      FlatAppend(if idleCaller then [] else insert, switch);
      FlatIsOrdered([], script, []);
    case TimerInterrupt(n, idleCaller) =>
      FlatAppend(delay, insert);
      FlatRepeat(n, delay + insert);
      FlatAppend(Repeat(n, delay + insert), delay);
      FlatAppend(Repeat(n, delay + insert) + delay, if idleCaller then [] else insert);
      FlatAppend(Repeat(n, delay + insert) + delay + (if idleCaller then [] else insert), switch);
      FlatIsOrdered([], script, []);
    case Arm(_) => FlatIsOrdered([], script, []);
  }

  // ---------------------------------------------------------------------------------------------
  // Any number of harts

  /** Per hart: the locks it holds, oldest first, and what is left of its path. */
  datatype State = State(held: seq<seq<Lock>>, todo: seq<seq<Op>>)

  predicate Free(s: State, l: Lock) { forall g :: 0 <= g < |s.held| ==> l !in s.held[g] }

  predicate CanStep(s: State, h: int) {
    && 0 <= h < |s.held| == |s.todo| && s.todo[h] != []
    && (s.todo[h][0].Acquire? ==> Free(s, s.todo[h][0].lock))
  }

  /** Hart `h` executes the next operation of its path; a spinning acquisition waits for the lock to be free. */
  ghost predicate Step(s: State, h: int, t: State) {
    && CanStep(s, h)
    && match s.todo[h][0]
       case Acquire(l) => t == State(s.held[h := s.held[h] + [l]], s.todo[h := s.todo[h][1..]])
       case Release(l) =>
         var kept := if s.held[h] == [] then 0 else |s.held[h]| - 1;
         t == State(s.held[h := s.held[h][..kept]], s.todo[h := s.todo[h][1..]])
  }

  /** Hart `h` traps into a new path. */
  ghost predicate Enter(s: State, h: int, t: State) {
    && 0 <= h < |s.todo| && s.todo[h] == []
    && exists p, ready, idle :: t == s.(todo := s.todo[h := Script(p, h, ready, idle)])
  }

  ghost predicate Initial(s: State) {
    |s.held| == |s.todo| && forall h :: 0 <= h < |s.held| ==> s.held[h] == [] && s.todo[h] == []
  }

  ghost predicate Inv(s: State) {
    && |s.held| == |s.todo|
    && (forall h {:trigger s.todo[h]} :: 0 <= h < |s.held| ==> Ordered(s.held[h], s.todo[h]))
    && (forall g, h, l :: 0 <= g < h < |s.held| && l in s.held[g] ==> l !in s.held[h])
    && (forall h, i, j :: 0 <= h < |s.held| && 0 <= i < j < |s.held[h]| ==> Rank(s.held[h][i]) < Rank(s.held[h][j]))
  }

  lemma StepKeepsInv(s: State, h: int, t: State)
    requires Inv(s) && (Step(s, h, t) || Enter(s, h, t))
    ensures Inv(t)
  {
    if Step(s, h, t) {
      assert Ordered(s.held[h], s.todo[h]);
      assert forall l :: l in t.held[h] ==> l in s.held[h] || (s.todo[h][0].Acquire? && l == s.todo[h][0].lock);
    } else {
      var p, ready, idle :| t == s.(todo := s.todo[h := Script(p, h, ready, idle)]);
      PathsAreOrdered(p, h, ready, idle);
      assert s.held[h] == [];
    }
  }

  /** A waiting hart leads, lock by lock upwards, to a hart that can go on. */
  lemma {:induction false} SomeoneCanStep(s: State, h: int) returns (g: int)
    requires Inv(s) && 0 <= h < |s.todo| && s.todo[h] != []
    ensures CanStep(s, g)
    decreases if s.todo[h][0].Acquire? then 3 - Rank(s.todo[h][0].lock) else 0
  {
    assert Ordered(s.held[h], s.todo[h]);
    if CanStep(s, h) {
      g := h;
    } else {
      var l := s.todo[h][0].lock;
      var o :| 0 <= o < |s.held| && l in s.held[o];
      assert Ordered(s.held[o], s.todo[o]);
      assert s.todo[o] != [];
      if s.todo[o][0].Release? {
        g := o;
      } else {
        g := SomeoneCanStep(s, o);
      }
    }
  }

  ghost predicate IsRun(ss: seq<State>, hs: seq<int>) {
    && |ss| == |hs| + 1 && Initial(ss[0])
    && forall i :: 0 <= i < |hs| ==> Step(ss[i], hs[i], ss[i + 1]) || Enter(ss[i], hs[i], ss[i + 1])
  }

  lemma {:induction false} RunsKeepInv(ss: seq<State>, hs: seq<int>, n: nat)
    requires IsRun(ss, hs) && n <= |hs|
    ensures Inv(ss[n])
  {
    if n > 0 {
      RunsKeepInv(ss, hs, n - 1);
      StepKeepsInv(ss[n - 1], hs[n - 1], ss[n]);
    }
  }

  /** No deadlock: in every reachable state, if any hart is inside the kernel then some hart can take a step. */
  lemma NoDeadlock(ss: seq<State>, hs: seq<int>, h: int) returns (g: int)
    requires IsRun(ss, hs) && 0 <= h < |ss[|hs|].todo| && ss[|hs|].todo[h] != []
    ensures CanStep(ss[|hs|], g)
  {
    RunsKeepInv(ss, hs, |hs|);
    g := SomeoneCanStep(ss[|hs|], h);
  }

  /** Mutual exclusion: no lock is held by two harts, nor twice by one. */
  lemma MutualExclusion(ss: seq<State>, hs: seq<int>, g: int, h: int, l: Lock)
    requires IsRun(ss, hs) && 0 <= g < |ss[|hs|].held| && 0 <= h < |ss[|hs|].held|
    requires l in ss[|hs|].held[g] && l in ss[|hs|].held[h]
    ensures g == h
  {
    RunsKeepInv(ss, hs, |hs|);
  }

  /** A hart never holds two endpoint locks, and takes locks only upwards in the order. */
  lemma NeverTwoOfARank(ss: seq<State>, hs: seq<int>, h: int, i: nat, j: nat)
    requires IsRun(ss, hs) && 0 <= h < |ss[|hs|].held| && i < j < |ss[|hs|].held[h]|
    ensures Rank(ss[|hs|].held[h][i]) < Rank(ss[|hs|].held[h][j])
    ensures ss[|hs|].held[h][i].Endpoint? ==> !ss[|hs|].held[h][j].Endpoint?
  {
    RunsKeepInv(ss, hs, |hs|);
  }
}
