/**
 * The shortest run that loses a wakeup: the initial task creates a child and waits for it; the child detaches and
 * ends. The parent is then blocked for ever.
 */
module StrandedRun {
  import opened Base
  import opened IpcModel
  import opened Machine
  import opened Placement
  import opened Forest
  import opened Runs
  import opened Joins
  import opened LostJoins

  /** One hart, three task slots: the idle task and the initial task. */
  function Idle(): Task { Task(0, BLANK_CONTEXT, 1, Ready, 0, 0, 0, false, false, false, true, false) }

  function Init(): Task { Task(0, BLANK_CONTEXT, 2, Running, 0, 1, 0, false, false, false, false, false) }

  function Root(key: nat, task: int): Tracker { Tracker(NIL, key, task, Alive, 0, false, 0) }

  function BootKernel(): Kernel {
    Kernel(Core([Idle(), Init(), BLANK_TASK], [], [Hart(1, 0, 0, 0)], [[]]), [true, true, false], [],
           IpcModel.Limits(1, 1), map[0 := Root(1, 0), 1 := Root(2, 1)], 3, 3)
  }

  lemma BootKernelIsBooted()
    ensures Booted(BootKernel())
  {
  }

  const ENV := Env(0, 0, 0, true, true, Image(0, 0, 0), NIL)

  function Ecall(number: nat, argument: nat, pick: int): Event {
    Syscall(0, Frame(ZeroRegs()[17 := number][10 := argument], 0, 0), ENV.(pick := pick))
  }

  /** The kernel once the caller's registers are saved. */
  function In(k: Kernel, e: Event, t: int): Kernel
    requires Slot(k.core, t) && !e.Start?
  {
    k.(core := SetTask(k.core, t, Entered(k.core.tasks[t], e.frame)))
  }

  lemma InFacts(k: Kernel, number: nat, argument: nat, pick: int, t: int)
    requires Slot(k.core, t)
    ensures var v := In(k, Ecall(number, argument, pick), t).core.tasks[t];
            && v == k.core.tasks[t].(context := v.context)
            && v.context.satp == k.core.tasks[t].context.satp
            && v.context.x[17] == number && v.context.x[10] == argument && v.context.x[11] == 0 && v.context.x[12] == 0
  {
  }

  /** A call that does not switch the hart. */
  lemma CallReturns(k: Kernel, number: nat, argument: nat, pick: int, t: int, l: Kernel)
    requires HartIndex(k.core, 0) && Slot(k.core, t) && k.core.harts[0].current == t
    requires var e := Ecall(number, argument, pick); Dispatch(In(k, e, t), 0, t, e.env) == Run(Handled(l, false))
    ensures Machine.Next(k, Ecall(number, argument, pick)) == Run(l)
  {
    hide Dispatch;
  }

  /** A call that does. */
  lemma CallSwitches(k: Kernel, number: nat, argument: nat, pick: int, t: int, l: Kernel)
    requires HartIndex(k.core, 0) && Slot(k.core, t) && k.core.harts[0].current == t && Armed(l, 0, 0).Run?
    requires var e := Ecall(number, argument, pick); Dispatch(In(k, e, t), 0, t, e.env) == Run(Handled(l, true))
    ensures Machine.Next(k, Ecall(number, argument, pick)) == Armed(l, 0, 0)
  {
    hide Dispatch, Armed;
  }

  // ---------------------------------------------------------------------------------------------
  // The initial task creates a child

  function Create(): Event { Ecall(1, 0, NIL) }

  function ChildContext(): Context { SpawnContext(Spawn(0, 0, true, ENV.image), 2, 0) }

  function Created(): Kernel {
    var m := In(BootKernel(), Create(), 1);
    var c := Enqueue(SetTask(m.core, 2, NewTask(0, ChildContext(), 3, 2)), 2);
    m.(core := SetTask(c, 1, A0(c.tasks[1], 3)), used := m.used[2 := true],
       trackers := m.trackers[2 := Tracker(1, 3, 2, Alive, 0, false, 0)], nextTid := 4)
  }

  lemma CreateRuns()
    ensures Legal(BootKernel(), Create()) && Machine.Next(BootKernel(), Create()) == Run(Created())
  {
    var k := BootKernel();
    var m := In(k, Create(), 1);
    InFacts(k, 1, 0, NIL, 1);
    assert k.used[1..] == [true, false] && k.used[1..][1..] == [false];
    assert FreeIndex([false]) == 0 && FreeIndex([true, false]) == 1 && FreeIndex(k.used) == 2;
    assert FreeTracker(k.trackers, 3, 2) == 2 && FreeTracker(k.trackers, 3, 1) == 2;
    assert FreeTracker(k.trackers, 3, 0) == 2;
    hide Entered, FreeIndex, FreeTracker, SpawnContext;
    assert HandleCreate(m, 0, 1, Create().env) == Run(Handled(Created(), false));
    CallReturns(k, 1, 0, NIL, 1, Created());
  }

  // ---------------------------------------------------------------------------------------------
  // It waits for any child

  function Wait(): Event { Ecall(3, U64_MAX, 2) }

  /** What the wait needs of the state: the parent runs, the child is ready. */
  ghost predicate ParentRuns(k: Kernel) {
    && |k.core.tasks| == 3 && |k.core.harts| == 1 == |k.core.sleepers| && k.core.runQueue == [2]
    && k.used == [true, true, true]
    && k.core.harts[0].current == 1 && k.core.harts[0].idle == 0 && k.core.tasks[0] == Idle()
    && Unqueued(k.core.tasks[1]) && k.core.tasks[1].state == Running && !k.core.tasks[1].idle
    && k.core.tasks[1].tracker == 1
    && k.core.tasks[2] == NewTask(0, ChildContext(), 3, 2).(queued := true)
    && k.trackers == map[0 := Root(1, 0), 1 := Root(2, 1), 2 := Tracker(1, 3, 2, Alive, 0, false, 0)] && k.nextTid == 4
  }

  lemma CreatedFacts()
    ensures ParentRuns(Created())
  {
    hide Entered;
    InFacts(BootKernel(), 1, 0, NIL, 1);
    assert Created().core.runQueue == [2] && Created().used == [true, true, true];
  }

  /** The hart goes on with the only ready task. */
  lemma GoesTo(c: Core, t: int)
    requires HartIndex(c, 0) && c.runQueue == [t] && Slot(c, t) && c.tasks[t].state == Ready && c.tasks[t].queued
    requires !c.tasks[t].delayQueued && !c.tasks[t].messageQueued
    ensures SetNextRunnable(c, 0, 0).Run?
    ensures var d := SetNextRunnable(c, 0, 0).value;
            && d.tasks == c.tasks[t := c.tasks[t].(queued := false, cpu := 0, state := Running)] && d.runQueue == []
            && |d.harts| == |c.harts| && d.harts[0].current == t && d.harts[0].idle == c.harts[0].idle
            && d.sleepers == c.sleepers
  {
  }

  /** The hart goes idle. */
  lemma GoesIdle(c: Core, i: int)
    requires HartIndex(c, 0) && c.runQueue == [] && c.harts[0].idle == i && Slot(c, i) && Unqueued(c.tasks[i])
    requires c.tasks[i].state != Ended
    ensures SetNextRunnable(c, 0, 0).Run?
    ensures var d := SetNextRunnable(c, 0, 0).value;
            && d.tasks == c.tasks[i := c.tasks[i].(cpu := 0, state := Running)] && d.runQueue == []
            && |d.harts| == |c.harts| && d.harts[0].current == i && d.sleepers == c.sleepers
  {
  }

  lemma Arms(k: Kernel)
    requires HartIndex(k.core, 0) && Slot(k.core, k.core.harts[0].current)
    ensures Armed(k, 0, 0).Run?
    ensures var l := Armed(k, 0, 0).value;
            && l == k.(core := k.core.(harts := l.core.harts)) && |l.core.harts| == |k.core.harts|
            && l.core.harts[0].current == k.core.harts[0].current && l.core.harts[0].idle == k.core.harts[0].idle
  {
  }

  /** What the rest of the run needs of the state: the parent waits, the child runs. */
  ghost predicate ChildRuns(k: Kernel, detached: bool) {
    && |k.core.tasks| == 3 && |k.core.harts| == 1 == |k.core.sleepers| && k.core.runQueue == []
    && k.used == [true, true, true]
    && k.core.harts[0].current == 2 && k.core.harts[0].idle == 0
    && k.core.tasks[0] == Idle() && k.core.tasks[1].state == BlockedJoin
    && Unqueued(k.core.tasks[2]) && k.core.tasks[2].state == Running && !k.core.tasks[2].idle
    && k.core.tasks[2].tracker == 2 && k.core.tasks[2].detached == detached && k.core.tasks[2].tid == 3
    && k.trackers == map[0 := Root(1, 0), 1 := Tracker(NIL, 2, 1, Alive, 0, true, -1),
                         2 := Tracker(1, 3, 2, Alive, 0, false, 0)]
    && k.nextTid == 4
  }

  lemma WaitRuns(k: Kernel) returns (l: Kernel)
    requires ParentRuns(k)
    ensures Legal(k, Wait()) && Machine.Next(k, Wait()) == Run(l) && ChildRuns(l, false)
  {
    var m := In(k, Wait(), 1);
    InFacts(k, 3, U64_MAX, 2, 1);
    assert IsChild(k.trackers, 1, 2);
    assert ChildFound(k.trackers, 1, -1, 2);
    hide Entered, ChildFound;
    var c := SetTask(m.core, 1, m.core.tasks[1].(state := BlockedJoin, stateInfo := U64_MAX));
    GoesTo(c, 2);
    hide SetNextRunnable;
    var d := SetNextRunnable(c, 0, 0).value;
    var n := m.(core := d, trackers := m.trackers[1 := m.trackers[1].(waiting := true, waitTid := -1)]);
    assert WaitTask(m, 0, 1, -1, 2, 0) == Run(Handled(n, true));
    Arms(n);
    CallSwitches(k, 3, U64_MAX, 2, 1, n);
    l := Armed(n, 0, 0).value;
  }

  // ---------------------------------------------------------------------------------------------
  // The child detaches, and ends

  lemma DetachRuns(k: Kernel) returns (l: Kernel)
    requires ChildRuns(k, false)
    ensures Legal(k, Ecall(4, 0, NIL)) && Machine.Next(k, Ecall(4, 0, NIL)) == Run(l) && ChildRuns(l, true)
  {
    InFacts(k, 4, 0, NIL, 2);
    var m := In(k, Ecall(4, 0, NIL), 2);
    hide Entered;
    l := HandleDetach(m, 2).kernel;
    CallReturns(k, 4, 0, NIL, 2, l);
  }

  lemma EndRuns(k: Kernel) returns (l: Kernel)
    requires ChildRuns(k, true)
    ensures Legal(k, Ecall(2, 0, NIL)) && Machine.Next(k, Ecall(2, 0, NIL)) == Run(l) && Stranded(l, 1)
  {
    InFacts(k, 2, 0, NIL, 2);
    var m := In(k, Ecall(2, 0, NIL), 2);
    hide Entered;
    var c := SetTask(m.core, 2, m.core.tasks[2].(state := Ended));
    GoesIdle(c, 0);
    hide SetNextRunnable;
    var n := m.(core := SetNextRunnable(c, 0, 0).value);
    var f := n.trackers[2 := n.trackers[2].(status := ExitedClean, returnValue := 0, task := NIL)];
    assert forall d :: Doomed(f, 2, d) <==> d == 2;
    var o := n.(core := SetTask(n.core, 2, BLANK_TASK), used := n.used[2 := false], trackers := Reap(f, 2));
    assert Bury(n, 2, 0, ExitedClean) == Run(o);
    Arms(o);
    CallSwitches(k, 2, 0, NIL, 2, o);
    l := Armed(o, 0, 0).value;
  }

  /** From boot, four calls strand the initial task; by `StrandedForever` no later step of any hart wakes it. */
  lemma DetachedOnlyChildStrandsItsParent() returns (ks: seq<Kernel>, es: seq<Event>)
    ensures Runs.IsRun(ks, es) && |es| == 4 && Stranded(ks[4], 1)
    ensures es == [Create(), Wait(), Ecall(4, 0, NIL), Ecall(2, 0, NIL)]
  {
    hide BootKernel, Created, Legal, Machine.Next, Booted, Ecall, Stranded, ChildRuns, ParentRuns, Create, Wait;
    BootKernelIsBooted();
    CreateRuns();
    CreatedFacts();
    var k2 := WaitRuns(Created());
    var k3 := DetachRuns(k2);
    var k4 := EndRuns(k3);
    ks := [BootKernel(), Created(), k2, k3, k4];
    es := [Create(), Wait(), Ecall(4, 0, NIL), Ecall(2, 0, NIL)];
    forall i | 0 <= i < |es| ensures Legal(ks[i], es[i]) && Machine.Next(ks[i], es[i]) == Run(ks[i + 1]) {
      assert i == 0 || i == 1 || i == 2 || i == 3;
    }
  }

  /** The initial task has nobody to report a crash to: an undefined call of it stops the kernel right after boot. */
  lemma InitialCrashStopsTheKernel()
    ensures Runs.IsRun([BootKernel()], []) && Offered(BootKernel(), Ecall(13, 0, NIL))
    ensures Machine.Next(BootKernel(), Ecall(13, 0, NIL)).Park?
  {
    BootKernelIsBooted();
    hide Booted, Machine.Next;
    ParksExactly([BootKernel()], [], Ecall(13, 0, NIL));
  }
}
