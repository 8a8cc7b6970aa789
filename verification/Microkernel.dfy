/**
 * The whole task executive in place: endpoints with the executive behind them, the tracker forest, the
 * task slots. A trap is one method, and it computes one step of the value machine.
 */
module Microkernel {
  import opened Base
  import opened IpcModel
  import opened Machine
  import opened Placement
  import opened Forest
  import opened Runs
  import opened SystemCalls
  import opened Contexts
  import opened Executive
  import opened Endpoints
  import opened Trackers
  import opened TrapFrames
  import opened Boot

  /** The tracker table and the endpoints, with the executive behind them, share no array. */
  ghost predicate Apart(endpoints: EndpointManager, trackers: TrackerTable) {
    && ApartLinks(endpoints, trackers.firstChild) && ApartLinks(endpoints, trackers.previousSibling)
    && ApartLinks(endpoints, trackers.nextSibling)
    && endpoints.claimed != trackers.used && trackers.records.Length == trackers.used.Length
  }

  ghost predicate ApartLinks(endpoints: EndpointManager, a: array<int>) {
    var exec := endpoints.exec;
    && a != exec.previous && a != exec.next && a != exec.delayHeads && a != exec.delayPrevious && a != exec.delayNext
    && a != endpoints.messagePrevious && a != endpoints.messageNext
  }

  /** A kernel with nothing in it. */
  method NewKernel(slots: nat, harts: nat, endpointSlots: nat, depth: nat, ceiling: nat) returns (m: Microkernel)
    ensures fresh(m) && m.Valid() && m.nextTid == 1 && m.Abs().trackers == map[] && m.Abs().trackerSlots == slots
    ensures Initial(m.Abs().endpoints) && |m.Abs().endpoints| == endpointSlots
    ensures |m.Abs().used| == slots && (forall i :: 0 <= i < slots ==> !m.Abs().used[i])
    ensures m.Abs().limits == IpcModel.Limits(depth, ceiling)
    ensures m.Abs().core ==
              Core(seq(slots, i => BLANK_TASK), [], seq(harts, i => Hart(NIL, NIL, 0, 0)), seq(harts, i => []))
    ensures fresh(m.taskUsed) && fresh(m.endpoints.exec.tasks) && fresh(m.endpoints.exec.harts) && fresh(m.trackers)
    ensures fresh(m.trackers.used) && fresh(m.trackers.records) && fresh(m.trackers.firstChild)
    ensures fresh(m.trackers.previousSibling) && fresh(m.trackers.nextSibling)
  {
    hide EndpointManager.Valid, TrackerTable.Valid, Executive.Valid, TrackerTable.Forest, EndpointManager.Limits;
    hide Executive.Core, Initial;
    var exec := new Executive(slots, harts);
    var endpoints := new EndpointManager(exec, endpointSlots, depth, ceiling);
    var trackers := new TrackerTable(slots);
    m := new Microkernel(endpoints, trackers);
  }

  lemma EmptyIsBooting(k: Kernel, slots: nat, harts: nat)
    requires 1 <= harts < slots == |k.used| == k.trackerSlots && (forall i :: 0 <= i < slots ==> !k.used[i])
    requires k.core == Core(seq(slots, i => BLANK_TASK), [], seq(harts, i => Hart(NIL, NIL, 0, 0)), seq(harts, i => []))
    requires k.nextTid == 1 && k.trackers == map[] && Initial(k.endpoints) && |k.endpoints| <= TWO32
    requires 1 <= k.limits.ceiling < TWO32 / 2
    ensures Booting(k, 0)
  {
  }

  /** Any number of harts, and room for their idle tasks and the initial task: a kernel from which runs begin. */
  method StartKernel(slots: nat, harts: nat, endpointSlots: nat, depth: nat, ceiling: nat,
                     idleContext: Context, initialContext: Context) returns (m: Microkernel)
    requires 1 <= harts < slots && endpointSlots <= TWO32 && 1 <= ceiling < TWO32 / 2
    ensures m.Valid() && Booted(m.Abs()) && Inv(m.Abs())
  {
    hide Booted, Inv, Booting, Initial, Microkernel.Valid;
    m := NewKernel(slots, harts, endpointSlots, depth, ceiling);
    EmptyIsBooting(m.Abs(), slots, harts);
    m.Bootstrap(idleContext, initialContext);
  }

  class Microkernel {
    const endpoints: EndpointManager
    const trackers: TrackerTable
    const taskUsed: array<bool>
    var nextTid: nat

    /** The storage of the parts does not overlap. */
    ghost predicate Separate() {
      && Apart(endpoints, trackers) && taskUsed != endpoints.claimed && taskUsed != trackers.used
      && taskUsed.Length == endpoints.exec.tasks.Length
    }

    ghost predicate Valid()
      reads this, taskUsed
      reads endpoints, endpoints.claimed, endpoints.records, endpoints.rings, endpoints.messagePrevious
      reads endpoints.messageNext
      reads endpoints.exec, endpoints.exec.tasks, endpoints.exec.previous, endpoints.exec.next, endpoints.exec.harts
      reads endpoints.exec.delayHeads, endpoints.exec.delayPrevious, endpoints.exec.delayNext
      reads trackers, trackers.used, trackers.records, trackers.firstChild, trackers.previousSibling
      reads trackers.nextSibling
    {
      Separate() && endpoints.Valid() && trackers.Valid({})
    }

    /** What the value machine sees. */
    ghost function Abs(): Kernel
      reads this, taskUsed, endpoints, endpoints.exec, endpoints.exec.tasks, endpoints.exec.harts
      reads trackers, trackers.used, trackers.records
    {
      Kernel(endpoints.exec.Core(), taskUsed[..], endpoints.table, endpoints.Limits(), trackers.Forest(),
             trackers.used.Length, nextTid)
    }

    /** Over parts that share no storage; no task yet. */
    constructor (manager: EndpointManager, table: TrackerTable)
      requires manager.Valid() && table.Valid({}) && Apart(manager, table)
      ensures Valid() && endpoints == manager && trackers == table
      ensures Abs() == Kernel(manager.exec.Core(), Abs().used, manager.table, manager.Limits(), table.Forest(),
                              table.used.Length, 1)
      ensures fresh(taskUsed) && |Abs().used| == manager.exec.tasks.Length
      ensures forall i :: 0 <= i < |Abs().used| ==> !Abs().used[i]
    {
      hide EndpointManager.Valid, TrackerTable.Valid, TrackerTable.Forest, EndpointManager.Limits, Executive.Core;
      endpoints := manager;
      trackers := table;
      taskUsed := new bool[manager.exec.tasks.Length](i => false);
      nextTid := 1;
    }

    // -------------------------------------------------------------------------------------------
    // Start

    method RootTracker(r: int, v: Tracker)
      requires Halfway(r) && v.parent == NIL
      modifies trackers, trackers.records, trackers.firstChild, trackers.previousSibling, trackers.nextSibling
      ensures Valid() && Abs() == old(Abs()).(trackers := old(Abs()).trackers[r := v])
    {
      hide EndpointManager.Valid, TrackerTable.Valid;
      trackers.WriteTracker(r, v, {r});
      trackers.LinkTracker(r, NIL, {r});
      assert {r} - {r} == {};
      assert trackers.Forest()[r] == trackers.records[r];
    }

    /** A task whose parent is the kernel. */
    method PlantTask(h: int, idle: bool, context: Context) returns (i: int)
      requires Valid() && Blanks(Abs())
      requires FreeIndex(Abs().used) < |Abs().used|
      requires FreeTracker(Abs().trackers, Abs().trackerSlots, 0) < Abs().trackerSlots
      modifies this, taskUsed, endpoints.exec.tasks
      modifies trackers, trackers.used, trackers.records, trackers.firstChild, trackers.previousSibling
      modifies trackers.nextSibling
      ensures Valid() && i == FreeIndex(old(Abs()).used) && Abs() == Planted(old(Abs()), h, idle, context)
    {
      hide Valid, Halfway, FreeIndex, FreeTracker;
      ghost var k := Abs();
      i := AllocateTask();
      var r := ReserveTracker();
      var tid := nextTid;
      RootTracker(r, Tracker(NIL, tid, i, Alive, 0, false, 0));
      assert k.trackers[r := BLANK_TRACKER][r := Tracker(NIL, tid, i, Alive, 0, false, 0)] ==
          k.trackers[r := Tracker(NIL, tid, i, Alive, 0, false, 0)];
      tid := TakeTid();
      WriteTask(i, NewTask(h, context, tid, r).(idle := idle));
    }

    method BindIdle(h: int, i: int)
      requires Valid() && HartIndex(Abs().core, h) && Slot(Abs().core, i)
      modifies endpoints.exec.harts
      ensures Valid() && Abs() == WithIdle(old(Abs()), h, i)
    {
      hide EndpointManager.Valid, TrackerTable.Valid;
      endpoints.BindIdle(h, i);
    }

    method SetCurrentTask(h: int, t: int) returns (parked: bool)
      requires Valid() && HartIndex(Abs().core, h) && Slot(Abs().core, t)
      modifies endpoints.exec.tasks, endpoints.exec.harts
      ensures !parked ==> Valid()
      ensures match SetCurrent(old(Abs()).core, h, t)
              case Park => parked
              case Run(c) => !parked && Abs() == old(Abs()).(core := c)
    {
      hide EndpointManager.Valid, TrackerTable.Valid;
      parked := endpoints.SetCurrentTask(h, t);
    }

    /** One idle task per hart, then the initial task, current on hart 0: the state every run begins in. */
    method Bootstrap(idleContext: Context, initialContext: Context)
      requires Valid() && Booting(Abs(), 0)
      modifies this, taskUsed, endpoints.exec.tasks, endpoints.exec.harts
      modifies trackers, trackers.used, trackers.records, trackers.firstChild, trackers.previousSibling
      modifies trackers.nextSibling
      ensures Valid() && Booted(Abs()) && Inv(Abs())
      ensures var c, n := Abs().core, |Abs().core.harts|;
              IdleContexts(c, n, idleContext) && n < |c.tasks| && c.tasks[n].context == initialContext
    {
      hide IdleContexts, Valid, Booting, Booted, Inv, SetCurrent, Planted, WithIdle;
      var h, n := 0, endpoints.exec.harts.Length;
      BootingFacts(Abs(), 0);
      assert n == |Abs().core.harts|;
      NoIdleContexts(Abs().core, idleContext);
      while h < n
        invariant 0 <= h <= n == |Abs().core.harts| && Valid() && Booting(Abs(), h)
        invariant IdleContexts(Abs().core, h, idleContext)
      {
        ghost var k := Abs();
        BootingFacts(k, h);
        IdlePlanted(k, h, idleContext);
        PlantedFacts(k, h, true, idleContext);
        var i := PlantTask(h, true, idleContext);
        BindIdle(h, i);
        h := h + 1;
        BootingFacts(Abs(), h);
        WithIdleFacts(Planted(k, i, true, idleContext), i, i);
      }
      ghost var k := Abs();
      BootingFacts(k, n);
      InitialPlanted(k, initialContext);
      PlantedFacts(k, 0, false, initialContext);
      var i := PlantTask(0, false, initialContext);
      var parked := SetCurrentTask(0, i);
      BootedIsInv(Abs());
    }

    // -------------------------------------------------------------------------------------------
    // TaskManager

    method ReleaseTask(t: int) returns (parked: bool)
      requires Valid() && Slot(Abs().core, t)
      modifies taskUsed, endpoints.exec.tasks
      ensures !parked ==> Valid()
      ensures match Machine.ReleaseTask(old(Abs()), t)
              case Park => parked
              case Run(k) => !parked && Abs() == k
    {
      hide EndpointManager.Valid, TrackerTable.Valid;
      var v := endpoints.exec.tasks[t];
      assert v == Abs().core.tasks[t];
      if v.queued || v.delayQueued || v.messageQueued {
        return true;
      }
      endpoints.WriteTask(t, BLANK_TASK);
      taskUsed[t] := false;
      parked := false;
      assert taskUsed[..] == old(taskUsed[..])[t := false];
    }

    /** Every tracker names a task slot or none. */
    ghost predicate TasksInRange(k: Kernel) {
      forall r :: r in k.trackers ==> -1 <= k.trackers[r].task < |k.core.tasks|
    }

    /** Ends the removal of a tracker that hangs somewhere. */
    method RemoveTracker(r: int) returns (parked: bool)
      requires Valid() && Rooted(Abs().trackers) && r in Abs().trackers
      modifies trackers, trackers.used, trackers.records, trackers.firstChild, trackers.previousSibling
      modifies trackers.nextSibling
      ensures !parked ==> Valid()
      ensures match Machine.RemoveTracker(old(Abs()).trackers, r)
              case Park => parked
              case Run(g) => !parked && Abs() == old(Abs()).(trackers := g)
    {
      hide EndpointManager.Valid, TrackerTable.Valid;
      parked := trackers.RemoveTracker(r, {});
    }

    method WriteTracker(r: int, v: Tracker)
      requires Valid() && r in Abs().trackers && v.parent == Abs().trackers[r].parent
      modifies trackers.records
      ensures Valid() && Abs() == old(Abs()).(trackers := old(Abs()).trackers[r := v])
    {
      hide EndpointManager.Valid, TrackerTable.Valid;
      trackers.WriteTracker(r, v, {});
    }

    method WriteTask(t: int, w: Task)
      requires Valid() && Slot(Abs().core, t) && w.messageQueued == Abs().core.tasks[t].messageQueued
      requires w.queued == Abs().core.tasks[t].queued && w.delayQueued == Abs().core.tasks[t].delayQueued
      modifies endpoints.exec.tasks
      ensures Valid() && Abs() == old(Abs()).(core := SetTask(old(Abs()).core, t, w))
    {
      hide EndpointManager.Valid, TrackerTable.Valid;
      endpoints.WriteTask(t, w);
    }

    method AddTask(t: int) returns (ok: bool)
      requires Valid() && Slot(Abs().core, t)
      modifies endpoints.exec, endpoints.exec.tasks, endpoints.exec.previous, endpoints.exec.next
      ensures Valid()
      ensures match Machine.AddTask(old(Abs()).core, t)
              case Park => !ok
              case Run(c) => ok && Abs() == old(Abs()).(core := c)
    {
      hide EndpointManager.Valid, TrackerTable.Valid, Machine.AddTask;
      ok := endpoints.AddTask(t);
    }

    method SetNextRunnable(h: int, now: nat) returns (parked: bool)
      requires Valid() && HartIndex(Abs().core, h)
      modifies endpoints.exec, endpoints.exec.tasks, endpoints.exec.previous, endpoints.exec.next, endpoints.exec.harts
      ensures !parked ==> Valid()
      ensures match Machine.SetNextRunnable(old(Abs()).core, h, now)
              case Park => parked
              case Run(c) => !parked && Abs() == old(Abs()).(core := c)
    {
      hide EndpointManager.Valid, TrackerTable.Valid, Machine.SetNextRunnable;
      parked := endpoints.Switch(h, now);
    }

    method ReadTask(t: int) returns (v: Task)
      requires Valid() && Slot(Abs().core, t)
      ensures v == Abs().core.tasks[t]
    {
      hide EndpointManager.Valid, TrackerTable.Valid;
      v := endpoints.exec.tasks[t];
    }

    method ReadTracker(r: int) returns (v: Tracker)
      requires Valid() && r in Abs().trackers
      ensures v == Abs().trackers[r]
    {
      hide EndpointManager.Valid, TrackerTable.Valid;
      v := trackers.records[r];
    }

    /** The part of `end_task` under the lock: report to the parent, reap, free the slot. */
    method Bury(t: int, returnValue: nat, status: ExitStatus) returns (parked: bool)
      requires Valid() && Slot(Abs().core, t) && Abs().core.tasks[t].tracker in Abs().trackers
      requires Rooted(Abs().trackers) && TasksInRange(Abs())
      modifies this, taskUsed
      modifies endpoints.exec, endpoints.exec.tasks, endpoints.exec.previous, endpoints.exec.next
      modifies trackers, trackers.used, trackers.records, trackers.firstChild, trackers.previousSibling
      modifies trackers.nextSibling
      ensures !parked ==> Valid()
      ensures match Machine.Bury(old(Abs()), t, returnValue, status)
              case Park => parked
              case Run(k) => !parked && Abs() == k
    {
      hide Valid, Machine.Bury, Reported, Machine.ReleaseTask, Rooted;
      BuryReportsFirst(Abs(), t, returnValue, status);
      parked := Report(t, returnValue, status);
      if !parked {
        parked := ReleaseTask(t);
      }
    }

    method Report(t: int, returnValue: nat, status: ExitStatus) returns (parked: bool)
      requires Valid() && Slot(Abs().core, t) && Abs().core.tasks[t].tracker in Abs().trackers
      requires Rooted(Abs().trackers) && TasksInRange(Abs())
      modifies this, taskUsed
      modifies endpoints.exec, endpoints.exec.tasks, endpoints.exec.previous, endpoints.exec.next
      modifies trackers, trackers.used, trackers.records, trackers.firstChild, trackers.previousSibling
      modifies trackers.nextSibling
      ensures !parked ==> Valid()
      ensures match Reported(old(Abs()), t, returnValue, status)
              case Park => parked
              case Run(k) => !parked && Abs() == k
    {
      hide Valid, Machine.RemoveTracker, Machine.AddTask, Rooted;
      ghost var k := Abs();
      parked := false;
      var v := ReadTask(t);
      var x := ReadTracker(v.tracker);
      RewriteRooted(k.trackers, v.tracker, x.(status := status, returnValue := returnValue, task := NIL));
      WriteTracker(v.tracker, x.(status := status, returnValue := returnValue, task := NIL));
      var p := x.parent;
      if v.detached || p == NIL {
        if status == Crashed {
          return true;
        }
        parked := RemoveTracker(v.tracker);
      } else {
        var y := ReadTracker(p);
        if y.waiting && Matches(y.waitTid, v.tid) {
          parked := WakeParent(v, p, y);
        }
      }
    }

    /** Ends the wait of the parent `p`, tells it about the exit of `v`, and publishes it. */
    method WakeParent(v: Task, p: int, y: Tracker) returns (parked: bool)
      requires Valid() && v.tracker in Abs().trackers && p in Abs().trackers && Abs().trackers[p] == y
      requires Rooted(Abs().trackers) && -1 <= y.task < |Abs().core.tasks|
      modifies this, taskUsed
      modifies endpoints.exec, endpoints.exec.tasks, endpoints.exec.previous, endpoints.exec.next
      modifies trackers, trackers.used, trackers.records, trackers.firstChild, trackers.previousSibling
      modifies trackers.nextSibling
      ensures !parked ==> Valid()
      ensures var k := old(Abs());
              if y.task == NIL then parked else
              match Machine.RemoveTracker(k.trackers[p := y.(waiting := false)], v.tracker)
              case Park => parked
              case Run(g) =>
                match Machine.AddTask(SetTask(k.core, y.task, A0(k.core.tasks[y.task], v.tid)), y.task)
                case Park => parked
                case Run(c) => !parked && Abs() == k.(core := c, trackers := g)
    {
      hide Valid, Machine.RemoveTracker, Machine.AddTask, Rooted;
      if y.task == NIL {
        return true;
      }
      RewriteRooted(Abs().trackers, p, y.(waiting := false));
      WriteTracker(p, y.(waiting := false));
      var w := ReadTask(y.task);
      WriteTask(y.task, A0(w, v.tid));
      parked := RemoveTracker(v.tracker);
      if !parked {
        var ok := AddTask(y.task);
        parked := !ok;
      }
    }

    method EndTask(h: int, t: int, returnValue: nat, status: ExitStatus, now: nat) returns (parked: bool)
      requires Valid() && HartIndex(Abs().core, h) && Caller(Abs(), t)
      modifies this, taskUsed
      modifies endpoints.exec, endpoints.exec.tasks, endpoints.exec.previous, endpoints.exec.next, endpoints.exec.harts
      modifies trackers, trackers.used, trackers.records, trackers.firstChild, trackers.previousSibling
      modifies trackers.nextSibling
      ensures !parked ==> Valid()
      ensures match Machine.EndTask(old(Abs()), h, t, returnValue, status, now)
              case Park => parked
              case Run(k) => !parked && Abs() == k
    {
      hide Valid, Machine.Bury, Machine.SetNextRunnable;
      var v := ReadTask(t);
      ghost var c := SetTask(Abs().core, t, v.(state := Ended));
      WriteTask(t, v.(state := Ended));
      parked := SetNextRunnable(h, now);
      if !parked {
        SwitchKeepsTracker(c, h, t, now);
        parked := Bury(t, returnValue, status);
      }
    }

    /** `wait_task`; `pick` is the child it found. */
    method WaitTask(h: int, t: int, tid: int, now: nat) returns (rescheduled: bool, parked: bool, ghost pick: int)
      requires Valid() && HartIndex(Abs().core, h) && Caller(Abs(), t) && tid + TWO64 >= 0
      modifies this, taskUsed
      modifies endpoints.exec, endpoints.exec.tasks, endpoints.exec.previous, endpoints.exec.next, endpoints.exec.harts
      modifies trackers, trackers.used, trackers.records, trackers.firstChild, trackers.previousSibling
      modifies trackers.nextSibling
      ensures !parked ==> Valid()
      ensures ChildFound(old(Abs()).trackers, old(Abs()).core.tasks[t].tracker, tid, pick)
      ensures match Machine.WaitTask(old(Abs()), h, t, tid, pick, now)
              case Park => parked
              case Run(r) => !parked && Abs() == r.kernel && rescheduled == r.rescheduled
    {
      hide Valid, Machine.RemoveTracker, Machine.SetNextRunnable, Rooted;
      rescheduled, parked := false, false;
      var v := ReadTask(t);
      var child := FindChild(v.tracker, tid);
      pick := child;
      if child == NIL {
        WriteTask(t, A0(v, Errno(35)));
        return;
      }
      var x := ReadTracker(child);
      if x.task == NIL {
        parked := Collect(t, v, child, x.key);
      } else {
        rescheduled := true;
        parked := Join(h, t, v, tid, if tid < 0 then TWO64 + tid else tid, now);
      }
    }

    /** Removes the completed child and answers with its id. */
    method Collect(t: int, v: Task, child: int, key: nat) returns (parked: bool)
      requires Valid() && Slot(Abs().core, t) && v == Abs().core.tasks[t] && Rooted(Abs().trackers)
      requires child in Abs().trackers
      modifies endpoints.exec.tasks
      modifies trackers, trackers.used, trackers.records, trackers.firstChild, trackers.previousSibling
      modifies trackers.nextSibling
      ensures !parked ==> Valid()
      ensures var k := old(Abs());
              match Machine.RemoveTracker(k.trackers, child)
              case Park => parked
              case Run(g) => !parked && Abs() == k.(trackers := g, core := SetTask(k.core, t, A0(v, key)))
    {
      hide Valid, Machine.RemoveTracker, Rooted;
      WriteTask(t, A0(v, key));
      parked := RemoveTracker(child);
    }

    /** Blocks the caller on its own tracker and switches the hart away from it. */
    method Join(h: int, t: int, v: Task, tid: int, info: nat, now: nat) returns (parked: bool)
      requires Valid() && HartIndex(Abs().core, h) && Slot(Abs().core, t) && v == Abs().core.tasks[t]
      requires v.tracker in Abs().trackers
      modifies endpoints.exec, endpoints.exec.tasks, endpoints.exec.previous, endpoints.exec.next, endpoints.exec.harts
      modifies trackers, trackers.records
      ensures !parked ==> Valid()
      ensures var k := old(Abs());
              var x := k.trackers[v.tracker].(waiting := true, waitTid := tid);
              match Machine.SetNextRunnable(SetTask(k.core, t, v.(state := BlockedJoin, stateInfo := info)), h, now)
              case Park => parked
              case Run(c) => !parked && Abs() == k.(core := c, trackers := k.trackers[v.tracker := x])
    {
      hide Valid, Machine.SetNextRunnable;
      var y := ReadTracker(v.tracker);
      WriteTracker(v.tracker, y.(waiting := true, waitTid := tid));
      WriteTask(t, v.(state := BlockedJoin, stateInfo := info));
      parked := SetNextRunnable(h, now);
    }

    method FindChild(r: int, tid: int) returns (pick: int)
      requires Valid() && r in Abs().trackers
      ensures ChildFound(Abs().trackers, r, tid, pick)
    {
      hide EndpointManager.Valid;
      trackers.TableFacts({});
      hide TrackerTable.Valid;
      pick := trackers.FindChild(r, tid);
    }

    /** Takes the lowest free task slot, or returns `NIL`. */
    method AllocateTask() returns (i: int)
      requires Valid()
      modifies taskUsed
      ensures Valid() && -1 <= i < |old(Abs()).used|
      ensures if i == NIL then FreeIndex(old(Abs()).used) == |old(Abs()).used| && Abs() == old(Abs())
              else i == FreeIndex(old(Abs()).used) && Abs() == old(Abs()).(used := old(Abs()).used[i := true])
    {
      hide EndpointManager.Valid, TrackerTable.Valid;
      i := 0;
      while i < taskUsed.Length
        invariant 0 <= i <= taskUsed.Length && forall j :: 0 <= j < i ==> taskUsed[..][j]
      {
        if !taskUsed[i] {
          assert FreeIndex(taskUsed[..]) == i;
          taskUsed[i] := true;
          assert taskUsed[..] == old(taskUsed[..])[i := true];
          return;
        }
        i := i + 1;
      }
      assert FreeIndex(taskUsed[..]) == taskUsed.Length;
      i := NIL;
    }

    /** Between taking the tracker slot `r` and hanging it somewhere. */
    ghost predicate Halfway(r: int)
      reads this, taskUsed
      reads endpoints, endpoints.claimed, endpoints.records, endpoints.rings, endpoints.messagePrevious
      reads endpoints.messageNext
      reads endpoints.exec, endpoints.exec.tasks, endpoints.exec.previous, endpoints.exec.next, endpoints.exec.harts
      reads endpoints.exec.delayHeads, endpoints.exec.delayPrevious, endpoints.exec.delayNext
      reads trackers, trackers.used, trackers.records, trackers.firstChild, trackers.previousSibling
      reads trackers.nextSibling
    {
      && Separate() && endpoints.Valid() && trackers.Valid({r}) && 0 <= r < trackers.used.Length && trackers.used[r]
      && r in trackers.Forest() && trackers.Forest()[r] == BLANK_TRACKER && r < |trackers.kids|
      && trackers.kids[r] == []
    }

    method ReserveTracker() returns (r: int)
      requires Valid()
      modifies trackers.used, trackers.records
      ensures r == NIL <==> FreeTracker(old(Abs()).trackers, old(Abs()).trackerSlots, 0) == old(Abs()).trackerSlots
      ensures r == NIL ==> Valid() && Abs() == old(Abs())
      ensures r != NIL ==>
                && r == FreeTracker(old(Abs()).trackers, old(Abs()).trackerSlots, 0) && r !in old(Abs()).trackers
                && Halfway(r) && Abs() == old(Abs()).(trackers := old(Abs()).trackers[r := BLANK_TRACKER])
    {
      hide EndpointManager.Valid, TrackerTable.Valid;
      r := trackers.AllocateTracker();
    }

    method ReturnTracker(r: int)
      requires Halfway(r)
      modifies trackers.used, trackers.records
      ensures Valid() && Abs() == old(Abs()).(trackers := old(Abs()).trackers - {r})
    {
      hide EndpointManager.Valid, TrackerTable.Valid;
      trackers.ReleaseTracker(r, {r});
      assert {r} - {r} == {};
    }

    method AdoptTracker(r: int, parent: int, v: Tracker)
      requires Halfway(r) && v.parent == NIL && parent in Abs().trackers
      modifies trackers, trackers.records, trackers.firstChild, trackers.previousSibling, trackers.nextSibling
      ensures Valid() && Abs() == old(Abs()).(trackers := old(Abs()).trackers[r := v.(parent := parent)])
    {
      hide EndpointManager.Valid, TrackerTable.Valid;
      trackers.WriteTracker(r, v, {r});
      trackers.LinkTracker(r, parent, {r});
      assert {r} - {r} == {};
      assert trackers.Forest()[r] == trackers.records[r];
    }

    method AbandonTask(i: int)
      requires Valid() && 0 <= i < |Abs().used|
      modifies taskUsed
      ensures Valid() && Abs() == old(Abs()).(used := old(Abs()).used[i := false])
    {
      hide EndpointManager.Valid, TrackerTable.Valid;
      taskUsed[i] := false;
      assert taskUsed[..] == old(taskUsed[..])[i := false];
    }

    /** `create_task` followed by `add_task`. */
    method CreateTask(h: int, t: int, spawn: Spawn) returns (parked: bool)
      requires Valid() && HartIndex(Abs().core, h) && Caller(Abs(), t) && Blanks(Abs()) && Abs().used[t]
      modifies this, taskUsed
      modifies endpoints.exec, endpoints.exec.tasks, endpoints.exec.previous, endpoints.exec.next
      modifies trackers, trackers.used, trackers.records, trackers.firstChild, trackers.previousSibling
      modifies trackers.nextSibling
      ensures !parked ==> Valid()
      ensures match Machine.CreateTask(old(Abs()), h, t, spawn)
              case Park => parked
              case Run(k) => !parked && Abs() == k
    {
      hide Valid, Halfway, Machine.AddTask, Machine.CreateTask, FreeIndex, FreeTracker, SpawnContext, Caller, Blanks;
      ghost var k := Abs();
      CreatorFacts(k, t);
      CreateCases(k, h, t, spawn);
      parked := false;
      var v := ReadTask(t);
      var tid, satp := nextTid, v.context.satp;
      var i := AllocateTask();
      var r := ReserveTracker();
      if i == NIL || r == NIL || !spawn.stackOk {
        Refuse(t, i, r, k);
      } else {
        var context := PrepareContext(spawn, i, satp);
        Register(h, t, i, r, context, k);
        parked := Launch(t, i, tid);
      }
    }

    /** The context of a child in slot `i`: its stack is the one of the slot. */
    method PrepareContext(spawn: Spawn, i: nat, satp: nat) returns (context: Context)
      ensures context == SpawnContext(spawn, i, satp)
    {
      var stackTop := spawn.image.stacks + i * STACK_SIZE + STACK_SIZE;
      context := InitializeUser(spawn.entry, spawn.argument, stackTop, spawn.image.stub, spawn.image.mstatus, satp);
    }

    /** The caller is told that there is no slot or stack for the child. */
    method Refuse(t: int, i: int, r: int, ghost k: Kernel)
      requires -1 <= i < |k.used|
      requires (if r == NIL then Valid() else Halfway(r) && r !in k.trackers)
      requires (i != NIL ==> !k.used[i]) && Slot(k.core, t)
      requires Abs() == k.(used := if i == NIL then k.used else k.used[i := true],
                           trackers := if r == NIL then k.trackers else k.trackers[r := BLANK_TRACKER])
      modifies taskUsed, trackers.used, trackers.records, endpoints.exec.tasks
      ensures Valid() && Abs() == k.(core := SetTask(k.core, t, A0(k.core.tasks[t], Errno(12))))
    {
      hide Valid, Halfway;
      GiveBack(i, r, k);
      var v := ReadTask(t);
      WriteTask(t, A0(v, Errno(12)));
    }

    /** Returns what was taken when the child cannot be made. */
    method GiveBack(i: int, r: int, ghost k: Kernel)
      requires -1 <= i < |k.used|
      requires (if r == NIL then Valid() else Halfway(r) && r !in k.trackers)
      requires i != NIL ==> !k.used[i]
      requires Abs() == k.(used := if i == NIL then k.used else k.used[i := true],
                           trackers := if r == NIL then k.trackers else k.trackers[r := BLANK_TRACKER])
      modifies taskUsed, trackers.used, trackers.records
      ensures Valid() && Abs() == k
    {
      hide Valid, Halfway;
      if r != NIL {
        ReturnTracker(r);
        assert k.trackers[r := BLANK_TRACKER] - {r} == k.trackers;
      }
      if i != NIL {
        AbandonTask(i);
        assert k.used[i := true][i := false] == k.used;
      }
    }

    /** Fills both slots and hangs the tracker under the caller's. */
    method Register(h: int, t: int, i: int, r: int, context: Context, ghost k: Kernel)
      requires Halfway(r) && Slot(k.core, t) && Slot(k.core, i) && i < |k.used| && k.core.tasks[i] == BLANK_TASK
      requires k.core.tasks[t].tracker in k.trackers
      requires Abs() == k.(used := k.used[i := true], trackers := k.trackers[r := BLANK_TRACKER])
      modifies this, endpoints.exec.tasks
      modifies trackers, trackers.records, trackers.firstChild, trackers.previousSibling, trackers.nextSibling
      ensures Valid()
      ensures var tracker := Tracker(k.core.tasks[t].tracker, k.nextTid, i, Alive, 0, false, 0);
              Abs() == k.(core := SetTask(k.core, i, NewTask(h, context, k.nextTid, r)), used := k.used[i := true],
                          trackers := k.trackers[r := tracker], nextTid := k.nextTid + 1)
    {
      hide Valid, Halfway;
      assert endpoints.exec.tasks[t] == Abs().core.tasks[t];
      var v := Tracker(NIL, nextTid, i, Alive, 0, false, 0);
      var parent := endpoints.exec.tasks[t].tracker;
      AdoptTracker(r, parent, v);
      assert k.trackers[r := BLANK_TRACKER][r := v.(parent := parent)] == k.trackers[r := v.(parent := parent)];
      var tid := TakeTid();
      WriteTask(i, NewTask(h, context, tid, r));
    }

    /** Publishes the new task and answers with its id. */
    method Launch(t: int, i: int, tid: nat) returns (parked: bool)
      requires Valid() && Slot(Abs().core, t) && Slot(Abs().core, i)
      modifies endpoints.exec, endpoints.exec.tasks, endpoints.exec.previous, endpoints.exec.next
      ensures !parked ==> Valid()
      ensures match Machine.AddTask(old(Abs()).core, i)
              case Park => parked
              case Run(c) => SameShape(old(Abs()).core, c) && !parked
                             && Abs() == old(Abs()).(core := SetTask(c, t, A0(c.tasks[t], tid)))
    {
      hide Valid, Machine.AddTask;
      var ok := AddTask(i);
      if !ok {
        return true;
      }
      var v := ReadTask(t);
      WriteTask(t, A0(v, tid));
      parked := false;
    }

    method TakeTid() returns (tid: nat)
      requires Valid()
      modifies this
      ensures Valid() && tid == old(nextTid) && Abs() == old(Abs()).(nextTid := tid + 1)
    {
      hide EndpointManager.Valid, TrackerTable.Valid;
      tid := nextTid;
      nextTid := tid + 1;
    }

    // -------------------------------------------------------------------------------------------
    // System calls

    method ReturnRunnable(h: int) returns (parked: bool)
      requires Valid() && HartIndex(Abs().core, h)
      modifies endpoints.exec, endpoints.exec.tasks, endpoints.exec.previous, endpoints.exec.next
      ensures !parked ==> Valid()
      ensures match Machine.ReturnRunnable(old(Abs()).core, h)
              case Park => parked
              case Run(c) => !parked && Abs() == old(Abs()).(core := c)
    {
      hide EndpointManager.Valid, TrackerTable.Valid, Machine.ReturnRunnable;
      parked := endpoints.ReturnRunnable(h);
    }

    method HandleYield(h: int, t: int, env: Env) returns (parked: bool)
      requires Valid() && HartIndex(Abs().core, h) && Slot(Abs().core, t)
      modifies endpoints.exec, endpoints.exec.tasks, endpoints.exec.previous, endpoints.exec.next, endpoints.exec.harts
      ensures !parked ==> Valid()
      ensures match Machine.HandleYield(old(Abs()), h, t, env)
              case Park => parked
              case Run(r) => !parked && Abs() == r.kernel && r.rescheduled
    {
      hide Valid, Machine.ReturnRunnable, Machine.SetNextRunnable;
      var v := ReadTask(t);
      WriteTask(t, A0(v, 0));
      parked := ReturnRunnable(h);
      if !parked {
        parked := SetNextRunnable(h, env.sliceNow);
      }
    }

    method HandleCreate(h: int, t: int, env: Env) returns (parked: bool)
      requires Valid() && HartIndex(Abs().core, h) && Caller(Abs(), t) && Blanks(Abs()) && Abs().used[t]
      modifies this, taskUsed
      modifies endpoints.exec, endpoints.exec.tasks, endpoints.exec.previous, endpoints.exec.next
      modifies trackers, trackers.used, trackers.records, trackers.firstChild, trackers.previousSibling
      modifies trackers.nextSibling
      ensures !parked ==> Valid()
      ensures match Machine.HandleCreate(old(Abs()), h, t, env)
              case Park => parked
              case Run(r) => !parked && Abs() == r.kernel && !r.rescheduled
    {
      hide Valid, Machine.CreateTask;
      if !env.entryOk {
        var v := ReadTask(t);
        WriteTask(t, A0(v, Errno(95)));
        parked := false;
      } else {
        var v := ReadTask(t);
        parked := CreateTask(h, t, Spawn(v.context.x[10], v.context.x[11], env.stackOk, env.image));
      }
    }

    method HandleWait(h: int, t: int, env: Env) returns (rescheduled: bool, parked: bool, ghost pick: int)
      requires Valid() && HartIndex(Abs().core, h) && Caller(Abs(), t)
      modifies this, taskUsed
      modifies endpoints.exec, endpoints.exec.tasks, endpoints.exec.previous, endpoints.exec.next, endpoints.exec.harts
      modifies trackers, trackers.used, trackers.records, trackers.firstChild, trackers.previousSibling
      modifies trackers.nextSibling
      ensures !parked ==> Valid()
      ensures var v := old(Abs()).core.tasks[t];
              ChildFound(old(Abs()).trackers, v.tracker, Signed(v.context.x[10]), pick)
      ensures match Machine.HandleWait(old(Abs()), h, t, env.(pick := pick))
              case Park => parked
              case Run(r) => !parked && Abs() == r.kernel && rescheduled == r.rescheduled
    {
      hide Valid, Machine.WaitTask, ChildFound;
      var v := ReadTask(t);
      var x := v.context.x;
      if x[11] != 0 || x[12] != 0 {
        pick := FindChild(v.tracker, Signed(x[10]));
        WriteTask(t, A0(v, Errno(95)));
        rescheduled, parked := false, false;
      } else {
        rescheduled, parked, pick := WaitTask(h, t, Signed(x[10]), env.sliceNow);
      }
    }

    method HandleSleep(h: int, t: int, env: Env) returns (rescheduled: bool, parked: bool)
      requires Valid() && HartIndex(Abs().core, h) && Slot(Abs().core, t)
      requires -1 <= Abs().core.tasks[t].cpu < |Abs().core.harts|
      modifies endpoints.exec, endpoints.exec.tasks, endpoints.exec.previous, endpoints.exec.next, endpoints.exec.harts
      modifies endpoints.exec.delayPrevious, endpoints.exec.delayNext, endpoints.exec.delayHeads
      ensures !parked ==> Valid()
      ensures match Machine.HandleSleep(old(Abs()), h, t, env)
              case Park => parked
              case Run(r) => !parked && Abs() == r.kernel && rescheduled == r.rescheduled
    {
      hide EndpointManager.Valid, TrackerTable.Valid, Machine.Sleep, DurationToTicks;
      var x := endpoints.exec.tasks[t].context.x;
      assert x == Abs().core.tasks[t].context.x;
      rescheduled, parked := endpoints.Sleep(h, t, x[10], x[11], env.now, env.sliceNow);
    }

    method HandleEndpointCreate(t: int)
      requires Valid() && Slot(Abs().core, t)
      modifies endpoints, endpoints.claimed, endpoints.records, endpoints.rings, endpoints.exec.tasks
      ensures Valid() && Handled(Abs(), false) == Machine.HandleEndpointCreate(old(Abs()), t)
    {
      hide EndpointManager.Valid, TrackerTable.Valid, Machine.CreateEndpoint;
      var v := endpoints.exec.tasks[t];
      assert v == Abs().core.tasks[t];
      var a0 := endpoints.CreateEndpoint(v.tid);
      assert v == endpoints.exec.Core().tasks[t];
      endpoints.WriteTask(t, A0(v, a0));
    }

    method HandleEndpointDestroy(t: int) returns (parked: bool)
      requires Valid() && Slot(Abs().core, t)
      modifies endpoints, endpoints.claimed, endpoints.records, endpoints.rings, endpoints.messagePrevious
      modifies endpoints.messageNext
      modifies endpoints.exec, endpoints.exec.tasks, endpoints.exec.previous, endpoints.exec.next
      ensures !parked ==> Valid()
      ensures match Machine.HandleEndpointDestroy(old(Abs()), t)
              case Park => parked
              case Run(r) => !parked && Abs() == r.kernel && !r.rescheduled
    {
      hide EndpointManager.Valid, TrackerTable.Valid, Machine.DestroyEndpoint;
      var v := endpoints.exec.tasks[t];
      assert v == Abs().core.tasks[t];
      var a0;
      a0, parked := endpoints.DestroyEndpoint(v.tid, v.context.x[10]);
      if !parked {
        Reply(t, a0);
      }
    }

    /** Writes the answer of a call into its caller. */
    method Reply(t: int, a0: nat)
      requires Valid() && Slot(Abs().core, t)
      modifies endpoints.exec.tasks
      ensures Valid() && Handled(Abs(), false) == Returned(old(Abs()), t, a0)
    {
      hide EndpointManager.Valid, TrackerTable.Valid;
      var v := endpoints.exec.tasks[t];
      assert v == Abs().core.tasks[t];
      endpoints.WriteTask(t, A0(v, a0));
    }

    method HandleSend(t: int) returns (parked: bool)
      requires Valid() && Slot(Abs().core, t)
      modifies endpoints, endpoints.records, endpoints.rings, endpoints.messagePrevious, endpoints.messageNext
      modifies endpoints.exec, endpoints.exec.tasks, endpoints.exec.previous, endpoints.exec.next
      ensures !parked ==> Valid()
      ensures match Machine.HandleSend(old(Abs()), t)
              case Park => parked
              case Run(r) => !parked && Abs() == r.kernel && !r.rescheduled
    {
      hide EndpointManager.Valid, TrackerTable.Valid, SendMessage;
      var v := endpoints.exec.tasks[t];
      assert v == Abs().core.tasks[t];
      var a0;
      a0, parked := endpoints.Send(v.context.x[10], MessageOf(v));
      if !parked {
        Reply(t, a0);
      }
    }

    method HandleReceive(h: int, t: int, env: Env) returns (rescheduled: bool, parked: bool)
      requires Valid() && HartIndex(Abs().core, h) && Slot(Abs().core, t)
      modifies endpoints, endpoints.records, endpoints.rings, endpoints.messagePrevious, endpoints.messageNext
      modifies endpoints.exec, endpoints.exec.tasks, endpoints.exec.previous, endpoints.exec.next, endpoints.exec.harts
      ensures !parked ==> Valid()
      ensures match Machine.HandleReceive(old(Abs()), h, t, env)
              case Park => parked
              case Run(r) => !parked && Abs() == r.kernel && rescheduled == r.rescheduled
    {
      hide EndpointManager.Valid, TrackerTable.Valid, ReceiveMessage;
      var v := endpoints.exec.tasks[t];
      assert v == Abs().core.tasks[t];
      rescheduled, parked := endpoints.Receive(h, t, v.context.x[10], env.sliceNow);
    }

    method HandleTryReceive(t: int)
      requires Valid() && Slot(Abs().core, t)
      modifies endpoints, endpoints.records, endpoints.rings, endpoints.exec.tasks
      ensures Valid() && Handled(Abs(), false) == Machine.HandleTryReceive(old(Abs()), t)
    {
      hide EndpointManager.Valid, TrackerTable.Valid, TryReceive;
      var v := endpoints.exec.tasks[t];
      assert v == Abs().core.tasks[t];
      endpoints.TryReceive(t, v.context.x[10]);
    }

    method HandleDetach(t: int)
      requires Valid() && Slot(Abs().core, t)
      modifies endpoints.exec.tasks
      ensures Valid() && Handled(Abs(), false) == Machine.HandleDetach(old(Abs()), t)
    {
      hide Valid;
      var v := ReadTask(t);
      if v.state == Ended {
        WriteTask(t, A0(v, 1));
      } else {
        WriteTask(t, A0(v, 0).(detached := true));
      }
    }

    /** The switch of `try_handle`; `pick` is the child that a wait found. */
    method Dispatch(h: int, t: int, env: Env) returns (rescheduled: bool, parked: bool, ghost pick: int)
      requires Valid() && HartIndex(Abs().core, h) && Caller(Abs(), t) && Blanks(Abs()) && Abs().used[t]
      requires -1 <= Abs().core.tasks[t].cpu < |Abs().core.harts|
      modifies this, taskUsed
      modifies endpoints, endpoints.claimed, endpoints.records, endpoints.rings, endpoints.messagePrevious
      modifies endpoints.messageNext
      modifies endpoints.exec, endpoints.exec.tasks, endpoints.exec.previous, endpoints.exec.next, endpoints.exec.harts
      modifies endpoints.exec.delayPrevious, endpoints.exec.delayNext, endpoints.exec.delayHeads
      modifies trackers, trackers.used, trackers.records, trackers.firstChild, trackers.previousSibling
      modifies trackers.nextSibling
      ensures !parked ==> Valid()
      ensures var v := old(Abs()).core.tasks[t];
              v.context.x[17] == 3 ==> ChildFound(old(Abs()).trackers, v.tracker, Signed(v.context.x[10]), pick)
      ensures match Machine.Dispatch(old(Abs()), h, t, env.(pick := pick))
              case Park => parked
              case Run(r) => !parked && Abs() == r.kernel && rescheduled == r.rescheduled
    {
      hide Valid, ChildFound, Machine.HandleYield, Machine.HandleCreate, Machine.EndTask, Machine.HandleWait,
        Machine.HandleDetach, Machine.HandleSleep, Machine.HandleEndpointCreate, Machine.HandleEndpointDestroy,
        Machine.HandleSend, Machine.HandleReceive, Machine.HandleTryReceive;
      var v := ReadTask(t);
      var number := v.context.x[17];
      rescheduled, parked, pick := false, false, env.pick;
      match number
      case 0 =>
        rescheduled := true;
        parked := HandleYield(h, t, env);
      case 1 => parked := HandleCreate(h, t, env);
      case 2 =>
        rescheduled := true;
        parked := EndTask(h, t, v.context.x[10], ExitedClean, env.sliceNow);
      case 3 => rescheduled, parked, pick := HandleWait(h, t, env);
      case 4 => HandleDetach(t);
      case 5 => rescheduled, parked := HandleSleep(h, t, env);
      case 6 => HandleEndpointCreate(t);
      case 7 => parked := HandleEndpointDestroy(t);
      case 8 => parked := HandleSend(t);
      case 9 => Reply(t, Errno(38));
      case 10 => rescheduled, parked := HandleReceive(h, t, env);
      case 11 => HandleTryReceive(t);
      case 12 => Reply(t, Errno(38));
      case _ =>
        rescheduled := true;
        parked := EndTask(h, t, 0, Crashed, env.sliceNow);
    }

    // -------------------------------------------------------------------------------------------
    // Traps

    method CurrentTask(h: int) returns (t: int)
      requires Valid() && HartIndex(Abs().core, h)
      ensures t == Abs().core.harts[h].current
    {
      hide EndpointManager.Valid, TrackerTable.Valid;
      t := endpoints.exec.harts[h].current;
    }

    method Arm(h: int, now: nat)
      requires Valid() && HartIndex(Abs().core, h)
      modifies endpoints.exec.harts
      ensures Valid() && Armed(old(Abs()), h, now) == Run(Abs())
    {
      hide EndpointManager.Valid, TrackerTable.Valid, Machine.Arm;
      endpoints.ArmCurrentTimeslice(h, now);
    }

    /** Copies the context of the hart's current task into the trap frame. */
    method RestoreCurrentContext(h: int, frame: TrapFrame)
      requires Valid() && HartIndex(Abs().core, h) && Slot(Abs().core, Abs().core.harts[h].current) && frame.Valid()
      modifies frame, frame.x
      ensures var c := Abs().core.tasks[Abs().core.harts[h].current].context;
              frame.Value() == Frame(c.x[0 := 0], c.mstatus, c.mepc)
    {
      hide Valid;
      var t := CurrentTask(h);
      var v := ReadTask(t);
      RestoreToTrap(v.context, frame);
    }

    /** Trap entry: saves the registers of the hart's current task and steps past the `ecall`. */
    method Enter(h: int, frame: TrapFrame) returns (t: int)
      requires Valid() && frame.Valid() && HartIndex(Abs().core, h) && Slot(Abs().core, Abs().core.harts[h].current)
      modifies endpoints.exec.tasks
      ensures Valid() && t == old(Abs()).core.harts[h].current
      ensures var c := old(Abs()).core;
              Abs() == old(Abs()).(core := SetTask(c, t, Entered(c.tasks[t], frame.Value())))
    {
      hide Valid;
      t := CurrentTask(h);
      var v := ReadTask(t);
      var context := SaveFromTrap(frame, v.context.satp);
      WriteTask(t, v.(context := context.(mepc := (context.mepc + 4) % TWO64)));
    }

    /** The call proper: dispatch, and arm the timer when the hart was switched. */
    method Perform(h: int, t: int, env: Env) returns (parked: bool, ghost pick: int)
      requires Valid() && HartIndex(Abs().core, h) && Caller(Abs(), t) && Blanks(Abs()) && Abs().used[t]
      requires -1 <= Abs().core.tasks[t].cpu < |Abs().core.harts|
      modifies this, taskUsed
      modifies endpoints, endpoints.claimed, endpoints.records, endpoints.rings, endpoints.messagePrevious
      modifies endpoints.messageNext
      modifies endpoints.exec, endpoints.exec.tasks, endpoints.exec.previous, endpoints.exec.next, endpoints.exec.harts
      modifies endpoints.exec.delayPrevious, endpoints.exec.delayNext, endpoints.exec.delayHeads
      modifies trackers, trackers.used, trackers.records, trackers.firstChild, trackers.previousSibling
      modifies trackers.nextSibling
      ensures !parked ==> Valid()
      ensures var v := old(Abs()).core.tasks[t];
              v.context.x[17] == 3 ==> ChildFound(old(Abs()).trackers, v.tracker, Signed(v.context.x[10]), pick)
      ensures match Machine.Dispatch(old(Abs()), h, t, env.(pick := pick))
              case Park => parked
              case Run(r) =>
                !parked && (if r.rescheduled then Armed(r.kernel, h, env.armNow) == Run(Abs()) else Abs() == r.kernel)
    {
      hide Valid, ChildFound, Machine.Dispatch, Armed;
      var rescheduled;
      rescheduled, parked, pick := Dispatch(h, t, env);
      if !parked && rescheduled {
        Arm(h, env.armNow);
      }
    }

    /** Trap entry and the call: the kernel's part of a system call. */
    method EnterAndPerform(h: int, frame: TrapFrame, env: Env) returns (parked: bool, ghost pick: int)
      requires Valid() && frame.Valid() && Inv(Abs()) && Allowed(Abs(), h, frame.Value())
      modifies this, taskUsed
      modifies endpoints, endpoints.claimed, endpoints.records, endpoints.rings, endpoints.messagePrevious
      modifies endpoints.messageNext
      modifies endpoints.exec, endpoints.exec.tasks, endpoints.exec.previous, endpoints.exec.next, endpoints.exec.harts
      modifies endpoints.exec.delayPrevious, endpoints.exec.delayNext, endpoints.exec.delayHeads
      modifies trackers, trackers.used, trackers.records, trackers.firstChild, trackers.previousSibling
      modifies trackers.nextSibling
      ensures var e := Syscall(h, frame.Value(), env.(pick := pick));
              && Offered(old(Abs()), e) && (parked <==> Stops(old(Abs()), e))
              && (!parked ==> Valid() && Stepped(old(Abs()), e, Abs()))
    {
      hide Stepped, Valid, Inv, Machine.Dispatch, Machine.Next, ChildFound, Offered, Stops, Allowed, Entered;
      ghost var k, f := Abs(), frame.Value();
      AllowedFacts(k, h, f);
      ghost var m := EnterStep(k, h, f);
      CallerFacts(m, h, k.core.harts[h].current);
      var t := Enter(h, frame);
      assert Abs() == m;
      parked, pick := Perform(h, t, env);
      EnteredRegisters(k.core.tasks[t], f);
      CallIsStep(k, h, f, env.(pick := pick), m);
      if !parked {
        StepIsStepped(k, Syscall(h, f, env.(pick := pick)), Abs());
      }
    }

    /**
     * A system call of the hart's current task is one step of the value machine. It parks the hart exactly when it is
     * an exit that must stop the kernel.
     */
    method TryHandle(h: int, frame: TrapFrame, env: Env) returns (parked: bool, ghost pick: int)
      requires Valid() && frame.Valid() && Inv(Abs()) && Allowed(Abs(), h, frame.Value())
      modifies this, taskUsed, frame, frame.x
      modifies endpoints, endpoints.claimed, endpoints.records, endpoints.rings, endpoints.messagePrevious
      modifies endpoints.messageNext
      modifies endpoints.exec, endpoints.exec.tasks, endpoints.exec.previous, endpoints.exec.next, endpoints.exec.harts
      modifies endpoints.exec.delayPrevious, endpoints.exec.delayNext, endpoints.exec.delayHeads
      modifies trackers, trackers.used, trackers.records, trackers.firstChild, trackers.previousSibling
      modifies trackers.nextSibling
      ensures var e := Syscall(h, old(frame.Value()), env.(pick := pick));
              && Offered(old(Abs()), e) && (parked <==> Stops(old(Abs()), e))
              && (!parked ==> Valid() && Performed(old(Abs()), e, Abs(), frame.Value()))
    {
      hide Performed, Stepped, Valid, Inv, Offered, Stops, Allowed, Resumes;
      ghost var k, f := Abs(), frame.Value();
      parked, pick := EnterAndPerform(h, frame, env);
      if !parked {
        SteppedFacts(k, Syscall(h, f, env.(pick := pick)), Abs());
        RestoreRunning(h, frame);
        CallIsPerformed(k, Syscall(h, f, env.(pick := pick)), Abs(), frame.Value());
      }
    }

    /** Every dispatched hart has a current task, so its context can be restored. */
    method RestoreRunning(h: int, frame: TrapFrame)
      requires Valid() && Inv(Abs()) && HartIndex(Abs().core, h) && Abs().core.harts[h].current != NIL && frame.Valid()
      modifies frame, frame.x
      ensures Resumes(Abs(), h, frame.Value())
    {
      CurrentIsRunning(Abs(), h, Abs().core.harts[h].current);
      hide Inv, Valid;
      RestoreCurrentContext(h, frame);
    }

    method CheckReleaseTasks(h: int, now: nat) returns (parked: bool)
      requires Valid() && HartIndex(Abs().core, h)
      modifies endpoints.exec, endpoints.exec.tasks, endpoints.exec.previous, endpoints.exec.next
      modifies endpoints.exec.delayPrevious, endpoints.exec.delayNext, endpoints.exec.delayHeads
      ensures !parked ==> Valid()
      ensures match ReleaseDue(old(Abs()).core, h, now)
              case Park => parked
              case Run(c) => !parked && Abs() == old(Abs()).(core := c)
    {
      hide EndpointManager.Valid, TrackerTable.Valid, ReleaseDue;
      parked := endpoints.CheckReleaseTasks(h, now);
    }

    /** The body of `handle_timer_interrupt` once the registers are saved. */
    method Preempt(h: int, env: Env) returns (parked: bool)
      requires Valid() && HartIndex(Abs().core, h)
      modifies endpoints.exec, endpoints.exec.tasks, endpoints.exec.previous, endpoints.exec.next, endpoints.exec.harts
      modifies endpoints.exec.delayPrevious, endpoints.exec.delayNext, endpoints.exec.delayHeads
      ensures !parked ==> Valid()
      ensures match Preempted(old(Abs()).core, h, env)
              case Park => parked
              case Run(c) => !parked && Armed(old(Abs()).(core := c), h, env.armNow) == Run(Abs())
    {
      hide Valid, ReleaseDue, Machine.ReturnRunnable, Machine.SetNextRunnable, Armed;
      parked := CheckReleaseTasks(h, env.now);
      if !parked {
        parked := ReturnRunnable(h);
      }
      if !parked {
        parked := SetNextRunnable(h, env.sliceNow);
      }
      if !parked {
        Arm(h, env.armNow);
      }
    }

    /** The kernel's part of a timer interrupt. */
    method SaveAndPreempt(h: int, frame: TrapFrame, env: Env)
      requires Valid() && frame.Valid() && Inv(Abs()) && HartIndex(Abs().core, h)
      requires Slot(Abs().core, Abs().core.harts[h].current)
      modifies endpoints.exec, endpoints.exec.tasks, endpoints.exec.previous, endpoints.exec.next, endpoints.exec.harts
      modifies endpoints.exec.delayPrevious, endpoints.exec.delayNext, endpoints.exec.delayHeads
      ensures Valid() && Stepped(old(Abs()), Timer(h, frame.Value(), env), Abs())
    {
      hide Valid, Inv, Preempted, Machine.Next, Legal, Armed, Stepped;
      ghost var k, f := Abs(), frame.Value();
      TimerIsStep(k, h, f, env);
      var t := CurrentTask(h);
      var v := ReadTask(t);
      var context := SaveFromTrap(frame, v.context.satp);
      WriteTask(t, v.(context := context));
      assert Abs().core == SetTask(k.core, t, Save(k.core.tasks[t], f));
      var parked := Preempt(h, env);
      StepIsStepped(k, Timer(h, f, env), Abs());
    }

    /** A timer interrupt is one step of the value machine, and it never parks. */
    method HandleTimerInterrupt(h: int, frame: TrapFrame, env: Env)
      requires Valid() && frame.Valid() && Inv(Abs()) && HartIndex(Abs().core, h)
      requires Slot(Abs().core, Abs().core.harts[h].current)
      modifies frame, frame.x
      modifies endpoints.exec, endpoints.exec.tasks, endpoints.exec.previous, endpoints.exec.next, endpoints.exec.harts
      modifies endpoints.exec.delayPrevious, endpoints.exec.delayNext, endpoints.exec.delayHeads
      ensures Valid() && Interrupted(old(Abs()), Timer(h, old(frame.Value()), env), Abs(), frame.Value())
    {
      hide Valid, Inv, Interrupted, Stepped, Resumes;
      ghost var k, f := Abs(), frame.Value();
      SaveAndPreempt(h, frame, env);
      SteppedFacts(k, Timer(h, f, env), Abs());
      RestoreRunning(h, frame);
      InterruptIsHandled(k, Timer(h, f, env), Abs(), frame.Value());
    }

    /** The first dispatch of a secondary hart is one step of the value machine. */
    method StartHart(h: int, frame: TrapFrame, env: Env)
      requires Valid() && frame.Valid() && Inv(Abs()) && HartIndex(Abs().core, h) && Abs().core.harts[h].current == NIL
      modifies frame, frame.x
      modifies endpoints.exec, endpoints.exec.tasks, endpoints.exec.previous, endpoints.exec.next, endpoints.exec.harts
      ensures Legal(old(Abs()), Start(h, env)) && Machine.Next(old(Abs()), Start(h, env)) == Run(Abs())
      ensures Valid() && Inv(Abs()) && Resumes(Abs(), h, frame.Value())
    {
      hide Valid, Inv, Machine.SetNextRunnable, Machine.Next, Resumes, Armed;
      StartIsStep(Abs(), h, env);
      var parked := SetNextRunnable(h, env.sliceNow);
      Arm(h, env.armNow);
      RestoreRunning(h, frame);
    }
  }

  /** The calls there are: idle tasks only yield, and registers are 64 bits wide. */
  ghost predicate Allowed(k: Kernel, h: int, f: Frame) {
    && HartIndex(k.core, h) && Slot(k.core, k.core.harts[h].current) && f.x[10] < TWO64
    && (k.core.tasks[k.core.harts[h].current].idle ==> f.x[17] == 0)
  }

  lemma AllowedFacts(k: Kernel, h: int, f: Frame)
    requires Allowed(k, h, f)
    ensures HartIndex(k.core, h) && Slot(k.core, k.core.harts[h].current)
  {
  }

  lemma AllowedIsOffered(k: Kernel, h: int, f: Frame, env: Env)
    requires Allowed(k, h, f)
    requires f.x[17] == 3 ==>
               ChildFound(k.trackers, k.core.tasks[k.core.harts[h].current].tracker, Signed(f.x[10]), env.pick)
    ensures Offered(k, Syscall(h, f, env))
  {
  }

  /** The frame holds the context of the hart's current task. */
  ghost predicate Resumes(k: Kernel, h: int, f: Frame) {
    && HartIndex(k.core, h) && Slot(k.core, k.core.harts[h].current)
    && var c := k.core.tasks[k.core.harts[h].current].context;
       f == Frame(c.x[0 := 0], c.mstatus, c.mepc)
  }

  /** A call that returns to its caller without another task in between does so with its answer. */
  ghost predicate Continues(k: Kernel, e: Event, l: Kernel, g: Frame) {
    Returns(k, e) && HartIndex(l.core, e.hart) && l.core.harts[e.hart].current == CallerOf(k, e) ==>
      FrameFinds(e.frame, AnswerOf(k, e), g)
  }

  /** The call is a step of the value machine, and the frame holds the context of the task that goes on. */
  ghost predicate Performed(k: Kernel, e: Event, l: Kernel, g: Frame) {
    Machine.Next(k, e) == Run(l) && Inv(l) && Resumes(l, e.hart, g) && Continues(k, e, l, g)
  }

  /** A step that leaves a task on the hart. */
  ghost predicate Stepped(k: Kernel, e: Event, l: Kernel) {
    && Machine.Next(k, e) == Run(l) && Inv(l) && HartIndex(l.core, e.hart) && l.core.harts[e.hart].current != NIL
  }

  lemma StepIsStepped(k: Kernel, e: Event, l: Kernel)
    requires Machine.Next(k, e) == Run(l) && Inv(l) && HartIndex(l.core, e.hart)
    requires l.core.harts[e.hart].current != NIL
    ensures Stepped(k, e, l)
  {
  }

  lemma SteppedFacts(k: Kernel, e: Event, l: Kernel)
    requires Stepped(k, e, l)
    ensures Machine.Next(k, e) == Run(l) && Inv(l) && HartIndex(l.core, e.hart)
    ensures l.core.harts[e.hart].current != NIL
  {
  }

  lemma CallIsPerformed(k: Kernel, e: Event, l: Kernel, g: Frame)
    requires Inv(k) && Offered(k, e) && !Stops(k, e)
    requires Machine.Next(k, e) == Run(l) && Inv(l) && Resumes(l, e.hart, g)
    ensures Performed(k, e, l, g)
  {
    hide Inv, Offered, Stops, Machine.Next, AnswerOf;
    if Returns(k, e) {
      StepAnswers(k, e);
    }
  }

  /** A preempted task that is dispatched again at once goes on with the registers it was interrupted with. */
  ghost predicate GoesOn(k: Kernel, e: Event, l: Kernel, g: Frame) {
    (&& e.Timer? && HartIndex(k.core, e.hart) && HartIndex(l.core, e.hart)
     && l.core.harts[e.hart].current == k.core.harts[e.hart].current) ==> g == e.frame.(x := e.frame.x[0 := 0])
  }

  /** The interrupt is a step of the value machine, and the frame holds the context of the task that goes on. */
  ghost predicate Interrupted(k: Kernel, e: Event, l: Kernel, g: Frame) {
    Legal(k, e) && Machine.Next(k, e) == Run(l) && Inv(l) && Resumes(l, e.hart, g) && GoesOn(k, e, l, g)
  }

  lemma InterruptIsHandled(k: Kernel, e: Event, l: Kernel, g: Frame)
    requires Inv(k) && Inv(l) && e.Timer? && HartIndex(k.core, e.hart) && Slot(k.core, k.core.harts[e.hart].current)
    requires Machine.Next(k, e) == Run(l) && Resumes(l, e.hart, g)
    ensures Interrupted(k, e, l, g)
  {
    hide Inv, Machine.Next;
    CurrentIsLive(k, e.hart);
    TimerSaves(k, e, l);
    assert e.frame.x[0 := 0][0 := 0] == e.frame.x[0 := 0];
  }

  lemma CurrentIsLive(k: Kernel, h: int)
    requires Inv(k) && HartIndex(k.core, h) && Slot(k.core, k.core.harts[h].current)
    ensures Live(k, k.core.harts[h].current)
  {
    CurrentIsRunning(k, h, k.core.harts[h].current);
  }

  lemma ArmKeepsCurrent(c: Core, h: int, now: nat)
    requires HartIndex(c, h) && Machine.Arm(c, h, now).Run?
    ensures Machine.Arm(c, h, now).value.harts[h].current == c.harts[h].current
  {
  }

  lemma SwitchDispatches(c: Core, h: int, now: nat)
    requires HartIndex(c, h) && SetNextRunnable(c, h, now).Run?
    ensures SetNextRunnable(c, h, now).value.harts[h].current != NIL
  {
  }

  lemma EndDispatches(k: Kernel, h: int, t: int, rv: nat, status: ExitStatus, now: nat)
    requires HartIndex(k.core, h) && Slot(k.core, t) && Machine.EndTask(k, h, t, rv, status, now).Run?
    ensures Machine.EndTask(k, h, t, rv, status, now).value.core.harts[h].current != NIL
  {
    hide SetNextRunnable, Machine.RemoveTracker;
    SwitchDispatches(SetTask(k.core, t, k.core.tasks[t].(state := Ended)), h, now);
  }

  /** A system call leaves a task on its hart. */
  lemma CallDispatches(k: Kernel, h: int, t: int, env: Env)
    requires HartIndex(k.core, h) && Slot(k.core, t) && k.core.harts[h].current != NIL
    requires Machine.Dispatch(k, h, t, env).Run?
    ensures Machine.Dispatch(k, h, t, env).value.kernel.core.harts[h].current != NIL
  {
    hide SetNextRunnable, Machine.EndTask, Machine.RemoveTracker, WakeAll, DurationToTicks;
    assert forall c: Core, now: nat {:trigger SetNextRunnable(c, h, now)} ::
        HartIndex(c, h) && SetNextRunnable(c, h, now).Run? ==>
          SetNextRunnable(c, h, now).value.harts[h].current != NIL by {
      forall c: Core, now: nat | HartIndex(c, h) && SetNextRunnable(c, h, now).Run?
        ensures SetNextRunnable(c, h, now).value.harts[h].current != NIL
      {
        SwitchDispatches(c, h, now);
      }
    }
    var x := k.core.tasks[t].context.x;
    if x[17] == 2 {
      EndDispatches(k, h, t, x[10], ExitedClean, env.sliceNow);
    } else if x[17] > 12 {
      EndDispatches(k, h, t, 0, Crashed, env.sliceNow);
    }
  }

  /** The dispatched call parks exactly as foretold, or is a step that leaves a task on the hart. */
  lemma CallIsStep(k: Kernel, h: int, f: Frame, env: Env, m: Kernel)
    requires Inv(k) && Allowed(k, h, f) && Slot(k.core, k.core.harts[h].current)
    requires var t := k.core.harts[h].current;
             m == k.(core := SetTask(k.core, t, Entered(k.core.tasks[t], f)))
    requires f.x[17] == 3 ==>
               ChildFound(k.trackers, k.core.tasks[k.core.harts[h].current].tracker, Signed(f.x[10]), env.pick)
    ensures var e := Syscall(h, f, env);
            && Offered(k, e) && (Machine.Next(k, e).Park? <==> Stops(k, e))
            && (Machine.Next(k, e).Park? <==> Machine.Dispatch(m, h, k.core.harts[h].current, env).Park?)
            && (Machine.Next(k, e).Run? ==>
                  && Inv(Machine.Next(k, e).value) && HartIndex(Machine.Next(k, e).value.core, h)
                  && Machine.Next(k, e).value.core.harts[h].current != NIL)
            && Machine.Next(k, e) == match Machine.Dispatch(m, h, k.core.harts[h].current, env)
                                     case Park => Park
                                     case Run(r) =>
                                       if r.rescheduled then Armed(r.kernel, h, env.armNow) else Run(r.kernel)
  {
    hide Inv, Machine.Next, Machine.Dispatch, ChildFound, Arm, Offered, Stops;
    AllowedIsOffered(k, h, f, env);
    StepIsExact(k, Syscall(h, f, env));
    SyscallStepIsExact(k, h, f, env);
    SyscallUnfolds(k, h, f, env);
    var r := Machine.Dispatch(m, h, k.core.harts[h].current, env);
    if r.Run? {
      CallDispatches(m, h, k.core.harts[h].current, env);
      if r.value.rescheduled {
        ArmKeepsCurrent(r.value.kernel.core, h, env.armNow);
      }
    }
  }

  /** The three scheduler steps of a timer interrupt. */
  ghost function Preempted(c: Core, h: int, env: Env): (r: Outcome<Core>)
    requires HartIndex(c, h)
    ensures r.Run? ==> SameShape(c, r.value)
  {
    var c1 :- ReleaseDue(c, h, env.now);
    var c2 :- Machine.ReturnRunnable(c1, h);
    Machine.SetNextRunnable(c2, h, env.sliceNow)
  }

  lemma TimerIsStep(k: Kernel, h: int, f: Frame, env: Env)
    requires Inv(k) && HartIndex(k.core, h) && Slot(k.core, k.core.harts[h].current)
    ensures var e, t := Timer(h, f, env), k.core.harts[h].current;
            && Legal(k, e) && Machine.Next(k, e).Run? && Inv(Machine.Next(k, e).value)
            && HartIndex(Machine.Next(k, e).value.core, h) && Machine.Next(k, e).value.core.harts[h].current != NIL
            && match Preempted(SetTask(k.core, t, Save(k.core.tasks[t], f)), h, env)
               case Park => false
               case Run(c) => Machine.Next(k, e) == Armed(k.(core := c), h, env.armNow)
  {
    hide Inv, ReleaseDue, Machine.ReturnRunnable, Machine.SetNextRunnable, Machine.Arm;
    StepKeeps(k, Timer(h, f, env));
    var t := k.core.harts[h].current;
    var c := SetTask(k.core, t, Save(k.core.tasks[t], f));
    var c2 := Machine.ReturnRunnable(ReleaseDue(c, h, env.now).value, h).value;
    SwitchDispatches(c2, h, env.sliceNow);
    ArmKeepsCurrent(Machine.SetNextRunnable(c2, h, env.sliceNow).value, h, env.armNow);
  }

  lemma StartIsStep(k: Kernel, h: int, env: Env)
    requires Inv(k) && HartIndex(k.core, h) && k.core.harts[h].current == NIL
    ensures var e := Start(h, env);
            && Legal(k, e) && Machine.Next(k, e).Run? && Inv(Machine.Next(k, e).value)
            && HartIndex(Machine.Next(k, e).value.core, h) && Machine.Next(k, e).value.core.harts[h].current != NIL
            && match Machine.SetNextRunnable(k.core, h, env.sliceNow)
               case Park => false
               case Run(c) => Machine.Next(k, e) == Armed(k.(core := c), h, env.armNow)
  {
    hide Inv, Machine.SetNextRunnable, Machine.Arm;
    StepKeeps(k, Start(h, env));
    SwitchDispatches(k.core, h, env.sliceNow);
    ArmKeepsCurrent(Machine.SetNextRunnable(k.core, h, env.sliceNow).value, h, env.armNow);
  }

  lemma CallerFacts(k: Kernel, h: int, t: int)
    requires Inv(k) && Current(k, h, t)
    ensures Caller(k, t) && Blanks(k) && -1 <= k.core.tasks[t].cpu < |k.core.harts|
  {
    assert OwnsTracker(k, t) && TaskPlaced(k, t, {}, NO_HART);
    assert forall r :: r in k.trackers ==> TrackerOk(k, r);
  }

  lemma SyscallUnfolds(k: Kernel, h: int, f: Frame, env: Env)
    requires HartIndex(k.core, h) && Slot(k.core, k.core.harts[h].current)
    ensures var t := k.core.harts[h].current;
            Machine.Next(k, Syscall(h, f, env)) ==
            match Machine.Dispatch(k.(core := SetTask(k.core, t, Entered(k.core.tasks[t], f))), h, t, env)
            case Park => Park
            case Run(r) => if r.rescheduled then Armed(r.kernel, h, env.armNow) else Run(r.kernel)
  {
    hide Machine.Dispatch, Armed;
  }

  lemma CreatorFacts(k: Kernel, t: int)
    requires Caller(k, t) && Blanks(k)
    ensures Slot(k.core, t) && |k.used| == |k.core.tasks| && k.core.tasks[t].tracker in k.trackers
    ensures var i := FreeIndex(k.used); i < |k.used| ==> k.core.tasks[i] == BLANK_TASK
  {
  }

  lemma CreateCases(k: Kernel, h: int, t: int, s: Spawn)
    requires HartIndex(k.core, h) && Slot(k.core, t) && |k.used| == |k.core.tasks|
    ensures var i, r := FreeIndex(k.used), FreeTracker(k.trackers, k.trackerSlots, 0);
            var tracker := Tracker(k.core.tasks[t].tracker, k.nextTid, i, Alive, 0, false, 0);
            var context := if i < |k.used| then SpawnContext(s, i, k.core.tasks[t].context.satp) else BLANK_CONTEXT;
            Machine.CreateTask(k, h, t, s) ==
            if i == |k.used| || r == k.trackerSlots || !s.stackOk then
              Run(k.(core := SetTask(k.core, t, A0(k.core.tasks[t], Errno(12)))))
            else match Machine.AddTask(SetTask(k.core, i, NewTask(h, context, k.nextTid, r)), i)
                 case Park => Park
                 case Run(c) => Run(k.(core := SetTask(c, t, A0(c.tasks[t], k.nextTid)), used := k.used[i := true],
                                       trackers := k.trackers[r := tracker], nextTid := k.nextTid + 1))
  {
    hide Machine.AddTask, SpawnContext;
  }

  lemma NoIdleContexts(c: Core, context: Context)
    ensures IdleContexts(c, 0, context)
  {
  }

  /** A slot that is not in use holds the cleared record. */
  lemma BootingFacts(k: Kernel, m: nat)
    requires Booting(k, m)
    ensures Blanks(k) && m <= |k.core.harts| == |k.core.sleepers| && 1 <= |k.core.harts| < |k.core.tasks|
    ensures |k.core.harts| < k.trackerSlots
  {
  }

  lemma PlantedFacts(k: Kernel, h: int, idle: bool, context: Context)
    requires FreeIndex(k.used) < |k.used| == |k.core.tasks|
    requires FreeTracker(k.trackers, k.trackerSlots, 0) < k.trackerSlots
    ensures SameShape(k.core, Planted(k, h, idle, context).core)
    ensures Planted(k, h, idle, context).core.harts == k.core.harts
  {
  }

  lemma WithIdleFacts(k: Kernel, h: int, i: int)
    requires HartIndex(k.core, h)
    ensures SameShape(k.core, WithIdle(k, h, i).core)
  {
  }

  ghost predicate Blanks(k: Kernel) {
    |k.used| == |k.core.tasks| && forall i :: 0 <= i < |k.used| && !k.used[i] ==> k.core.tasks[i] == BLANK_TASK
  }

  /** What is known about the task that traps. */
  ghost predicate Caller(k: Kernel, t: int) {
    && Slot(k.core, t) && k.core.tasks[t].tracker in k.trackers && Rooted(k.trackers)
    && forall r :: r in k.trackers ==> -1 <= k.trackers[r].task < |k.core.tasks|
  }

  lemma SwitchKeepsTracker(c: Core, h: int, t: int, now: nat)
    requires HartIndex(c, h) && Slot(c, t) && SetNextRunnable(c, h, now).Run?
    ensures var d := SetNextRunnable(c, h, now).value;
            |d.tasks| == |c.tasks| && d.tasks[t].tracker == c.tasks[t].tracker
  {
  }

  /** `end_task` up to the point where the slot is freed. */
  ghost function Reported(k: Kernel, t: int, returnValue: nat, status: ExitStatus): (result: Outcome<Kernel>)
    requires Slot(k.core, t) && k.core.tasks[t].tracker in k.trackers
    ensures result.Run? ==> SameEndpoints(k, result.value)
  {
    var v := k.core.tasks[t];
    var r := v.tracker;
    var f := k.trackers[r := k.trackers[r].(status := status, returnValue := returnValue, task := NIL)];
    var p := f[r].parent;
    if v.detached || p == NIL then
      if status == Crashed then Park else
      var g :- Machine.RemoveTracker(f, r);
      Run(k.(trackers := g))
    else if p !in f then Park
    else if f[p].waiting && Matches(f[p].waitTid, v.tid) then
      var w := f[p].task;
      if !Slot(k.core, w) then Park else
      var g :- Machine.RemoveTracker(f[p := f[p].(waiting := false)], r);
      var c :- Machine.AddTask(SetTask(k.core, w, A0(k.core.tasks[w], v.tid)), w);
      Run(k.(core := c, trackers := g))
    else Run(k.(trackers := f))
  }

  lemma BuryReportsFirst(k: Kernel, t: int, returnValue: nat, status: ExitStatus)
    requires Slot(k.core, t) && k.core.tasks[t].tracker in k.trackers
    ensures Machine.Bury(k, t, returnValue, status) ==
            match Reported(k, t, returnValue, status)
            case Park => Park
            case Run(l) => Machine.ReleaseTask(l, t)
  {
    hide Machine.RemoveTracker, Machine.AddTask, Machine.ReleaseTask;
  }

  lemma RewriteRooted(f: map<int, Tracker>, r: int, v: Tracker)
    requires Rooted(f) && r in f && v.parent == f[r].parent && v.key == f[r].key
    ensures Rooted(f[r := v]) && (v.parent == NIL || v.parent in f) && v.parent != r
  {
  }
}
