/**
 * Whole runs of the executive, crashing callers included. Every step keeps the invariant, and it parks
 * the hart exactly when it is an exit that must stop the kernel.
 */
module Runs {
  import opened Base
  import opened IpcModel
  import opened Machine
  import opened Placement
  import opened Forest
  import opened IpcRefinement

  // ---------------------------------------------------------------------------------------------
  // The invariant

  ghost predicate TrackerOk(k: Kernel, r: int)
    requires r in k.trackers
  {
    var c, v := k.core, k.trackers[r];
    && 0 <= r < k.trackerSlots && v.key < k.nextTid
    && (v.task == NIL ==> v.status != Alive && !v.waiting)
    && (v.task != NIL ==> Slot(c, v.task) && v.task < |k.used| && k.used[v.task] && c.tasks[v.task].tracker == r)
    && (v.waiting ==> !c.tasks[v.task].idle && c.tasks[v.task].state == BlockedJoin)
  }

  ghost predicate OwnsTracker(k: Kernel, t: int)
    requires Slot(k.core, t)
  {
    var v := k.core.tasks[t];
    v.tracker in k.trackers && k.trackers[v.tracker].task == t && k.trackers[v.tracker].key == v.tid
  }

  /**
   * Trackers and live tasks are in one-to-one correspondence; completed trackers have a parent, except
   * possibly one that is about to be removed.
   */
  ghost predicate TrackersBut(k: Kernel, orphan: int) {
    && |k.used| == |k.core.tasks|
    && Rooted(k.trackers) && NoOrphans(k.trackers, orphan) && DistinctKeys(k.trackers)
    && (forall r :: r in k.trackers ==> TrackerOk(k, r))
    && (forall t {:trigger OwnsTracker(k, t)} {:trigger k.core.tasks[t]} ::
          Slot(k.core, t) && k.used[t] ==> OwnsTracker(k, t))
  }

  ghost predicate TrackersOk(k: Kernel) { TrackersBut(k, NIL) }

  ghost predicate Inv(k: Kernel) {
    && Placed(k, {}, NO_HART)
    && TrackersOk(k)
    && StateOk(k.limits, k.endpoints) && |k.endpoints| <= TWO32 && k.limits.ceiling < TWO32 / 2
  }

  /** A system call that does not park and leaves the invariant. */
  ghost predicate Fine(r: Outcome<Handled>) { r.Run? && Inv(r.value.kernel) }

  /** No task changes identity, and a task blocked in a join stays blocked. */
  ghost predicate Bystanders(c: Core, d: Core) {
    && SameShape(c, d)
    && forall u {:trigger d.tasks[u]} :: 0 <= u < |c.tasks| ==>
         && d.tasks[u].tid == c.tasks[u].tid && d.tasks[u].tracker == c.tasks[u].tracker
         && d.tasks[u].idle == c.tasks[u].idle
         && (c.tasks[u].state == BlockedJoin ==> d.tasks[u].state == BlockedJoin)
  }

  lemma TrackersFrame(k: Kernel, l: Kernel)
    requires TrackersOk(k) && Bystanders(k.core, l.core)
    requires l.used == k.used && l.trackers == k.trackers && l.trackerSlots == k.trackerSlots && l.nextTid == k.nextTid
    ensures TrackersOk(l)
  {
    assert forall r :: r in k.trackers ==> TrackerOk(k, r);
    assert forall t :: Slot(k.core, t) && k.used[t] ==> OwnsTracker(k, t);
  }

  // ---------------------------------------------------------------------------------------------
  // Steps of the scheduler and the timer

  ghost predicate Current(k: Kernel, h: int, t: int) {
    && HartIndex(k.core, h) && Slot(k.core, t) && k.core.harts[h].current == t
    && |k.used| == |k.core.tasks| && k.used[t]
  }

  lemma CurrentIsRunning(k: Kernel, h: int, t: int)
    requires Placed(k, {}, NO_HART) && HartIndex(k.core, h) && k.core.harts[h].current == t && t != NIL
    ensures Current(k, h, t) && Unqueued(k.core.tasks[t])
    ensures k.core.tasks[t].idle <==> t == k.core.harts[h].idle
    ensures !k.core.tasks[t].idle ==> k.core.tasks[t].state == Running && k.core.tasks[t].cpu == h
    ensures !WaitsSomewhere(k.endpoints, t)
  {
    assert HartPlaced(k, h, {}, NO_HART);
    assert TaskPlaced(k, t, {}, NO_HART);
    InNoQueue(k, {}, NO_HART, t);
  }

  lemma CallerIsRunning(k: Kernel, h: int, t: int)
    requires Inv(k) && Current(k, h, t) && !k.core.tasks[t].idle
    ensures Unqueued(k.core.tasks[t]) && k.core.tasks[t].state == Running && k.core.tasks[t].cpu == h
    ensures OwnsTracker(k, t)
  {
    CurrentIsRunning(k, h, t);
    assert OwnsTracker(k, t);
  }

  /** A hart whose current task is idle, or that has none, may be switched without further ado. */
  lemma IdleHartIsStale(k: Kernel, h: int)
    requires Placed(k, {}, NO_HART) && HartIndex(k.core, h)
    requires k.core.harts[h].current == NIL || k.core.harts[h].current == k.core.harts[h].idle
    ensures Placed(k, {}, h)
  {
    forall g | HartIndex(k.core, g) ensures HartPlaced(k, g, {}, h) {
      assert HartPlaced(k, g, {}, NO_HART);
    }
    forall t | Slot(k.core, t) && k.used[t] ensures TaskPlaced(k, t, {}, h) {
      assert TaskPlaced(k, t, {}, NO_HART);
      assert HartPlaced(k, h, {}, NO_HART);
    }
  }

  lemma SwitchStep(k: Kernel, limbo: set<int>, h: int, now: nat)
    requires Placed(k, limbo, h) && HartIndex(k.core, h)
    ensures SetNextRunnable(k.core, h, now).Run?
    ensures var d := SetNextRunnable(k.core, h, now).value;
            Placed(k.(core := d), limbo, NO_HART) && Bystanders(k.core, d)
  {
    SetNextKeeps(k, limbo, h, now);
    assert HartPlaced(k, h, limbo, h) && TaskPlaced(k, k.core.harts[h].idle, limbo, h);
  }

  /** `return_runnable` then `set_next_runnable`: the common tail of yield and preemption. */
  lemma RescheduleStep(k: Kernel, h: int, now: nat)
    requires Placed(k, {}, NO_HART) && HartIndex(k.core, h) && k.core.harts[h].current != NIL
    ensures ReturnRunnable(k.core, h).Run?
    ensures SetNextRunnable(ReturnRunnable(k.core, h).value, h, now).Run?
    ensures var d := SetNextRunnable(ReturnRunnable(k.core, h).value, h, now).value;
            Placed(k.(core := d), {}, NO_HART) && Bystanders(k.core, d)
  {
    var t := k.core.harts[h].current;
    CurrentIsRunning(k, h, t);
    if t == k.core.harts[h].idle {
      IdleHartIsStale(k, h);
      SwitchStep(k, {}, h, now);
    } else {
      LeaveKeeps(k, h, k.core.tasks[t]);
      assert k.(core := SetTask(k.core, t, k.core.tasks[t])) == k;
      AddTaskKeeps(k, {t}, h, t);
      assert {t} - {t} == {};
      SwitchStep(k.(core := AddTask(k.core, t).value), {}, h, now);
    }
  }

  /** A timer pass releases exactly the due entries and never fails. */
  lemma {:induction false} ReleaseStep(k: Kernel, h: int, now: nat)
    requires Placed(k, {}, NO_HART) && HartIndex(k.core, h)
    ensures ReleaseDue(k.core, h, now).Run?
    ensures var d := ReleaseDue(k.core, h, now).value;
            Placed(k.(core := d), {}, NO_HART) && Bystanders(k.core, d) && d.harts == k.core.harts
    decreases |k.core.sleepers[h]|
  {
    var c, q := k.core, k.core.sleepers[h];
    if q != [] {
      assert SleepersPlaced(k, h, {}) && q[0] in q;
      if c.tasks[q[0]].deadline <= now {
        var v := c.tasks[q[0]].(delayQueued := false, stateInfo := 0);
        assert TaskPlaced(k, q[0], {}, NO_HART);
        var l := k.(core := SetTask(c, q[0], v).(sleepers := c.sleepers[h := q[1..]]));
        PopSleeperKeeps(k, l, {}, NO_HART, h, v);
        assert {} + {q[0]} == {q[0]} && {q[0]} - {q[0]} == {};
        AddTaskKeeps(l, {q[0]}, NO_HART, q[0]);
        ReleaseStep(l.(core := AddTask(l.core, q[0]).value), h, now);
      }
    }
  }

  lemma ArmStep(k: Kernel, h: int, now: nat)
    requires Inv(k) && HartIndex(k.core, h)
    ensures Armed(k, h, now).Run? && Inv(Armed(k, h, now).value)
  {
    assert HartPlaced(k, h, {}, NO_HART);
    var l := Armed(k, h, now).value;
    FrameKeeps(k, l, {}, NO_HART);
    TrackersFrame(k, l);
  }

  // ---------------------------------------------------------------------------------------------
  // Steps of the endpoints

  lemma SimulatesKeepsOk(lim: Limits, s: seq<Endpoint>, labels: seq<Label>, t: seq<Endpoint>)
    requires StateOk(lim, s) && Simulates(lim, s, labels, t)
    ensures StateOk(lim, t) && |t| == |s|
  {
    if |labels| == 1 {
      NextKeepsStateOk(lim, s, labels[0], t);
    }
  }

  /** Writing a task's registers, or detaching it, disturbs nothing. */
  lemma TouchStep(k: Kernel, t: int, w: Task)
    requires Inv(k) && Slot(k.core, t) && k.used[t]
    requires SamePlace(k.core.tasks[t], w) && w.tid == k.core.tasks[t].tid
    ensures Inv(k.(core := SetTask(k.core, t, w)))
  {
    TouchKeeps(k, {}, NO_HART, t, w);
    TrackersFrame(k, k.(core := SetTask(k.core, t, w)));
  }

  ghost predicate NewEndpoints(k: Kernel, eps: seq<Endpoint>) {
    |eps| == |k.endpoints| && forall e :: 0 <= e < |eps| ==> eps[e].waiters == k.endpoints[e].waiters
  }

  /** New endpoint contents with the same waiters. */
  lemma EndpointStep(k: Kernel, eps: seq<Endpoint>)
    requires Inv(k) && NewEndpoints(k, eps) && StateOk(k.limits, eps)
    ensures Inv(k.(endpoints := eps))
  {
    FrameKeeps(k, k.(endpoints := eps), {}, NO_HART);
    TrackersFrame(k, k.(endpoints := eps));
  }

  lemma EndpointCreateStep(k: Kernel, t: int)
    requires Inv(k) && Slot(k.core, t) && k.used[t]
    ensures Inv(HandleEndpointCreate(k, t).kernel)
  {
    var tid := k.core.tasks[t].tid;
    var (eps, a0) := CreateEndpoint(k.endpoints, tid);
    CreateSimulates(k.limits, k.endpoints, tid);
    SimulatesKeepsOk(k.limits, k.endpoints, CreateLabel(k.endpoints, tid), eps);
    EndpointStep(k, eps);
    TouchStep(k.(endpoints := eps), t, A0(k.core.tasks[t], a0));
  }

  lemma TryReceiveStep(k: Kernel, t: int)
    requires Inv(k) && Slot(k.core, t) && k.used[t]
    ensures Inv(HandleTryReceive(k, t).kernel)
  {
    var v := k.core.tasks[t];
    var raw := v.context.x[10];
    var i := Lookup(k.limits, k.endpoints, raw);
    if i == NIL || k.endpoints[i].queue == [] {
      TouchStep(k, t, A0(v, if i == NIL then Errno(22) else Errno(11)));
    } else {
      var e := k.endpoints[i];
      var eps := k.endpoints[i := e.(queue := e.queue[1..])];
      TryReceiveSimulates(k.limits, k.core, k.endpoints, t, raw);
      SimulatesKeepsOk(k.limits, k.endpoints, [Receive(i, e.queue[0])], eps);
      EndpointStep(k, eps);
      TouchStep(k.(endpoints := eps), t, Receipt(v, e.queue[0]));
    }
  }

  /** One waiter leaves its endpoint with its registers written and is published ready. */
  lemma WakeStep(k: Kernel, e: int, w: Task)
    requires Placed(k, {}, NO_HART) && 0 <= e < |k.endpoints| && k.endpoints[e].waiters != []
    requires var t := k.endpoints[e].waiters[0]; Slot(k.core, t) ==> exists x: Regs ::
               w == Unlinked(k.core.tasks[t]).(context := k.core.tasks[t].context.(x := x))
    ensures var t := k.endpoints[e].waiters[0];
            && Slot(k.core, t) && AddTask(SetTask(k.core, t, w), t).Run?
            && var d := AddTask(SetTask(k.core, t, w), t).value;
               var ep := k.endpoints[e].(waiters := k.endpoints[e].waiters[1..]);
               && Placed(k.(core := d, endpoints := k.endpoints[e := ep]), {}, NO_HART)
               && Bystanders(k.core, d) && d.harts == k.core.harts
  {
    var t := k.endpoints[e].waiters[0];
    assert WaitersPlaced(k, e, {}) && t in k.endpoints[e].waiters;
    assert TaskPlaced(k, t, {}, NO_HART);
    var ep := k.endpoints[e].(waiters := k.endpoints[e].waiters[1..]);
    var l := k.(core := SetTask(k.core, t, w), endpoints := k.endpoints[e := ep]);
    PopWaiterKeeps(k, l, {}, NO_HART, e, w);
    assert {} + {t} == {t} && {t} - {t} == {};
    AddTaskKeeps(l, {t}, NO_HART, t);
  }

  lemma SendStep(k: Kernel, t: int)
    requires Inv(k) && Slot(k.core, t) && k.used[t]
    ensures Fine(HandleSend(k, t))
  {
    var v := k.core.tasks[t];
    var raw, m := v.context.x[10], MessageOf(v);
    var i := Lookup(k.limits, k.endpoints, raw);
    if i == NIL || k.endpoints[i].waiters == [] {
      SendSimulates(k.limits, k.core, k.endpoints, raw, m);
      var r := SendMessage(k.limits, k.core, k.endpoints, raw, m).value;
      SimulatesKeepsOk(k.limits, k.endpoints, SendLabel(k.limits, k.endpoints, raw, m), r.endpoints);
      EndpointStep(k, r.endpoints);
      TouchStep(k.(endpoints := r.endpoints), t, A0(v, r.a0));
    } else {
      var u := k.endpoints[i].waiters[0];
      assert WaitersPlaced(k, i, {}) && u in k.endpoints[i].waiters;
      WakeStep(k, i, Receipt(Unlinked(k.core.tasks[u]), m));
      SendSimulates(k.limits, k.core, k.endpoints, raw, m);
      var r := SendMessage(k.limits, k.core, k.endpoints, raw, m).value;
      SimulatesKeepsOk(k.limits, k.endpoints, SendLabel(k.limits, k.endpoints, raw, m), r.endpoints);
      var l := k.(core := r.core, endpoints := r.endpoints);
      TrackersFrame(k, l);
      TouchStep(l, t, A0(l.core.tasks[t], r.a0));
    }
  }

  /** The wake loop of destroy empties the FIFO, one waiter after the other. */
  lemma {:induction false} WakeAllStep(k: Kernel, e: int)
    requires Placed(k, {}, NO_HART) && 0 <= e < |k.endpoints|
    ensures WakeAll(k.core, k.endpoints[e].waiters).Run?
    ensures var d := WakeAll(k.core, k.endpoints[e].waiters).value;
            && Placed(k.(core := d, endpoints := k.endpoints[e := k.endpoints[e].(waiters := [])]), {}, NO_HART)
            && Bystanders(k.core, d) && d.harts == k.core.harts
    decreases |k.endpoints[e].waiters|
  {
    var q := k.endpoints[e].waiters;
    if q == [] {
      assert k.endpoints[e := k.endpoints[e].(waiters := [])] == k.endpoints;
    } else {
      assert WaitersPlaced(k, e, {}) && q[0] in q;
      var w := A0(Unlinked(k.core.tasks[q[0]]), Errno(43));
      WakeStep(k, e, w);
      var d := AddTask(SetTask(k.core, q[0], w), q[0]).value;
      var l := k.(core := d, endpoints := k.endpoints[e := k.endpoints[e].(waiters := q[1..])]);
      WakeAllStep(l, e);
      assert l.endpoints[e := l.endpoints[e].(waiters := [])] == k.endpoints[e := k.endpoints[e].(waiters := [])];
    }
  }

  lemma DestroyStep(k: Kernel, t: int)
    requires Inv(k) && Slot(k.core, t) && k.used[t]
    ensures Fine(HandleEndpointDestroy(k, t))
  {
    var v := k.core.tasks[t];
    var raw := v.context.x[10];
    var i := Lookup(k.limits, k.endpoints, raw);
    hide Inv, Placed, TrackersOk;
    if i == NIL || !k.endpoints[i].claimed || k.endpoints[i].owner != v.tid {
      var r := DestroyEndpoint(k.limits, k.core, k.endpoints, v.tid, raw).value;
      TouchStep(k, t, A0(v, r.a0));
    } else {
      WakeAllStep(k, i);
      DestroySimulates(k.limits, k.core, k.endpoints, v.tid, raw);
      var r := DestroyEndpoint(k.limits, k.core, k.endpoints, v.tid, raw).value;
      SimulatesKeepsOk(k.limits, k.endpoints, [Destroy(i)], r.endpoints);
      var m := k.(core := r.core, endpoints := k.endpoints[i := k.endpoints[i].(waiters := [])]);
      var l := k.(core := r.core, endpoints := r.endpoints);
      FrameKeeps(m, l, {}, NO_HART);
      TrackersFrame(k, l);
      TouchStep(l, t, A0(l.core.tasks[t], r.a0));
    }
  }

  lemma ReceiveStep(k: Kernel, h: int, t: int, env: Env)
    requires Inv(k) && Current(k, h, t) && !k.core.tasks[t].idle
    ensures Fine(HandleReceive(k, h, t, env))
  {
    CurrentIsRunning(k, h, t);
    var v := k.core.tasks[t];
    var raw := v.context.x[10];
    var i := Lookup(k.limits, k.endpoints, raw);
    if i == NIL {
      TouchStep(k, t, A0(v, Errno(22)));
    } else if k.endpoints[i].queue != [] {
      ReceiveSimulates(k.limits, k.core, k.endpoints, h, t, raw, env.sliceNow);
      var r := ReceiveMessage(k.limits, k.core, k.endpoints, h, t, raw, env.sliceNow).value;
      SimulatesKeepsOk(k.limits, k.endpoints, ReceiveLabel(k.limits, k.endpoints, t, raw, true), r.1);
      EndpointStep(k, r.1);
      TouchStep(k.(endpoints := r.1), t, r.0.tasks[t]);
    } else {
      BlockStep(k, h, t, raw, env.sliceNow, i);
    }
  }

  /** The blocking path of `recv`: enqueue the waiter, then switch the hart away. */
  lemma BlockStep(k: Kernel, h: int, t: int, raw: nat, now: nat, i: int)
    requires Inv(k) && Current(k, h, t) && !k.core.tasks[t].idle
    requires i == Lookup(k.limits, k.endpoints, raw) && i != NIL && k.endpoints[i].queue == []
    ensures var r := ReceiveMessage(k.limits, k.core, k.endpoints, h, t, raw, now);
            r.Run? && Inv(k.(core := r.value.0, endpoints := r.value.1))
  {
    CurrentIsRunning(k, h, t);
    var v := k.core.tasks[t].(stateInfo := raw);
    LeaveKeeps(k, h, v);
    var l := k.(core := SetTask(k.core, t, v));
    var w := v.(state := BlockedMessage, messageQueued := true);
    var eps := k.endpoints[i := k.endpoints[i].(waiters := k.endpoints[i].waiters + [t])];
    var m := k.(core := SetTask(k.core, t, w), endpoints := eps);
    assert SetTask(l.core, t, w) == m.core;
    PushWaiterKeeps(l, m, {t}, h, t, i);
    assert {t} - {t} == {};
    SwitchStep(m, {}, h, now);
    ReceiveSimulates(k.limits, k.core, k.endpoints, h, t, raw, now);
    SimulatesKeepsOk(k.limits, k.endpoints, [Block(i, t)], eps);
    TrackersFrame(k, m.(core := SetNextRunnable(m.core, h, now).value));
  }

  // ---------------------------------------------------------------------------------------------
  // Steps of the tasks

  lemma DozeStep(k: Kernel, h: int, t: int, deadline: nat, now: nat) returns (l: Kernel)
    requires Inv(k) && Current(k, h, t) && !k.core.tasks[t].idle && k.core.tasks[t].cpu == h
    ensures Doze(k.core, h, t, deadline, now) == Run(l.core) && l == k.(core := l.core) && Inv(l)
  {
    CurrentIsRunning(k, h, t);
    var v := A0(k.core.tasks[t], 0);
    var m := k.(core := SetTask(k.core, t, v));
    LeaveKeeps(k, h, v);
    var n := m.(core := DelayUntil(m.core, t, deadline));
    PushSleeperKeeps(m, n, {t}, h, t, deadline);
    assert {t} - {t} == {};
    SwitchStep(n, {}, h, now);
    l := n.(core := SetNextRunnable(n.core, h, now).value);
    TrackersFrame(k, l);
  }

  lemma SleepRefused(k: Kernel, h: int, t: int, env: Env, ticks: nat)
    requires Inv(k) && HartIndex(k.core, h) && Slot(k.core, t) && k.used[t]
    requires ticks == DurationToTicks(k.core.tasks[t].context.x[10], k.core.tasks[t].context.x[11])
    requires ticks == 0 || env.now + ticks > U64_MAX
    ensures Fine(HandleSleep(k, h, t, env))
  {
    TouchStep(k, t, A0(k.core.tasks[t], Errno(22)));
    hide Inv, DurationToTicks;
  }

  lemma SleepAccepted(k: Kernel, h: int, t: int, env: Env, ticks: nat, l: Kernel)
    requires HartIndex(k.core, h) && Slot(k.core, t) && k.core.tasks[t].cpu == h && Unqueued(k.core.tasks[t])
    requires ticks == DurationToTicks(k.core.tasks[t].context.x[10], k.core.tasks[t].context.x[11])
    requires ticks != 0 && env.now + ticks <= U64_MAX
    requires Doze(k.core, h, t, env.now + ticks, env.sliceNow) == Run(l.core) && l == k.(core := l.core)
    ensures HandleSleep(k, h, t, env) == Run(Handled(l, true))
  {
  }

  lemma SleepStep(k: Kernel, h: int, t: int, env: Env)
    requires Inv(k) && Current(k, h, t) && !k.core.tasks[t].idle
    ensures Fine(HandleSleep(k, h, t, env))
  {
    hide Inv, Doze, DurationToTicks, HandleSleep;
    CallerIsRunning(k, h, t);
    var ticks := DurationToTicks(k.core.tasks[t].context.x[10], k.core.tasks[t].context.x[11]);
    if ticks == 0 || env.now + ticks > U64_MAX {
      SleepRefused(k, h, t, env, ticks);
    } else {
      var l := DozeStep(k, h, t, env.now + ticks, env.sliceNow);
      SleepAccepted(k, h, t, env, ticks, l);
    }
  }

  /** A new task is admitted, published ready and adopted by its creator. */
  lemma SpawnStep(k: Kernel, h: int, t: int, s: Spawn, i: nat, r: nat) returns (l: Kernel)
    requires Inv(k) && Current(k, h, t) && !k.core.tasks[t].idle
    requires s.stackOk && i == FreeIndex(k.used) < |k.used|
    requires r == FreeTracker(k.trackers, k.trackerSlots, 0) < k.trackerSlots
    ensures CreateTask(k, h, t, s) == Run(l) && Inv(l)
  {
    hide Inv, Placed, TrackersOk, FreeIndex, FreeTracker, SpawnContext;
    CallerFits(k, t, i);
    var context := SpawnContext(s, i, k.core.tasks[t].context.satp);
    var c := AdmitStep(k, h, context, i, r);
    var d := AdoptStep(k, c, t, i, r, NewTask(h, context, k.nextTid, r));
    TouchStep(d, t, A0(d.core.tasks[t], k.nextTid));
    l := d.(core := SetTask(d.core, t, A0(d.core.tasks[t], k.nextTid)));
  }

  lemma CallerFits(k: Kernel, t: int, i: nat)
    requires Inv(k) && i < |k.used|
    ensures Placed(k, {}, NO_HART) && Slot(k.core, i)
  {
  }

  /** The admitted task is given its tracker, under the caller's. */
  lemma AdoptStep(k: Kernel, c: Kernel, t: int, i: int, r: int, child: Task) returns (d: Kernel)
    requires Inv(k) && Placed(c, {}, NO_HART) && Slot(k.core, t) && k.used[t] && Slot(k.core, i) && !k.used[i]
    requires c == k.(core := Enqueue(SetTask(k.core, i, child), i), used := k.used[i := true])
    requires r !in k.trackers && 0 <= r < k.trackerSlots && child.tracker == r && child.tid == k.nextTid
    ensures d == c.(trackers := k.trackers[r := Tracker(k.core.tasks[t].tracker, k.nextTid, i, Alive, 0, false, 0)],
                    nextTid := k.nextTid + 1)
    ensures Inv(d)
  {
    hide Placed, TrackersOk;
    d := c.(trackers := k.trackers[r := Tracker(k.core.tasks[t].tracker, k.nextTid, i, Alive, 0, false, 0)],
            nextTid := k.nextTid + 1);
    FrameKeeps(c, d, {}, NO_HART);
    AdoptKeeps(k, d, t, i, r);
  }

  lemma AdmitStep(k: Kernel, h: int, context: Context, i: nat, r: nat) returns (l: Kernel)
    requires Placed(k, {}, NO_HART) && HartIndex(k.core, h) && Slot(k.core, i) && !k.used[i]
    ensures var c := SetTask(k.core, i, NewTask(h, context, k.nextTid, r));
            AddTask(c, i) == Run(l.core) && l == k.(core := l.core, used := k.used[i := true])
    ensures Placed(l, {}, NO_HART)
  {
    var child := NewTask(h, context, k.nextTid, r);
    var a := k.(core := SetTask(k.core, i, child), used := k.used[i := true]);
    AdmitKeeps(k, a, {}, NO_HART, i, child);
    assert {} + {i} == {i} && {i} - {i} == {};
    AddTaskKeeps(a, {i}, NO_HART, i);
    l := a.(core := AddTask(a.core, i).value);
  }

  lemma CreateStep(k: Kernel, h: int, t: int, env: Env)
    requires Inv(k) && Current(k, h, t) && !k.core.tasks[t].idle
    ensures Fine(HandleCreate(k, h, t, env))
  {
    var v := k.core.tasks[t];
    var i, r := FreeIndex(k.used), FreeTracker(k.trackers, k.trackerSlots, 0);
    hide Inv, Placed, TrackersOk, SpawnContext;
    if !env.entryOk {
      TouchStep(k, t, A0(v, Errno(95)));
    } else if i >= |k.used| || r >= k.trackerSlots || !env.stackOk {
      TouchStep(k, t, A0(v, Errno(12)));
    } else {
      var x := v.context.x;
      var l := SpawnStep(k, h, t, Spawn(x[10], x[11], env.stackOk, env.image), i, r);
    }
  }

  lemma AdoptKeeps(k: Kernel, n: Kernel, t: int, i: int, r: int)
    requires TrackersOk(k) && Slot(k.core, t) && k.used[t] && Slot(k.core, i) && !k.used[i]
    requires r !in k.trackers && 0 <= r < k.trackerSlots == n.trackerSlots && n.nextTid == k.nextTid + 1
    requires SameShape(k.core, n.core) && n.used == k.used[i := true]
    requires forall u :: 0 <= u < |k.core.tasks| && u != i ==> n.core.tasks[u] == k.core.tasks[u]
    requires n.core.tasks[i].tracker == r && n.core.tasks[i].tid == k.nextTid
    requires n.trackers == k.trackers[r := Tracker(k.core.tasks[t].tracker, k.nextTid, i, Alive, 0, false, 0)]
    ensures TrackersOk(n)
  {
    assert OwnsTracker(k, t);
    assert forall q :: q in k.trackers ==> TrackerOk(k, q);
    assert forall u :: Slot(k.core, u) && k.used[u] ==> OwnsTracker(k, u);
    forall q | q in n.trackers ensures TrackerOk(n, q) {
    }
    forall u | Slot(n.core, u) && n.used[u] ensures OwnsTracker(n, u) {
    }
  }

  /** Live trackers survive, and a survivor changes at most its parent. */
  ghost predicate Pruned(f: map<int, Tracker>, g: map<int, Tracker>) {
    && (forall d :: d in g ==> d in f && g[d] == f[d].(parent := g[d].parent))
    && (forall d :: d in f && f[d].task != NIL ==> d in g)
  }

  lemma PruneKeeps(k: Kernel, orphan: int, g: map<int, Tracker>)
    requires TrackersBut(k, orphan) && Rooted(g) && NoOrphans(g, NIL) && Pruned(k.trackers, g)
    ensures TrackersOk(k.(trackers := g))
  {
    assert forall q :: q in k.trackers ==> TrackerOk(k, q);
    assert forall t :: Slot(k.core, t) && k.used[t] ==> OwnsTracker(k, t);
    var l := k.(trackers := g);
    assert forall q :: q in g ==> TrackerOk(l, q);
    assert forall t :: Slot(k.core, t) && k.used[t] ==> OwnsTracker(l, t);
  }

  /** Removing a completed tracker leaves the trackers in order, unless it meets a crashed orphan. */
  lemma ReapStep(k: Kernel, r: int) returns (g: map<int, Tracker>)
    requires TrackersBut(k, r) && r in k.trackers && k.trackers[r].task == NIL
    ensures g == Reap(k.trackers, r) && Pruned(k.trackers, g) && TrackersOk(k.(trackers := g))
    ensures forall q, t :: t != NIL && WaitsOn(k.trackers, q, t) ==> WaitsOn(g, q, t)
  {
    assert forall q :: q in k.trackers ==> TrackerOk(k, q);
    ReapKeepsForest(k.trackers, r);
    g := Reap(k.trackers, r);
    PruneKeeps(k, r, g);
  }

  /** Only a tracker that hangs from the kernel takes others with it. */
  lemma NoOrphanBelow(f: map<int, Tracker>, r: int)
    requires r in f && f[r].parent != NIL
    ensures !CrashedOrphan(f, r)
  {
  }

  /** A parent collects a completed child. */
  lemma CollectStep(k: Kernel, r: int) returns (l: Kernel)
    requires Inv(k) && r in k.trackers && k.trackers[r].task == NIL && k.trackers[r].parent != NIL
    ensures RemoveTracker(k.trackers, r) == Run(l.trackers) && l == k.(trackers := l.trackers) && Inv(l)
  {
    assert TrackerOk(k, r);
    NoOrphanBelow(k.trackers, r);
    var g := ReapStep(k, r);
    l := k.(trackers := g);
    assert forall q :: q in k.trackers ==> TrackerOk(k, q);
    FrameKeeps(k, l, {}, NO_HART);
  }

  lemma WaitStep(k: Kernel, h: int, t: int, env: Env)
    requires Inv(k) && Current(k, h, t) && !k.core.tasks[t].idle && k.core.tasks[t].context.x[10] < TWO64
    requires ChildFound(k.trackers, k.core.tasks[t].tracker, Signed(k.core.tasks[t].context.x[10]), env.pick)
    ensures Fine(HandleWait(k, h, t, env))
  {
    var v := k.core.tasks[t];
    assert OwnsTracker(k, t);
    var x, tid := v.context.x, Signed(v.context.x[10]);
    hide Inv, Placed, TrackersOk;
    if x[11] != 0 || x[12] != 0 {
      TouchStep(k, t, A0(v, Errno(95)));
    } else if env.pick == NIL {
      TouchStep(k, t, A0(v, Errno(35)));
    } else if k.trackers[env.pick].task == NIL {
      var l := CollectStep(k, env.pick);
      TouchStep(l, t, A0(v, k.trackers[env.pick].key));
    } else {
      var l := JoinStep(k, h, t, tid, if tid < 0 then TWO64 + tid else tid, env.sliceNow);
    }
  }

  /** The blocking path of `wait_task`. */
  lemma JoinStep(k: Kernel, h: int, t: int, tid: int, info: nat, now: nat) returns (l: Kernel)
    requires Inv(k) && Current(k, h, t) && !k.core.tasks[t].idle && k.core.tasks[t].tracker in k.trackers
    ensures var v := k.core.tasks[t];
            var r := k.trackers[v.tracker].(waiting := true, waitTid := tid);
            && SetNextRunnable(SetTask(k.core, t, v.(state := BlockedJoin, stateInfo := info)), h, now) == Run(l.core)
            && l == k.(core := l.core, trackers := k.trackers[v.tracker := r])
    ensures Inv(l)
  {
    CurrentIsRunning(k, h, t);
    var v := k.core.tasks[t];
    assert OwnsTracker(k, t);
    LeaveKeeps(k, h, v);
    assert k.(core := SetTask(k.core, t, v)) == k;
    var w := v.(state := BlockedJoin, stateInfo := info);
    var r := k.trackers[v.tracker].(waiting := true, waitTid := tid);
    var m := k.(core := SetTask(k.core, t, w), trackers := k.trackers[v.tracker := r]);
    JoinKeeps(k, m, {t}, h, t, w, r);
    assert {t} - {t} == {};
    WaitingTrackers(k, m, t, w, r);
    SwitchStep(m, {}, h, now);
    l := m.(core := SetNextRunnable(m.core, h, now).value);
    TrackersFrame(m, l);
  }

  lemma WaitingTrackers(k: Kernel, m: Kernel, t: int, w: Task, r: Tracker)
    requires TrackersOk(k) && Slot(k.core, t) && k.used[t] && !k.core.tasks[t].idle
    requires w == k.core.tasks[t].(state := BlockedJoin, stateInfo := w.stateInfo) && w.tracker in k.trackers
    requires r == k.trackers[w.tracker].(waiting := true, waitTid := r.waitTid)
    requires m == k.(core := SetTask(k.core, t, w), trackers := k.trackers[w.tracker := r])
    ensures TrackersOk(m)
  {
    assert OwnsTracker(k, t);
    assert forall q :: q in k.trackers ==> TrackerOk(k, q);
    assert forall u :: Slot(k.core, u) && k.used[u] ==> OwnsTracker(k, u);
    assert forall q :: q in m.trackers ==> TrackerOk(m, q);
    assert forall u :: Slot(m.core, u) && m.used[u] ==> OwnsTracker(m, u);
  }

  /** A dead task's tracker is completed and its slot is free; whether that makes an orphan is still open. */
  ghost function Interred(k: Kernel, t: int, returnValue: nat, status: ExitStatus): Kernel
    requires Slot(k.core, t) && t < |k.used| && k.core.tasks[t].tracker in k.trackers
  {
    var r := k.core.tasks[t].tracker;
    k.(core := SetTask(k.core, t, BLANK_TASK), used := k.used[t := false],
       trackers := k.trackers[r := k.trackers[r].(status := status, returnValue := returnValue, task := NIL)])
  }

  lemma InterKeeps(k: Kernel, t: int, returnValue: nat, status: ExitStatus)
    requires status != Alive && TrackersOk(k) && Slot(k.core, t) && k.used[t] && k.core.tasks[t].state == Ended
    ensures k.core.tasks[t].tracker in k.trackers
    ensures TrackersBut(Interred(k, t, returnValue, status), k.core.tasks[t].tracker)
    ensures var f := Interred(k, t, returnValue, status).trackers;
            forall q, u :: u != t && WaitsOn(k.trackers, q, u) ==> WaitsOn(f, q, u)
  {
    assert OwnsTracker(k, t);
    assert forall q :: q in k.trackers ==> TrackerOk(k, q);
    assert forall u :: Slot(k.core, u) && k.used[u] ==> OwnsTracker(k, u);
    var m := Interred(k, t, returnValue, status);
    assert forall q :: q in m.trackers ==> TrackerOk(m, q);
    assert forall u :: Slot(m.core, u) && m.used[u] ==> OwnsTracker(m, u);
  }

  /** What is known when the hart has moved on from an ended task. */
  ghost predicate Dead(k: Kernel, t: int) {
    && Placed(k, {t}, NO_HART) && TrackersOk(k)
    && Slot(k.core, t) && k.used[t] && !k.core.tasks[t].idle && k.core.tasks[t].state == Ended
  }

  /** The dead task's tracker is removed, or stays for its parent to collect; then the slot is free. */
  lemma FreeStep(k: Kernel, t: int, g: map<int, Tracker>) returns (l: Kernel)
    requires Dead(k, t)
    requires forall q, u :: u != t && u != NIL && WaitsOn(k.trackers, q, u) ==> WaitsOn(g, q, u)
    ensures ReleaseTask(k.(trackers := g), t) == Run(l) && Placed(l, {}, NO_HART)
    ensures l == k.(core := SetTask(k.core, t, BLANK_TASK), used := k.used[t := false], trackers := g)
  {
    assert forall q :: q in k.trackers ==> TrackerOk(k, q);
    assert forall q, u :: WaitsOn(k.trackers, q, u) ==> u != t && u != NIL;
    var m := k.(trackers := g);
    FrameKeeps(k, m, {t}, NO_HART);
    ReleaseKeeps(m, {t}, NO_HART, t);
    assert {t} - {t} == {};
    l := ReleaseTask(m, t).value;
  }

  lemma BuryAndReap(k: Kernel, t: int, returnValue: nat, status: ExitStatus) returns (l: Kernel)
    requires status != Alive && Dead(k, t) && k.core.tasks[t].tracker in k.trackers
    requires !CrashedOrphan(k.trackers, k.core.tasks[t].tracker)
    ensures var m := Interred(k, t, returnValue, status);
            && RemoveTracker(m.trackers, k.core.tasks[t].tracker) == Run(l.trackers)
            && ReleaseTask(k.(trackers := l.trackers), t) == Run(l)
    ensures Placed(l, {}, NO_HART) && TrackersOk(l)
  {
    InterKeeps(k, t, returnValue, status);
    var m, r := Interred(k, t, returnValue, status), k.core.tasks[t].tracker;
    SameOrphans(k.trackers, r, m.trackers[r]);
    var g := ReapStep(m, r);
    l := FreeStep(k, t, g);
    assert l == m.(trackers := g);
  }

  lemma BuryForParent(k: Kernel, t: int, returnValue: nat, status: ExitStatus) returns (l: Kernel)
    requires status != Alive && Dead(k, t) && k.core.tasks[t].tracker in k.trackers
    requires k.trackers[k.core.tasks[t].tracker].parent != NIL
    ensures l == Interred(k, t, returnValue, status) && ReleaseTask(k.(trackers := l.trackers), t) == Run(l)
    ensures Placed(l, {}, NO_HART) && TrackersOk(l)
  {
    InterKeeps(k, t, returnValue, status);
    var m := Interred(k, t, returnValue, status);
    l := FreeStep(k, t, m.trackers);
  }

  /** A tracker stops waiting; its task may then leave the join. */
  lemma UnwaitKeeps(k: Kernel, m: Kernel, orphan: int, p: int)
    requires TrackersBut(k, orphan) && p in k.trackers && k.trackers[p].waiting
    requires m.trackers == k.trackers[p := k.trackers[p].(waiting := false)] && SameShape(k.core, m.core)
    requires m.used == k.used && m.trackerSlots == k.trackerSlots && m.nextTid == k.nextTid
    requires forall u {:trigger m.core.tasks[u]} :: 0 <= u < |k.core.tasks| ==>
               && m.core.tasks[u].tid == k.core.tasks[u].tid && m.core.tasks[u].tracker == k.core.tasks[u].tracker
               && m.core.tasks[u].idle == k.core.tasks[u].idle
               && (u != k.trackers[p].task && k.core.tasks[u].state == BlockedJoin ==>
                     m.core.tasks[u].state == BlockedJoin)
    ensures TrackersBut(m, orphan)
  {
    assert forall q :: q in k.trackers ==> TrackerOk(k, q);
    assert forall u :: Slot(k.core, u) && k.used[u] ==> OwnsTracker(k, u);
    assert forall q :: q in m.trackers ==> TrackerOk(m, q);
    assert forall u :: Slot(m.core, u) && m.used[u] ==> OwnsTracker(m, u);
  }

  /** The parent of a dead task, when it waits for it, with the result in its `a0`. */
  ghost function Told(k: Kernel, t: int, p: int): Core
    requires p in k.trackers && Slot(k.core, k.trackers[p].task) && Slot(k.core, t)
  {
    var w := k.trackers[p].task;
    SetTask(k.core, w, A0(k.core.tasks[w], k.core.tasks[t].tid))
  }

  lemma JoinerIsBlocked(k: Kernel, t: int, p: int)
    requires Dead(k, t) && p in k.trackers && k.trackers[p].waiting
    ensures var w := k.trackers[p].task;
            && Slot(k.core, w) && w != t && k.used[w] && !k.core.tasks[w].idle
            && k.core.tasks[w].state == BlockedJoin && k.core.tasks[w].tracker == p
            && Addable(k.core.tasks[w])
    ensures k.core.tasks[t].tracker in k.trackers && !k.trackers[k.core.tasks[t].tracker].waiting
    ensures forall q, u :: WaitsOn(k.trackers, q, u) ==> u != t && u != NIL
  {
    assert forall q :: q in k.trackers ==> TrackerOk(k, q);
    assert OwnsTracker(k, t);
    assert TaskPlaced(k, k.trackers[p].task, {t}, NO_HART);
  }

  /** The waiting parent is told, taken off the join and published ready. */
  lemma TellStep(k: Kernel, t: int, p: int, g: map<int, Tracker>) returns (l: Kernel)
    requires Dead(k, t) && p in k.trackers && k.trackers[p].waiting && Slot(k.core, k.trackers[p].task)
    requires forall q, u :: u != t && u != NIL && u != k.trackers[p].task && WaitsOn(k.trackers, q, u) ==>
               WaitsOn(g, q, u)
    ensures AddTask(Told(k, t, p), k.trackers[p].task) == Run(l.core) && l == k.(core := l.core, trackers := g)
    ensures Placed(l, {t}, NO_HART)
  {
    JoinerIsBlocked(k, t, p);
    var w := k.trackers[p].task;
    var m := k.(core := Told(k, t, p), trackers := g);
    LeaveJoinKeeps(k, m, {t}, NO_HART, w, m.core.tasks[w]);
    AddTaskKeeps(m, {t} + {w}, NO_HART, w);
    assert {t} + {w} - {w} == {t};
    l := m.(core := AddTask(m.core, w).value);
  }

  lemma BuryAndWake(k: Kernel, t: int, returnValue: nat, status: ExitStatus, p: int) returns (l: Kernel)
    requires status != Alive && Dead(k, t) && k.core.tasks[t].tracker in k.trackers
    requires p in k.trackers && k.trackers[p].waiting && k.trackers[k.core.tasks[t].tracker].parent == p
    ensures var f := Interred(k, t, returnValue, status).trackers;
            && p in f && Slot(k.core, k.trackers[p].task)
            && RemoveTracker(f[p := f[p].(waiting := false)], k.core.tasks[t].tracker) == Run(l.trackers)
            && AddTask(Told(k, t, p), k.trackers[p].task).Run?
            && ReleaseTask(k.(core := AddTask(Told(k, t, p), k.trackers[p].task).value, trackers := l.trackers), t)
               == Run(l)
    ensures Placed(l, {}, NO_HART) && TrackersOk(l)
  {
    JoinerIsBlocked(k, t, p);
    InterKeeps(k, t, returnValue, status);
    var r, w := k.core.tasks[t].tracker, k.trackers[p].task;
    var m := Interred(k, t, returnValue, status);
    var c := Enqueue(Told(k, t, p), w);
    var n := m.(core := SetTask(c, t, BLANK_TASK), trackers := m.trackers[p := m.trackers[p].(waiting := false)]);
    UnwaitKeeps(m, n, r, p);
    NoOrphanBelow(n.trackers, r);
    var g := ReapStep(n, r);
    var a := TellStep(k, t, p, g);
    ReleaseKeeps(a, {t}, NO_HART, t);
    assert {t} - {t} == {};
    l := ReleaseTask(a, t).value;
    assert l == n.(trackers := g);
  }

  /** The trackers after `end_task`: reaped, reaped after the parent was told, or left for the parent. */
  ghost function BuriedTrackers(k: Kernel, t: int, returnValue: nat, status: ExitStatus): map<int, Tracker>
    requires Slot(k.core, t) && t < |k.used| && k.core.tasks[t].tracker in k.trackers
    requires Rooted(k.trackers)
  {
    var f, v := Interred(k, t, returnValue, status).trackers, k.core.tasks[t];
    var p := f[v.tracker].parent;
    if v.detached || p == NIL then Reap(f, v.tracker)
    else if f[p].waiting && Matches(f[p].waitTid, v.tid) then Reap(f[p := f[p].(waiting := false)], v.tracker)
    else f
  }

  lemma DeadOwnsTracker(k: Kernel, t: int)
    requires Dead(k, t)
    ensures Slot(k.core, t) && OwnsTracker(k, t) && Rooted(k.trackers) && |k.used| == |k.core.tasks|
  {
    assert OwnsTracker(k, t);
  }

  /**
   * When an exit stops the kernel instead: the task has nobody to report to, because it is detached or hangs from
   * the kernel, and it crashed or would take a crashed orphan with it.
   */
  ghost predicate ExitStops(k: Kernel, t: int, status: ExitStatus)
    requires Slot(k.core, t)
  {
    var v := k.core.tasks[t];
    && v.tracker in k.trackers && (v.detached || k.trackers[v.tracker].parent == NIL)
    && (status == Crashed || CrashedOrphan(k.trackers, v.tracker))
  }

  /** `end_task` under the task-manager lock: all its outcomes. */
  lemma BuryStep(k: Kernel, t: int, returnValue: nat, status: ExitStatus) returns (l: Kernel)
    requires status != Alive && Dead(k, t) && !ExitStops(k, t, status)
    ensures Bury(k, t, returnValue, status) == Run(l) && Placed(l, {}, NO_HART) && TrackersOk(l)
    ensures OwnsTracker(k, t) && Rooted(k.trackers) && l.trackers == BuriedTrackers(k, t, returnValue, status)
    ensures t < |k.used| && l.used == k.used[t := false]
  {
    hide Dead, Placed, TrackersOk, TrackersBut, Reap, CrashedOrphan, AddTask;
    DeadOwnsTracker(k, t);
    var v := k.core.tasks[t];
    var p := k.trackers[v.tracker].parent;
    if v.detached || p == NIL {
      l := BuryAndReap(k, t, returnValue, status);
    } else if k.trackers[p].waiting && Matches(k.trackers[p].waitTid, v.tid) {
      l := BuryAndWake(k, t, returnValue, status, p);
    } else {
      l := BuryForParent(k, t, returnValue, status);
    }
  }

  lemma BuryParks(k: Kernel, t: int, returnValue: nat, status: ExitStatus)
    requires status != Alive && Dead(k, t) && ExitStops(k, t, status)
    ensures Bury(k, t, returnValue, status).Park?
  {
    DeadOwnsTracker(k, t);
    var r := k.core.tasks[t].tracker;
    SameOrphans(k.trackers, r, k.trackers[r].(status := status, returnValue := returnValue, task := NIL));
  }

  /** The first half of `end_task`: the hart has moved on and the caller is dead. */
  lemma DeadAfterSwitch(k: Kernel, h: int, t: int, now: nat) returns (l: Kernel)
    requires Inv(k) && Current(k, h, t) && !k.core.tasks[t].idle
    ensures SetNextRunnable(SetTask(k.core, t, k.core.tasks[t].(state := Ended)), h, now) == Run(l.core)
    ensures l == k.(core := l.core) && Dead(l, t) && l.core.tasks[t] == k.core.tasks[t].(state := Ended)
  {
    CurrentIsRunning(k, h, t);
    var w := k.core.tasks[t].(state := Ended);
    LeaveKeeps(k, h, w);
    var m := k.(core := SetTask(k.core, t, w));
    SwitchStep(m, {t}, h, now);
    l := m.(core := SetNextRunnable(m.core, h, now).value);
    TrackersFrame(k, l);
    LimboUntouched(m, h, t, now);
  }

  /** An exit goes on and keeps the invariant, or stops the kernel, as known before the call. */
  lemma ExitStep(k: Kernel, h: int, t: int, returnValue: nat, status: ExitStatus, env: Env)
    requires status != Alive && Inv(k) && Current(k, h, t) && !k.core.tasks[t].idle
    ensures if ExitStops(k, t, status) then HandleExit(k, h, t, returnValue, status, env).Park?
            else Fine(HandleExit(k, h, t, returnValue, status, env))
  {
    var n := DeadAfterSwitch(k, h, t, env.sliceNow);
    hide Placed, TrackersOk, Dead, CrashedOrphan, Bury;
    if ExitStops(n, t, status) {
      BuryParks(n, t, returnValue, status);
    } else {
      var l := BuryStep(n, t, returnValue, status);
    }
  }

  /** The switch does not touch a task in limbo. */
  lemma LimboUntouched(k: Kernel, h: int, t: int, now: nat)
    requires Placed(k, {t}, h) && HartIndex(k.core, h) && Slot(k.core, t) && k.used[t] && !k.core.tasks[t].idle
    requires SetNextRunnable(k.core, h, now).Run?
    ensures SetNextRunnable(k.core, h, now).value.tasks[t] == k.core.tasks[t]
  {
    InNoQueue(k, {t}, h, t);
    assert HartPlaced(k, h, {t}, h);
  }

  lemma YieldStep(k: Kernel, h: int, t: int, env: Env)
    requires Inv(k) && Current(k, h, t)
    ensures Fine(HandleYield(k, h, t, env))
  {
    var v := A0(k.core.tasks[t], 0);
    TouchStep(k, t, v);
    var m := k.(core := SetTask(k.core, t, v));
    RescheduleStep(m, h, env.sliceNow);
    TrackersFrame(m, HandleYield(k, h, t, env).value.kernel);
  }

  lemma TimerStepKeeps(k: Kernel, h: int, frame: Frame, env: Env)
    requires Inv(k) && HartIndex(k.core, h) && k.core.harts[h].current != NIL
    ensures Slot(k.core, k.core.harts[h].current)
    ensures TimerStep(k, h, frame, env).Run? && Inv(TimerStep(k, h, frame, env).value)
  {
    var t := k.core.harts[h].current;
    CurrentIsRunning(k, h, t);
    var v := Save(k.core.tasks[t], frame);
    TouchStep(k, t, v);
    var m := k.(core := SetTask(k.core, t, v));
    ReleaseStep(m, h, env.now);
    var n := m.(core := ReleaseDue(m.core, h, env.now).value);
    TrackersFrame(m, n);
    RescheduleStep(n, h, env.sliceNow);
    var l := n.(core := SetNextRunnable(ReturnRunnable(n.core, h).value, h, env.sliceNow).value);
    TrackersFrame(n, l);
    ArmStep(l, h, env.armNow);
  }

  // ---------------------------------------------------------------------------------------------
  // Runs

  /** The traps there are: idle tasks only yield, and registers are 64 bits wide. */
  ghost predicate Offered(k: Kernel, e: Event) {
    && HartIndex(k.core, e.hart)
    && var t := k.core.harts[e.hart].current;
       if e.Start? then t == NIL
       else
         && Slot(k.core, t)
         && (e.Syscall? ==>
               && e.frame.x[10] < TWO64 && (k.core.tasks[t].idle ==> e.frame.x[17] == 0)
               && (e.frame.x[17] == 3 ==>
                     ChildFound(k.trackers, k.core.tasks[t].tracker, Signed(e.frame.x[10]), e.env.pick)))
  }

  /** A call, by its number, that ends the caller and thereby stops the kernel. */
  ghost predicate CallStops(k: Kernel, t: int, number: nat)
    requires Slot(k.core, t)
  {
    (number == 2 && ExitStops(k, t, ExitedClean)) || (number > 12 && ExitStops(k, t, Crashed))
  }

  ghost predicate Stops(k: Kernel, e: Event) {
    && HartIndex(k.core, e.hart) && e.Syscall? && Slot(k.core, k.core.harts[e.hart].current)
    && CallStops(k, k.core.harts[e.hart].current, e.frame.x[17])
  }

  ghost predicate Legal(k: Kernel, e: Event) { Offered(k, e) && !Stops(k, e) }

  lemma DispatchStep(k: Kernel, h: int, t: int, env: Env)
    requires Inv(k) && Current(k, h, t)
    requires var x := k.core.tasks[t].context.x;
             && x[10] < TWO64 && (k.core.tasks[t].idle ==> x[17] == 0)
             && (x[17] == 3 ==> ChildFound(k.trackers, k.core.tasks[t].tracker, Signed(x[10]), env.pick))
    ensures if CallStops(k, t, k.core.tasks[t].context.x[17]) then Dispatch(k, h, t, env).Park?
            else Fine(Dispatch(k, h, t, env))
  {
    var x := k.core.tasks[t].context.x;
    hide Inv, Placed, TrackersOk, Fine, ExitStops;
    match x[17]
    case 0 => YieldStep(k, h, t, env);
    case 1 => CreateStep(k, h, t, env);
    case 2 => ExitStep(k, h, t, x[10], ExitedClean, env);
    case 3 => WaitStep(k, h, t, env);
    case 4 => DetachStep(k, h, t);
    case 5 => SleepStep(k, h, t, env);
    case 6 => EndpointCreateStep(k, t);
    case 7 => DestroyStep(k, t);
    case 8 => SendStep(k, t);
    case 9 => TouchStep(k, t, A0(k.core.tasks[t], Errno(38)));
    case 10 => ReceiveStep(k, h, t, env);
    case 11 => TryReceiveStep(k, t);
    case 12 => TouchStep(k, t, A0(k.core.tasks[t], Errno(38)));
    case _ => ExitStep(k, h, t, 0, Crashed, env);
  }

  lemma DetachStep(k: Kernel, h: int, t: int)
    requires Inv(k) && Current(k, h, t) && !k.core.tasks[t].idle
    ensures Fine(Run(HandleDetach(k, t)))
  {
    CurrentIsRunning(k, h, t);
    TouchStep(k, t, A0(k.core.tasks[t], 0).(detached := true));
  }

  /** A trap stops the kernel exactly as foretold, and otherwise keeps the invariant. */
  lemma StepIsExact(k: Kernel, e: Event)
    requires Inv(k) && Offered(k, e)
    ensures Machine.Next(k, e).Park? <==> Stops(k, e)
    ensures Machine.Next(k, e).Run? ==> Inv(Machine.Next(k, e).value)
  {
    var h := e.hart;
    match e
    case Start(_, env) =>
      IdleHartIsStale(k, h);
      SwitchStep(k, {}, h, env.sliceNow);
      var m := k.(core := SetNextRunnable(k.core, h, env.sliceNow).value);
      TrackersFrame(k, m);
      ArmStep(m, h, env.armNow);
    case Timer(_, frame, env) =>
      TimerStepKeeps(k, h, frame, env);
    case Syscall(_, frame, env) =>
      SyscallStepIsExact(k, h, frame, env);
  }

  /** Every legal step goes on and keeps the invariant: no fail-closed check fires. */
  lemma StepKeeps(k: Kernel, e: Event)
    requires Inv(k) && Legal(k, e)
    ensures Machine.Next(k, e).Run? && Inv(Machine.Next(k, e).value)
  {
    hide Inv, Machine.Next;
    StepIsExact(k, e);
  }

  /** Trap entry: the caller's registers are saved and `mepc` is past the `ecall`. */
  lemma EnterStep(k: Kernel, h: int, frame: Frame) returns (l: Kernel)
    requires Inv(k) && HartIndex(k.core, h) && Slot(k.core, k.core.harts[h].current)
    ensures var t := k.core.harts[h].current;
            l == k.(core := SetTask(k.core, t, Entered(k.core.tasks[t], frame))) && Current(l, h, t)
    ensures Inv(l)
  {
    var t := k.core.harts[h].current;
    CurrentIsRunning(k, h, t);
    var v := Entered(k.core.tasks[t], frame);
    TouchStep(k, t, v);
    l := k.(core := SetTask(k.core, t, v));
  }

  lemma SyscallStepIsExact(k: Kernel, h: int, frame: Frame, env: Env)
    requires Inv(k) && Offered(k, Syscall(h, frame, env))
    ensures var r := SyscallStep(k, h, frame, env);
            if Stops(k, Syscall(h, frame, env)) then r.Park? else r.Run? && Inv(r.value)
    ensures var t := k.core.harts[h].current;
            var m := k.(core := SetTask(k.core, t, Entered(k.core.tasks[t], frame)));
            Dispatch(m, h, t, env).Park? <==> Stops(k, Syscall(h, frame, env))
  {
    hide Inv, CrashedOrphan;
    var m := EnterStep(k, h, frame);
    var t := k.core.harts[h].current;
    DispatchStep(m, h, t, env);
    assert CallStops(m, t, frame.x[17]) <==> CallStops(k, t, frame.x[17]);
    if !CallStops(m, t, frame.x[17]) {
      var r := Dispatch(m, h, t, env).value;
      if r.rescheduled {
        ArmStep(r.kernel, h, env.armNow);
      }
    }
  }

  /**
   * The state the boot hart hands over: one idle task per hart, the initial task current on hart 0, the
   * other harts not yet dispatched, nothing queued, no endpoint in use.
   */
  ghost predicate Booted(k: Kernel) {
    var c, n := k.core, |k.core.harts|;
    && 1 <= n == |c.sleepers| && n < |c.tasks| == |k.used| && n < k.trackerSlots && k.nextTid == n + 2
    && c.runQueue == []
    && (forall h {:trigger c.sleepers[h]} {:trigger c.harts[h]} :: 0 <= h < n ==>
          c.sleepers[h] == [] && c.harts[h].idle == h && c.harts[h].current == if h == 0 then n else NIL)
    && (forall t {:trigger c.tasks[t]} {:trigger k.used[t]} :: 0 <= t < |c.tasks| ==>
          && k.used[t] == (t <= n)
          && (t > n ==> c.tasks[t] == BLANK_TASK)
          && (t <= n ==>
                && Unqueued(c.tasks[t]) && c.tasks[t].tid == t + 1 && c.tasks[t].tracker == t
                && c.tasks[t].idle == (t < n) && c.tasks[t].cpu == (if t < n then t else 0)
                && c.tasks[t].state == if t < n then Ready else Running))
    && (forall r :: r in k.trackers <==> 0 <= r <= n)
    && (forall r :: r in k.trackers ==> k.trackers[r] == Tracker(NIL, r + 1, r, Alive, 0, false, 0))
    && IpcModel.Initial(k.endpoints) && |k.endpoints| <= TWO32 && 1 <= k.limits.ceiling < TWO32 / 2
  }

  lemma BootedIsPlaced(k: Kernel)
    requires Booted(k)
    ensures Placed(k, {}, NO_HART)
  {
    assert forall h :: HartIndex(k.core, h) ==> HartPlaced(k, h, {}, NO_HART) && SleepersPlaced(k, h, {});
    assert forall t :: Slot(k.core, t) && k.used[t] ==> TaskPlaced(k, t, {}, NO_HART);
    assert forall e :: 0 <= e < |k.endpoints| ==> WaitersPlaced(k, e, {});
  }

  lemma BootedIsTracked(k: Kernel)
    requires Booted(k)
    ensures TrackersOk(k)
  {
    assert forall t :: Slot(k.core, t) && k.used[t] ==> OwnsTracker(k, t);
    assert forall r :: r in k.trackers ==> TrackerOk(k, r);
  }

  lemma BootedIsInv(k: Kernel)
    requires Booted(k)
    ensures Inv(k)
  {
    hide Placed, TrackersOk;
    BootedIsPlaced(k);
    BootedIsTracked(k);
  }

  /** A run: the boot state, then one legal step after the other, on any harts in any order. */
  ghost predicate IsRun(ks: seq<Kernel>, es: seq<Event>) {
    && |ks| == |es| + 1 && Booted(ks[0])
    && forall i :: 0 <= i < |es| ==> Legal(ks[i], es[i]) && Machine.Next(ks[i], es[i]) == Run(ks[i + 1])
  }

  /** Every state of every run satisfies the invariant. */
  lemma {:induction false} RunsKeepInv(ks: seq<Kernel>, es: seq<Event>, n: nat)
    requires IsRun(ks, es) && n <= |es|
    ensures Inv(ks[n])
  {
    if n == 0 {
      BootedIsInv(ks[0]);
    } else {
      RunsKeepInv(ks, es, n - 1);
      StepKeeps(ks[n - 1], es[n - 1]);
    }
  }

  lemma RunStep(ks: seq<Kernel>, es: seq<Event>, n: nat)
    requires IsRun(ks, es) && n < |es|
    ensures |ks| == |es| + 1 && Inv(ks[n]) && Inv(ks[n + 1])
    ensures Legal(ks[n], es[n]) && HartIndex(ks[n].core, es[n].hart) && Machine.Next(ks[n], es[n]) == Run(ks[n + 1])
  {
    RunsKeepInv(ks, es, n);
    RunsKeepInv(ks, es, n + 1);
  }

  /** After any run, a trap runs into a fail-closed park exactly when it is an exit that must stop the kernel. */
  lemma ParksExactly(ks: seq<Kernel>, es: seq<Event>, e: Event)
    requires IsRun(ks, es) && Offered(ks[|es|], e)
    ensures Machine.Next(ks[|es|], e).Park? <==> Stops(ks[|es|], e)
  {
    RunsKeepInv(ks, es, |es|);
    StepIsExact(ks[|es|], e);
  }

  // ---------------------------------------------------------------------------------------------
  // One place per task

  datatype Place = OnHart(hart: int) | InRunQueue | Asleep(hart: int) | AtEndpoint(slot: int) | Joining

  /** Membership, read off the queues, the harts and the trackers alone. */
  ghost predicate At(k: Kernel, t: int, p: Place)
    requires Slot(k.core, t)
  {
    match p
    case OnHart(h) => HartIndex(k.core, h) && k.core.harts[h].current == t
    case InRunQueue => t in k.core.runQueue
    case Asleep(h) => HartIndex(k.core, h) && t in k.core.sleepers[h]
    case AtEndpoint(e) => 0 <= e < |k.endpoints| && t in k.endpoints[e].waiters
    case Joining => exists r :: WaitsOn(k.trackers, r, t)
  }

  /** The place a live task's own record names. */
  function Named(v: Task): Place {
    match v.state
    case Ready => InRunQueue
    case BlockedSleep => Asleep(v.cpu)
    case BlockedMessage => AtEndpoint(EndpointOf(v))
    case BlockedJoin => Joining
    case _ => OnHart(v.cpu)
  }

  /**
   * In every reachable state a live non-idle task is in exactly one place, the one its record names, its
   * queue flags agree with it, and it occurs there once.
   */
  lemma ExactlyOnePlace(ks: seq<Kernel>, es: seq<Event>, t: int)
    requires IsRun(ks, es)
    requires var k := ks[|es|]; Slot(k.core, t) && t < |k.used| && k.used[t] && !k.core.tasks[t].idle
    ensures var k := ks[|es|];
            var v := k.core.tasks[t];
            && (forall p :: At(k, t, p) <==> p == Named(v))
            && (v.queued <==> Named(v) == InRunQueue)
            && (v.delayQueued <==> Named(v).Asleep?)
            && (v.messageQueued <==> Named(v).AtEndpoint?)
            && v.state in {Running, Ready, BlockedSleep, BlockedMessage, BlockedJoin}
            && Distinct(k.core.runQueue)
            && (forall h :: HartIndex(k.core, h) ==> Distinct(k.core.sleepers[h]))
            && (forall e :: 0 <= e < |k.endpoints| ==> Distinct(k.endpoints[e].waiters))
  {
    var k := ks[|es|];
    RunsKeepInv(ks, es, |es|);
    PlaceIsNamed(k, t);
  }

  lemma PlaceIsNamed(k: Kernel, t: int)
    requires Inv(k) && Slot(k.core, t) && k.used[t] && !k.core.tasks[t].idle
    ensures forall p :: At(k, t, p) <==> p == Named(k.core.tasks[t])
    ensures var v := k.core.tasks[t];
            && (v.queued <==> Named(v) == InRunQueue)
            && (v.delayQueued <==> Named(v).Asleep?)
            && (v.messageQueued <==> Named(v).AtEndpoint?)
            && v.state in {Running, Ready, BlockedSleep, BlockedMessage, BlockedJoin}
    ensures Distinct(k.core.runQueue)
    ensures forall h :: HartIndex(k.core, h) ==> Distinct(k.core.sleepers[h])
    ensures forall e :: 0 <= e < |k.endpoints| ==> Distinct(k.endpoints[e].waiters)
  {
    var v := k.core.tasks[t];
    assert TaskPlaced(k, t, {}, NO_HART);
    assert forall h :: HartIndex(k.core, h) ==> SleepersPlaced(k, h, {});
    assert forall e :: 0 <= e < |k.endpoints| ==> WaitersPlaced(k, e, {});
    assert v.state == BlockedJoin ==> WaitsOn(k.trackers, v.tracker, t);
    forall p | At(k, t, p) ensures p == Named(v) {
      OnlyNamed(k, t, p);
    }
  }

  lemma OnlyNamed(k: Kernel, t: int, p: Place)
    requires Inv(k) && Slot(k.core, t) && k.used[t] && !k.core.tasks[t].idle && At(k, t, p)
    ensures p == Named(k.core.tasks[t])
  {
    match p
    case OnHart(h) => assert HartPlaced(k, h, {}, NO_HART);
    case InRunQueue =>
    case Asleep(h) => assert SleepersPlaced(k, h, {});
    case AtEndpoint(e) => assert WaitersPlaced(k, e, {});
    case Joining =>
      var r :| WaitsOn(k.trackers, r, t);
      assert TrackerOk(k, r);
  }
}
