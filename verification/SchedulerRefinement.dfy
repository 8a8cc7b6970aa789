/**
 * Every step of the kernel is a path of the abstract task-placement machine: some moves that do not dispatch, at
 * most one dispatch on the step's own hart, and then wakes.
 */
module SchedulerRefinement {
  import opened Base
  import opened IpcModel
  import opened Machine
  import opened Placement
  import opened Runs
  import S = SchedulerModel

  /** Idle tasks and free slots are not tasks of the abstract machine. */
  function LetterOf(v: Task): S.Letter {
    if v.idle then S.Ended else
    match v.state
    case Running => S.Running
    case Ready => S.Ready
    case BlockedMessage => S.Blocked
    case BlockedSleep => S.Blocked
    case BlockedJoin => S.Blocked
    case _ => S.Ended
  }

  function Letters(tasks: seq<Task>): (s: seq<S.Letter>)
    ensures |s| == |tasks| && forall t :: 0 <= t < |tasks| ==> s[t] == LetterOf(tasks[t])
  {
    seq(|tasks|, t requires 0 <= t < |tasks| => LetterOf(tasks[t]))
  }

  /** What the abstract machine sees on a hart: nothing when it is idle, or about to be switched. */
  function Seen(c: Core, h: int, stale: int): int
    requires 0 <= h < |c.harts|
  {
    var t := c.harts[h].current;
    if h == stale || !Slot(c, t) || c.tasks[t].idle then NIL else t
  }

  function Abs(c: Core, stale: int): (s: S.State)
    ensures |s.letters| == |c.tasks| && |s.current| == |c.harts| && s.runQueue == c.runQueue
    ensures forall h :: 0 <= h < |c.harts| ==> s.current[h] == Seen(c, h, stale)
  {
    S.State(Letters(c.tasks), seq(|c.harts|, h requires 0 <= h < |c.harts| => Seen(c, h, stale)), c.runQueue,
            set t | 0 <= t < |c.tasks| && LetterOf(c.tasks[t]) == S.Blocked)
  }

  /** Two abstract states with the same parts. */
  lemma SameState(a: S.State, b: S.State)
    requires |a.letters| == |b.letters| && forall t :: 0 <= t < |a.letters| ==> a.letters[t] == b.letters[t]
    requires |a.current| == |b.current| && forall h :: 0 <= h < |a.current| ==> a.current[h] == b.current[h]
    requires a.runQueue == b.runQueue && a.waiting == b.waiting
    ensures a == b
  {
  }

  /** Whatever else a step writes, the abstract machine sees only letters, current tasks and the queue. */
  lemma Unseen(c: Core, d: Core, stale: int)
    requires SameShape(c, d) && d.runQueue == c.runQueue
    requires forall t :: 0 <= t < |c.tasks| ==>
               LetterOf(d.tasks[t]) == LetterOf(c.tasks[t]) && d.tasks[t].idle == c.tasks[t].idle
    requires forall h :: 0 <= h < |c.harts| ==> d.harts[h].current == c.harts[h].current
    ensures Abs(d, stale) == Abs(c, stale)
  {
    SameState(Abs(d, stale), Abs(c, stale));
  }

  lemma TouchUnseen(c: Core, t: int, w: Task, stale: int)
    requires Slot(c, t) && w.state == c.tasks[t].state && w.idle == c.tasks[t].idle
    ensures Abs(SetTask(c, t, w), stale) == Abs(c, stale)
  {
    Unseen(c, SetTask(c, t, w), stale);
  }

  // ---------------------------------------------------------------------------------------------
  // The moves

  /** Publishing a blocked task is a wake. */
  lemma EnqueueWakes(c: Core, t: int, stale: int)
    requires Slot(c, t) && LetterOf(c.tasks[t]) == S.Blocked
    ensures S.Enabled(Abs(c, stale), S.Wake(t)) && Abs(Enqueue(c, t), stale) == S.After(Abs(c, stale), S.Wake(t))
  {
    SameState(Abs(Enqueue(c, t), stale), S.After(Abs(c, stale), S.Wake(t)));
  }

  /** A slot that held no task, filled and published, is a creation. */
  lemma EnqueueCreates(c: Core, t: int, w: Task, stale: int)
    requires Slot(c, t) && LetterOf(c.tasks[t]) == S.Ended && !w.idle
    requires forall h :: 0 <= h < |c.harts| ==> c.harts[h].current != t
    ensures S.Enabled(Abs(c, stale), S.Create(t))
    ensures Abs(Enqueue(SetTask(c, t, w), t), stale) == S.After(Abs(c, stale), S.Create(t))
  {
    SameState(Abs(Enqueue(SetTask(c, t, w), t), stale), S.After(Abs(c, stale), S.Create(t)));
  }

  /** The hart's running task. */
  predicate RunsOn(c: Core, h: int, t: int) {
    HartIndex(c, h) && c.harts[h].current == t && Slot(c, t) && !c.tasks[t].idle && c.tasks[t].state == Running
  }

  lemma EnqueueReleases(c: Core, h: int, t: int)
    requires RunsOn(c, h, t)
    ensures S.Enabled(Abs(c, NO_HART), S.Release(h)) && Abs(Enqueue(c, t), h) == S.After(Abs(c, NO_HART), S.Release(h))
  {
    SameState(Abs(Enqueue(c, t), h), S.After(Abs(c, NO_HART), S.Release(h)));
  }

  lemma LetterBlocks(c: Core, h: int, t: int, w: Task)
    requires RunsOn(c, h, t) && !w.idle && LetterOf(w) == S.Blocked
    ensures S.Enabled(Abs(c, NO_HART), S.Block(h)) && Abs(SetTask(c, t, w), h) == S.After(Abs(c, NO_HART), S.Block(h))
  {
    SameState(Abs(SetTask(c, t, w), h), S.After(Abs(c, NO_HART), S.Block(h)));
  }

  lemma LetterEnds(c: Core, h: int, t: int, w: Task)
    requires RunsOn(c, h, t) && !w.idle && w.state == Ended
    ensures S.Enabled(Abs(c, NO_HART), S.End(h)) && Abs(SetTask(c, t, w), h) == S.After(Abs(c, NO_HART), S.End(h))
  {
    SameState(Abs(SetTask(c, t, w), h), S.After(Abs(c, NO_HART), S.End(h)));
  }

  /** The switch of a stale hart: the head of the queue, or the idle task. */
  lemma SwitchDispatches(c: Core, h: int, now: nat)
    requires HartIndex(c, h) && SetNextRunnable(c, h, now).Run?
    requires Slot(c, c.harts[h].idle) && c.tasks[c.harts[h].idle].idle
    requires forall t :: t in c.runQueue ==> Slot(c, t) && !c.tasks[t].idle
    ensures var d := SetNextRunnable(c, h, now).value;
            if c.runQueue == [] then Abs(d, NO_HART) == Abs(c, h)
            else S.Enabled(Abs(c, h), S.Dispatch(h)) && Abs(d, NO_HART) == S.After(Abs(c, h), S.Dispatch(h))
  {
    var d := SetNextRunnable(c, h, now).value;
    if c.runQueue == [] {
      SameState(Abs(d, NO_HART), Abs(c, h));
    } else {
      assert c.runQueue[0] in c.runQueue;
      SameState(Abs(d, NO_HART), S.After(Abs(c, h), S.Dispatch(h)));
    }
  }

  // ---------------------------------------------------------------------------------------------
  // Steps

  /** Moves before the switch, the state then, whether the hart was given a task, and the wakes after it. */
  datatype Trace = Trace(before: seq<S.Move>, middle: S.State, dispatched: bool, after: seq<S.Move>)

  ghost predicate Takes(c: Core, d: Core, h: int, tr: Trace) {
    && S.Quiet(tr.before) && S.Leads(Abs(c, NO_HART), tr.before, tr.middle)
    && (tr.dispatched ==> S.Enabled(tr.middle, S.Dispatch(h)))
    && S.Wakes(tr.after)
    && S.Leads(if tr.dispatched then S.After(tr.middle, S.Dispatch(h)) else tr.middle, tr.after, Abs(d, NO_HART))
  }

  /** What the switch of a hart needs. */
  ghost predicate Switchable(c: Core, h: int) {
    && HartIndex(c, h) && Slot(c, c.harts[h].idle) && c.tasks[c.harts[h].idle].idle
    && forall t :: t in c.runQueue ==> Slot(c, t) && !c.tasks[t].idle
  }

  lemma InvIsSwitchable(k: Kernel, h: int)
    requires Inv(k) && HartIndex(k.core, h)
    ensures Switchable(k.core, h)
  {
    assert HartPlaced(k, h, {}, NO_HART);
  }

  lemma SwitchTrace(c: Core, before: seq<S.Move>, m: Core, h: int, now: nat) returns (tr: Trace)
    requires S.Quiet(before) && S.Leads(Abs(c, NO_HART), before, Abs(m, h))
    requires Switchable(m, h) && SetNextRunnable(m, h, now).Run?
    ensures Takes(c, SetNextRunnable(m, h, now).value, h, tr)
    ensures tr == Trace(before, Abs(m, h), m.runQueue != [], [])
  {
    hide Abs, SetNextRunnable, S.Enabled, S.After;
    SwitchDispatches(m, h, now);
    tr := Trace(before, Abs(m, h), m.runQueue != [], []);
  }

  lemma QuietTrace(c: Core, moves: seq<S.Move>, d: Core, h: int) returns (tr: Trace)
    requires S.Quiet(moves) && S.Leads(Abs(c, NO_HART), moves, Abs(d, NO_HART))
    ensures Takes(c, d, h, tr) && tr == Trace(moves, Abs(d, NO_HART), false, [])
  {
    hide Abs;
    tr := Trace(moves, Abs(d, NO_HART), false, []);
  }

  /** Nothing that the abstract machine sees. */
  lemma SilentTrace(c: Core, d: Core, h: int) returns (tr: Trace)
    requires Abs(d, NO_HART) == Abs(c, NO_HART)
    ensures Takes(c, d, h, tr)
  {
    hide Abs;
    tr := QuietTrace(c, [], d, h);
  }

  /** A hart that runs its idle task, or none, looks the same before and during the switch. */
  lemma IdleHart(c: Core, h: int)
    requires HartIndex(c, h) && (Slot(c, c.harts[h].current) ==> c.tasks[c.harts[h].current].idle)
    ensures Abs(c, h) == Abs(c, NO_HART)
  {
    SameState(Abs(c, h), Abs(c, NO_HART));
  }

  /** `return_runnable`: the current task goes to the tail of the queue unless it is the idle task. */
  lemma ReturnTrace(c: Core, h: int) returns (before: seq<S.Move>)
    requires Switchable(c, h) && ReturnRunnable(c, h).Run?
    requires var t := c.harts[h].current; Slot(c, t) && (c.tasks[t].idle || c.tasks[t].state == Running)
    ensures S.Quiet(before) && S.Leads(Abs(c, NO_HART), before, Abs(ReturnRunnable(c, h).value, h))
    ensures Switchable(ReturnRunnable(c, h).value, h) && c.runQueue <= ReturnRunnable(c, h).value.runQueue
  {
    var t := c.harts[h].current;
    if c.tasks[t].idle {
      before := [];
      IdleHart(c, h);
    } else {
      before := [S.Release(h)];
      EnqueueReleases(c, h, t);
      S.LeadsOne(Abs(c, NO_HART), S.Release(h));
    }
  }

  lemma RescheduleTrace(start: Core, moves: seq<S.Move>, c: Core, h: int, now: nat) returns (tr: Trace)
    requires S.Quiet(moves) && S.Leads(Abs(start, NO_HART), moves, Abs(c, NO_HART))
    requires Switchable(c, h) && ReturnRunnable(c, h).Run? && SetNextRunnable(ReturnRunnable(c, h).value, h, now).Run?
    requires var t := c.harts[h].current; Slot(c, t) && (c.tasks[t].idle || c.tasks[t].state == Running)
    ensures Takes(start, SetNextRunnable(ReturnRunnable(c, h).value, h, now).value, h, tr)
    ensures c.runQueue != [] ==> tr.dispatched
  {
    hide Abs, ReturnRunnable, SetNextRunnable, S.Leads, Takes;
    var before := ReturnTrace(c, h);
    S.LeadsOn(Abs(start, NO_HART), moves, Abs(c, NO_HART), before, Abs(ReturnRunnable(c, h).value, h));
    tr := SwitchTrace(start, moves + before, ReturnRunnable(c, h).value, h, now);
  }

  /** Waking one task, after writing things the abstract machine does not see. */
  lemma WakeTrace(c: Core, t: int, w: Task, m: Core)
    requires Slot(c, t) && LetterOf(c.tasks[t]) == S.Blocked && w.state == c.tasks[t].state && w.idle == c.tasks[t].idle
    requires m == SetTask(c, t, w).(sleepers := m.sleepers) && |m.sleepers| == |c.sleepers|
    ensures Slot(m, t) && S.Leads(Abs(c, NO_HART), [S.Wake(t)], Abs(Enqueue(m, t), NO_HART))
  {
    hide Abs;
    Unseen(c, m, NO_HART);
    EnqueueWakes(m, t, NO_HART);
    S.LeadsOne(Abs(m, NO_HART), S.Wake(t));
  }

  ghost predicate AllBlocked(c: Core, q: seq<int>) {
    Distinct(q) && forall t :: t in q ==> Slot(c, t) && LetterOf(c.tasks[t]) == S.Blocked
  }

  lemma StillBlocked(c: Core, d: Core, q: seq<int>)
    requires AllBlocked(c, q) && q != [] && |d.tasks| == |c.tasks|
    requires forall u {:trigger d.tasks[u]} :: 0 <= u < |c.tasks| && u != q[0] ==> d.tasks[u] == c.tasks[u]
    ensures Slot(c, q[0]) && LetterOf(c.tasks[q[0]]) == S.Blocked && AllBlocked(d, q[1..])
    ensures forall t :: t in q[1..] ==> t in q
  {
    S.TailIsElsewhere(q);
    assert q[0] in q;
  }

  /** The delay queue without its head, and the head published. */
  function Released(c: Core, h: int): Core
    requires HartIndex(c, h) && c.sleepers[h] != [] && Slot(c, c.sleepers[h][0])
  {
    var q := c.sleepers[h];
    var v := c.tasks[q[0]].(delayQueued := false, stateInfo := 0);
    Enqueue(SetTask(c, q[0], v).(sleepers := c.sleepers[h := q[1..]]), q[0])
  }

  lemma ReleasedTrace(c: Core, h: int)
    requires Switchable(c, h) && AllBlocked(c, c.sleepers[h]) && c.sleepers[h] != []
    ensures Slot(c, c.sleepers[h][0])
    ensures S.Leads(Abs(c, NO_HART), [S.Wake(c.sleepers[h][0])], Abs(Released(c, h), NO_HART))
    ensures Switchable(Released(c, h), h) && AllBlocked(Released(c, h), c.sleepers[h][1..])
    ensures forall t :: t in c.sleepers[h][1..] ==> t in c.sleepers[h]
  {
    hide Abs;
    var q := c.sleepers[h];
    assert q[0] in q;
    var v := c.tasks[q[0]].(delayQueued := false, stateInfo := 0);
    var m := SetTask(c, q[0], v).(sleepers := c.sleepers[h := q[1..]]);
    WakeTrace(c, q[0], v, m);
    StillBlocked(c, Released(c, h), q);
  }

  /** The entries due on a hart are woken one after the other. */
  lemma {:induction false} ReleaseTrace(c: Core, h: int, now: nat) returns (moves: seq<S.Move>)
    requires Switchable(c, h) && ReleaseDue(c, h, now).Run? && AllBlocked(c, c.sleepers[h])
    ensures S.Quiet(moves) && S.Leads(Abs(c, NO_HART), moves, Abs(ReleaseDue(c, h, now).value, NO_HART))
    ensures Switchable(ReleaseDue(c, h, now).value, h) && c.runQueue <= ReleaseDue(c, h, now).value.runQueue
    ensures ReleaseDue(c, h, now).value.harts == c.harts
    ensures forall t {:trigger ReleaseDue(c, h, now).value.tasks[t]} :: Slot(c, t) && t !in c.sleepers[h] ==>
              ReleaseDue(c, h, now).value.tasks[t] == c.tasks[t]
    decreases |c.sleepers[h]|
  {
    assert HartIndex(c, h);
    hide Abs, S.Leads, AllBlocked, Switchable;
    var q := c.sleepers[h];
    if q == [] || c.tasks[q[0]].deadline > now {
      moves := [];
      LeadsNowhere(Abs(c, NO_HART));
    } else {
      ReleasedTrace(c, h);
      var d := Released(c, h);
      var rest := ReleaseTrace(d, h, now);
      moves := [S.Wake(q[0])] + rest;
      S.LeadsOn(Abs(c, NO_HART), [S.Wake(q[0])], Abs(d, NO_HART), rest, Abs(ReleaseDue(c, h, now).value, NO_HART));
    }
  }

  lemma LeadsNowhere(s: S.State)
    ensures S.Leads(s, [], s)
  {
  }

  /** The waiters of a destroyed endpoint are woken one after the other. */
  lemma {:induction false} WakeAllTrace(c: Core, waiters: seq<int>) returns (moves: seq<S.Move>)
    requires WakeAll(c, waiters).Run? && AllBlocked(c, waiters)
    ensures S.Quiet(moves) && S.Leads(Abs(c, NO_HART), moves, Abs(WakeAll(c, waiters).value, NO_HART))
    decreases |waiters|
  {
    hide Abs, S.Leads, AllBlocked;
    if waiters == [] {
      moves := [];
      LeadsNowhere(Abs(c, NO_HART));
    } else {
      var t := waiters[0];
      var v := A0(Unlinked(c.tasks[t]), Errno(43));
      var m := SetTask(c, t, v);
      var d := Enqueue(m, t);
      StillBlocked(c, d, waiters);
      WakeTrace(c, t, v, m);
      var rest := WakeAllTrace(d, waiters[1..]);
      moves := [S.Wake(t)] + rest;
      S.LeadsOn(Abs(c, NO_HART), [S.Wake(t)], Abs(d, NO_HART), rest, Abs(WakeAll(c, waiters).value, NO_HART));
    }
  }

  /** Blocking the current task and switching its hart. */
  lemma BlockTrace(c: Core, h: int, t: int, w: Task, m: Core, now: nat) returns (tr: Trace)
    requires RunsOn(c, h, t) && Switchable(c, h) && !w.idle && LetterOf(w) == S.Blocked
    requires m == SetTask(c, t, w).(sleepers := m.sleepers) && |m.sleepers| == |c.sleepers|
    requires SetNextRunnable(m, h, now).Run?
    ensures Takes(c, SetNextRunnable(m, h, now).value, h, tr)
  {
    hide Abs, SetNextRunnable, Takes;
    LetterBlocks(c, h, t, w);
    Unseen(SetTask(c, t, w), m, h);
    S.LeadsOne(Abs(c, NO_HART), S.Block(h));
    tr := SwitchTrace(c, [S.Block(h)], m, h, now);
  }

  // ---------------------------------------------------------------------------------------------
  // System calls

  /** The trace of a call. */
  ghost predicate CallTakes(k: Kernel, r: Outcome<Handled>, h: int, tr: Trace) {
    r.Run? && Takes(k.core, r.value.kernel.core, h, tr)
  }

  lemma TouchTrace(k: Kernel, t: int, w: Task, h: int) returns (tr: Trace)
    requires Slot(k.core, t) && w.state == k.core.tasks[t].state && w.idle == k.core.tasks[t].idle
    ensures Takes(k.core, SetTask(k.core, t, w), h, tr)
  {
    hide Abs;
    TouchUnseen(k.core, t, w, NO_HART);
    tr := SilentTrace(k.core, SetTask(k.core, t, w), h);
  }

  lemma CallerIsOnHart(k: Kernel, h: int, t: int)
    requires Inv(k) && Current(k, h, t)
    ensures k.core.tasks[t].idle || RunsOn(k.core, h, t)
    ensures Switchable(k.core, h)
  {
    CurrentIsRunning(k, h, t);
    InvIsSwitchable(k, h);
  }

  lemma YieldTrace(k: Kernel, h: int, t: int, env: Env) returns (tr: Trace)
    requires Inv(k) && Current(k, h, t)
    ensures CallTakes(k, HandleYield(k, h, t, env), h, tr)
  {
    hide Inv, Abs, ReturnRunnable, SetNextRunnable, Takes;
    YieldStep(k, h, t, env);
    CallerIsOnHart(k, h, t);
    var v := A0(k.core.tasks[t], 0);
    var m := SetTask(k.core, t, v);
    TouchUnseen(k.core, t, v, NO_HART);
    tr := RescheduleTrace(k.core, [], m, h, env.sliceNow);
  }

  /** A free slot is no hart's current task. */
  lemma FreeSlotIsIdle(k: Kernel, i: int)
    requires Inv(k) && Slot(k.core, i) && !k.used[i]
    ensures LetterOf(k.core.tasks[i]) == S.Ended && forall h :: 0 <= h < |k.core.harts| ==> k.core.harts[h].current != i
  {
    forall h | 0 <= h < |k.core.harts| ensures k.core.harts[h].current != i {
      assert HartPlaced(k, h, {}, NO_HART);
    }
  }

  lemma CreateTrace(k: Kernel, h: int, t: int, env: Env) returns (tr: Trace)
    requires Inv(k) && Current(k, h, t) && !k.core.tasks[t].idle
    ensures CallTakes(k, HandleCreate(k, h, t, env), h, tr)
  {
    CreateStep(k, h, t, env);
    var i, r := FreeIndex(k.used), FreeTracker(k.trackers, k.trackerSlots, 0);
    if !env.entryOk {
      tr := TouchTrace(k, t, A0(k.core.tasks[t], Errno(95)), h);
    } else if i >= |k.used| || r >= k.trackerSlots || !env.stackOk {
      tr := TouchTrace(k, t, A0(k.core.tasks[t], Errno(12)), h);
    } else {
      FreeSlotIsIdle(k, i);
      hide Inv, Abs;
      var x := k.core.tasks[t].context.x;
      var spawn := Spawn(x[10], x[11], env.stackOk, env.image);
      var child := NewTask(h, SpawnContext(spawn, i, k.core.tasks[t].context.satp), k.nextTid, r);
      hide SpawnContext;
      EnqueueCreates(k.core, i, child, NO_HART);
      var c := Enqueue(SetTask(k.core, i, child), i);
      TouchUnseen(c, t, A0(c.tasks[t], k.nextTid), NO_HART);
      S.LeadsOne(Abs(k.core, NO_HART), S.Create(i));
      tr := QuietTrace(k.core, [S.Create(i)], SetTask(c, t, A0(c.tasks[t], k.nextTid)), h);
    }
  }

  /** A parent that waits for the dead task is woken. */
  lemma BuryWakes(k: Kernel, t: int, p: int, l: Kernel)
    requires Dead(k, t) && p in k.trackers && k.trackers[p].waiting && Slot(k.core, k.trackers[p].task)
    requires Slot(k.core, t)
    requires AddTask(Told(k, t, p), k.trackers[p].task).Run?
    requires l.core == SetTask(AddTask(Told(k, t, p), k.trackers[p].task).value, t, BLANK_TASK)
    ensures S.Leads(Abs(k.core, NO_HART), [S.Wake(k.trackers[p].task)], Abs(l.core, NO_HART))
  {
    JoinerIsBlocked(k, t, p);
    hide Placed, TrackersOk, TrackersBut, Abs;
    var w := k.trackers[p].task;
    var u := A0(k.core.tasks[w], k.core.tasks[t].tid);
    WakeTrace(k.core, w, u, Told(k, t, p));
    Unseen(Enqueue(Told(k, t, p), w), l.core, NO_HART);
  }

  lemma FreeUnseen(k: Kernel, t: int, l: Kernel)
    requires Dead(k, t) && l.core == SetTask(k.core, t, BLANK_TASK)
    ensures Abs(l.core, NO_HART) == Abs(k.core, NO_HART)
  {
    assert !k.core.tasks[t].idle && k.core.tasks[t].state == Ended;
    hide Placed, TrackersOk, Abs;
    Unseen(k.core, l.core, NO_HART);
  }

  /** What `end_task` does once the hart has moved on: it may wake the parent. */
  lemma BuryTrace(k: Kernel, t: int, returnValue: nat, status: ExitStatus) returns (after: seq<S.Move>)
    requires status != Alive && Dead(k, t) && !ExitStops(k, t, status)
    ensures Bury(k, t, returnValue, status).Run? && S.Wakes(after)
    ensures S.Leads(Abs(k.core, NO_HART), after, Abs(Bury(k, t, returnValue, status).value.core, NO_HART))
  {
    hide Dead, Placed, TrackersOk, TrackersBut, Reap, CrashedOrphan, AddTask, Abs, S.Leads;
    DeadOwnsTracker(k, t);
    var v := k.core.tasks[t];
    var p := k.trackers[v.tracker].parent;
    if v.detached || p == NIL {
      var l := BuryAndReap(k, t, returnValue, status);
      FreeUnseen(k, t, l);
      LeadsNowhere(Abs(k.core, NO_HART));
      after := [];
    } else if k.trackers[p].waiting && Matches(k.trackers[p].waitTid, v.tid) {
      var l := BuryAndWake(k, t, returnValue, status, p);
      BuryWakes(k, t, p, l);
      after := [S.Wake(k.trackers[p].task)];
    } else {
      var l := BuryForParent(k, t, returnValue, status);
      FreeUnseen(k, t, l);
      LeadsNowhere(Abs(k.core, NO_HART));
      after := [];
    }
  }

  lemma ExitTrace(k: Kernel, h: int, t: int, rv: nat, status: ExitStatus, env: Env) returns (tr: Trace)
    requires status != Alive && Inv(k) && Current(k, h, t) && !k.core.tasks[t].idle && !ExitStops(k, t, status)
    ensures CallTakes(k, HandleExit(k, h, t, rv, status, env), h, tr)
  {
    hide CrashedOrphan, Inv, Dead, Abs, SetNextRunnable, Bury, S.Leads, Takes;
    CallerIsOnHart(k, h, t);
    var n := DeadAfterSwitch(k, h, t, env.sliceNow);
    var after := BuryTrace(n, t, rv, status);
    var w := k.core.tasks[t].(state := Ended);
    LetterEnds(k.core, h, t, w);
    S.LeadsOne(Abs(k.core, NO_HART), S.End(h));
    tr := SwitchTrace(k.core, [S.End(h)], SetTask(k.core, t, w), h, env.sliceNow);
    tr := TailTrace(k.core, n.core, h, tr, after, Bury(n, t, rv, status).value.core);
  }

  /** Wakes after the switch. */
  lemma TailTrace(c: Core, m: Core, h: int, tr: Trace, after: seq<S.Move>, d: Core) returns (tr': Trace)
    requires Takes(c, m, h, tr) && tr.after == [] && S.Wakes(after) && S.Leads(Abs(m, NO_HART), after, Abs(d, NO_HART))
    ensures Takes(c, d, h, tr') && tr' == tr.(after := after)
  {
    hide Abs;
    tr' := tr.(after := after);
  }

  lemma WaitTrace(k: Kernel, h: int, t: int, env: Env) returns (tr: Trace)
    requires Inv(k) && Current(k, h, t) && !k.core.tasks[t].idle
    requires var x := k.core.tasks[t].context.x;
             x[10] < TWO64 && ChildFound(k.trackers, k.core.tasks[t].tracker, Signed(x[10]), env.pick)
    ensures CallTakes(k, HandleWait(k, h, t, env), h, tr)
  {
    hide Inv, Abs, SetNextRunnable, Takes, ChildFound, RemoveTracker;
    WaitStep(k, h, t, env);
    CallerIsOnHart(k, h, t);
    var v, pick := k.core.tasks[t], env.pick;
    var r := HandleWait(k, h, t, env).value;
    if v.context.x[11] != 0 || v.context.x[12] != 0 || pick == NIL || k.trackers[pick].task == NIL {
      tr := TouchTrace(k, t, r.kernel.core.tasks[t], h);
    } else {
      var tid := Signed(v.context.x[10]);
      var w := v.(state := BlockedJoin, stateInfo := if tid < 0 then TWO64 + tid else tid);
      tr := BlockTrace(k.core, h, t, w, SetTask(k.core, t, w), env.sliceNow);
    }
  }

  lemma SleepTrace(k: Kernel, h: int, t: int, env: Env) returns (tr: Trace)
    requires Inv(k) && Current(k, h, t) && !k.core.tasks[t].idle
    ensures CallTakes(k, HandleSleep(k, h, t, env), h, tr)
  {
    hide Inv, Abs, SetNextRunnable, Takes, DurationToTicks, InsertSleeper, Switchable;
    SleepStep(k, h, t, env);
    CallerIsRunning(k, h, t);
    CallerIsOnHart(k, h, t);
    var v := k.core.tasks[t];
    var ticks := DurationToTicks(v.context.x[10], v.context.x[11]);
    if ticks == 0 || env.now + ticks > U64_MAX {
      tr := TouchTrace(k, t, A0(v, Errno(22)), h);
    } else {
      var m := DelayUntil(SetTask(k.core, t, A0(v, 0)), t, env.now + ticks);
      tr := BlockTrace(k.core, h, t, m.tasks[t], m, env.sliceNow);
    }
  }

  lemma ReceiveTrace(k: Kernel, h: int, t: int, env: Env) returns (tr: Trace)
    requires Inv(k) && Current(k, h, t) && !k.core.tasks[t].idle
    ensures CallTakes(k, HandleReceive(k, h, t, env), h, tr)
  {
    hide Inv, Abs, SetNextRunnable, Takes, Switchable;
    ReceiveStep(k, h, t, env);
    CallerIsOnHart(k, h, t);
    var v := k.core.tasks[t];
    var raw := v.context.x[10];
    var i := Lookup(k.limits, k.endpoints, raw);
    if i == NIL || k.endpoints[i].queue != [] {
      tr := TouchTrace(k, t, HandleReceive(k, h, t, env).value.kernel.core.tasks[t], h);
    } else {
      var w := v.(messageQueued := true, state := BlockedMessage, stateInfo := raw);
      tr := BlockTrace(k.core, h, t, w, SetTask(k.core, t, w), env.sliceNow);
    }
  }

  /** The waiters of an endpoint are blocked. */
  lemma WaitersAreBlocked(k: Kernel, e: int)
    requires Inv(k) && 0 <= e < |k.endpoints|
    ensures AllBlocked(k.core, k.endpoints[e].waiters)
  {
    assert WaitersPlaced(k, e, {});
  }

  lemma SendTrace(k: Kernel, t: int, h: int) returns (tr: Trace)
    requires Inv(k) && Slot(k.core, t) && k.used[t]
    ensures CallTakes(k, HandleSend(k, t), h, tr)
  {
    hide Inv, Abs, Takes;
    SendStep(k, t);
    var v := k.core.tasks[t];
    var i := Lookup(k.limits, k.endpoints, v.context.x[10]);
    if i == NIL || k.endpoints[i].waiters == [] {
      tr := TouchTrace(k, t, HandleSend(k, t).value.kernel.core.tasks[t], h);
    } else {
      WaitersAreBlocked(k, i);
      var u := k.endpoints[i].waiters[0];
      assert u in k.endpoints[i].waiters;
      var w := Receipt(Unlinked(k.core.tasks[u]), MessageOf(v));
      var m := SetTask(k.core, u, w);
      WakeTrace(k.core, u, w, m);
      var d := Enqueue(m, u);
      TouchUnseen(d, t, A0(d.tasks[t], 0), NO_HART);
      tr := QuietTrace(k.core, [S.Wake(u)], SetTask(d, t, A0(d.tasks[t], 0)), h);
    }
  }

  lemma DestroyTrace(k: Kernel, t: int, h: int) returns (tr: Trace)
    requires Inv(k) && Slot(k.core, t) && k.used[t]
    ensures CallTakes(k, HandleEndpointDestroy(k, t), h, tr)
  {
    hide Inv, Abs, WakeAll, AllBlocked, Takes;
    DestroyStep(k, t);
    var v := k.core.tasks[t];
    var i := Lookup(k.limits, k.endpoints, v.context.x[10]);
    if i == NIL || !k.endpoints[i].claimed || k.endpoints[i].owner != v.tid {
      tr := TouchTrace(k, t, HandleEndpointDestroy(k, t).value.kernel.core.tasks[t], h);
    } else {
      WaitersAreBlocked(k, i);
      var moves := WakeAllTrace(k.core, k.endpoints[i].waiters);
      var d := WakeAll(k.core, k.endpoints[i].waiters).value;
      TouchUnseen(d, t, A0(d.tasks[t], 0), NO_HART);
      tr := QuietTrace(k.core, moves, SetTask(d, t, A0(d.tasks[t], 0)), h);
    }
  }

  /** Every system call of `try_handle`. */
  lemma DispatchTrace(k: Kernel, h: int, t: int, env: Env) returns (tr: Trace)
    requires Inv(k) && Current(k, h, t)
    requires var x := k.core.tasks[t].context.x;
             && !CallStops(k, t, x[17]) && x[10] < TWO64 && (k.core.tasks[t].idle ==> x[17] == 0)
             && (x[17] == 3 ==> ChildFound(k.trackers, k.core.tasks[t].tracker, Signed(x[10]), env.pick))
    ensures CallTakes(k, Dispatch(k, h, t, env), h, tr)
  {
    hide Inv, Takes, Abs, ExitStops;
    var x := k.core.tasks[t].context.x;
    match x[17]
    case 0 => tr := YieldTrace(k, h, t, env);
    case 1 => tr := CreateTrace(k, h, t, env);
    case 2 => tr := ExitTrace(k, h, t, x[10], ExitedClean, env);
    case 3 => tr := WaitTrace(k, h, t, env);
    case 5 => tr := SleepTrace(k, h, t, env);
    case 7 => tr := DestroyTrace(k, t, h);
    case 8 => tr := SendTrace(k, t, h);
    case 10 => tr := ReceiveTrace(k, h, t, env);
    case _ =>
      if x[17] > 12 {
        tr := ExitTrace(k, h, t, 0, Crashed, env);
      } else {
        tr := TouchTrace(k, t, Dispatch(k, h, t, env).value.kernel.core.tasks[t], h);
      }
  }

  // ---------------------------------------------------------------------------------------------
  // Steps and runs

  lemma ArmUnseen(k: Kernel, h: int, now: nat)
    requires Armed(k, h, now).Run?
    ensures Abs(Armed(k, h, now).value.core, NO_HART) == Abs(k.core, NO_HART)
  {
    Unseen(k.core, Armed(k, h, now).value.core, NO_HART);
  }

  /** Only what the abstract machine sees matters to a trace. */
  lemma SameTrace(c: Core, d: Core, h: int, tr: Trace, c': Core, d': Core)
    requires Takes(c, d, h, tr) && Abs(c', NO_HART) == Abs(c, NO_HART) && Abs(d', NO_HART) == Abs(d, NO_HART)
    ensures Takes(c', d', h, tr)
  {
    hide Abs;
  }

  lemma SyscallTrace(k: Kernel, h: int, frame: Frame, env: Env) returns (tr: Trace)
    requires Inv(k) && Legal(k, Syscall(h, frame, env))
    ensures SyscallStep(k, h, frame, env).Run? && Takes(k.core, SyscallStep(k, h, frame, env).value.core, h, tr)
  {
    hide Inv, Takes, Abs, Dispatch, Armed;
    SyscallStepIsExact(k, h, frame, env);
    var m := EnterStep(k, h, frame);
    var t := k.core.harts[h].current;
    tr := DispatchTrace(m, h, t, env);
    TouchUnseen(k.core, t, Entered(k.core.tasks[t], frame), NO_HART);
    var r := Dispatch(m, h, t, env).value;
    if r.rescheduled {
      ArmUnseen(r.kernel, h, env.armNow);
    }
    SameTrace(m.core, r.kernel.core, h, tr, k.core, SyscallStep(k, h, frame, env).value.core);
  }

  /** The sleepers of a hart are blocked, and its current task is not among them. */
  lemma SleepersAreBlocked(k: Kernel, h: int, t: int)
    requires Inv(k) && HartIndex(k.core, h)
    requires Current(k, h, t)
    ensures AllBlocked(k.core, k.core.sleepers[h]) && t !in k.core.sleepers[h]
  {
    assert SleepersPlaced(k, h, {});
    CurrentIsRunning(k, h, t);
  }

  lemma TimerTrace(k: Kernel, h: int, frame: Frame, env: Env) returns (tr: Trace)
    requires Inv(k) && HartIndex(k.core, h) && Slot(k.core, k.core.harts[h].current)
    ensures TimerStep(k, h, frame, env).Run? && Takes(k.core, TimerStep(k, h, frame, env).value.core, h, tr)
    ensures k.core.runQueue != [] ==> tr.dispatched
  {
    hide Inv, Takes, Abs, ReleaseDue, ReturnRunnable, SetNextRunnable, Armed, AllBlocked, S.Leads;
    TimerStepKeeps(k, h, frame, env);
    var m := TimerEnter(k, h, frame);
    var t := k.core.harts[h].current;
    CallerIsOnHart(m, h, t);
    SleepersAreBlocked(m, h, t);
    var moves := ReleaseTrace(m.core, h, env.now);
    var c := ReleaseDue(m.core, h, env.now).value;
    tr := RescheduleTrace(m.core, moves, c, h, env.sliceNow);
    var d := SetNextRunnable(ReturnRunnable(c, h).value, h, env.sliceNow).value;
    ArmUnseen(k.(core := d), h, env.armNow);
    TouchUnseen(k.core, t, Save(k.core.tasks[t], frame), NO_HART);
    SameTrace(m.core, d, h, tr, k.core, TimerStep(k, h, frame, env).value.core);
  }

  lemma TimerEnter(k: Kernel, h: int, frame: Frame) returns (m: Kernel)
    requires Inv(k) && HartIndex(k.core, h) && Slot(k.core, k.core.harts[h].current)
    ensures var t := k.core.harts[h].current;
            m == k.(core := SetTask(k.core, t, Save(k.core.tasks[t], frame))) && Current(m, h, t)
    ensures Inv(m)
  {
    var t := k.core.harts[h].current;
    CurrentIsRunning(k, h, t);
    TouchStep(k, t, Save(k.core.tasks[t], frame));
    m := k.(core := SetTask(k.core, t, Save(k.core.tasks[t], frame)));
  }

  lemma StartTrace(k: Kernel, h: int, env: Env) returns (tr: Trace)
    requires Inv(k) && HartIndex(k.core, h) && k.core.harts[h].current == NIL
    requires StartStep(k, h, env).Run?
    ensures Takes(k.core, StartStep(k, h, env).value.core, h, tr)
  {
    hide Inv, Takes, Abs, SetNextRunnable, Armed;
    InvIsSwitchable(k, h);
    IdleHart(k.core, h);
    LeadsNowhere(Abs(k.core, NO_HART));
    tr := SwitchTrace(k.core, [], k.core, h, env.sliceNow);
    var d := SetNextRunnable(k.core, h, env.sliceNow).value;
    ArmUnseen(k.(core := d), h, env.armNow);
    SameTrace(k.core, d, h, tr, k.core, StartStep(k, h, env).value.core);
  }

  /** Every legal step of the kernel is a path of the abstract machine, with at most one dispatch. */
  lemma StepIsPath(k: Kernel, e: Event) returns (tr: Trace)
    requires Inv(k) && Legal(k, e)
    ensures Machine.Next(k, e).Run? && Takes(k.core, Machine.Next(k, e).value.core, e.hart, tr)
    ensures e.Timer? && k.core.runQueue != [] ==> tr.dispatched
  {
    hide Inv, Takes, SyscallStep, TimerStep, StartStep;
    StepKeeps(k, e);
    match e
    case Start(h, env) => tr := StartTrace(k, h, env);
    case Timer(h, frame, env) => tr := TimerTrace(k, h, frame, env);
    case Syscall(h, frame, env) => tr := SyscallTrace(k, h, frame, env);
  }

  /** The boot state passes the placement check. */
  lemma BootIsChecked(k: Kernel)
    requires Booted(k)
    ensures S.Checked(Abs(k.core, NO_HART))
  {
    var s, n := Abs(k.core, NO_HART), |k.core.harts|;
    assert s.current[0] == n;
    forall h | 0 < h < n ensures s.current[h] == NIL {
      assert k.core.harts[h].current == NIL;
    }
    forall t | 0 <= t < |k.core.tasks| ensures s.letters[t] == if t == n then S.Running else S.Ended {
      assert k.used[t] == (t <= n);
    }
  }

  lemma TraceKeepsChecked(c: Core, d: Core, h: int, tr: Trace)
    requires Takes(c, d, h, tr) && S.Checked(Abs(c, NO_HART))
    ensures S.Checked(Abs(d, NO_HART))
  {
    hide Abs, S.Checked, S.Leads, S.Enabled, S.After;
    S.PathKeepsChecked(Abs(c, NO_HART), tr.before, tr.middle);
    if tr.dispatched {
      S.MoveKeepsChecked(tr.middle, S.Dispatch(h));
      S.PathKeepsChecked(S.After(tr.middle, S.Dispatch(h)), tr.after, Abs(d, NO_HART));
    } else {
      S.PathKeepsChecked(tr.middle, tr.after, Abs(d, NO_HART));
    }
  }

  /** Every state of every run passes the placement check of the abstract machine. */
  lemma {:induction false} RunsAreChecked(ks: seq<Kernel>, es: seq<Event>, n: nat)
    requires Runs.IsRun(ks, es) && n <= |es|
    ensures S.Checked(Abs(ks[n].core, NO_HART))
  {
    if n == 0 {
      BootIsChecked(ks[0]);
    } else {
      RunsAreChecked(ks, es, n - 1);
      CheckedStep(ks, es, n - 1);
    }
  }

  lemma CheckedStep(ks: seq<Kernel>, es: seq<Event>, n: nat)
    requires Runs.IsRun(ks, es) && n < |es| && S.Checked(Abs(ks[n].core, NO_HART))
    ensures S.Checked(Abs(ks[n + 1].core, NO_HART))
  {
    hide Runs.IsRun, Abs, S.Checked, Takes, Legal, Machine.Next, Inv;
    RunsKeepInv(ks, es, n);
    RunStep(ks, es, n);
    var tr := StepIsPath(ks[n], es[n]);
    TraceKeepsChecked(ks[n].core, ks[n + 1].core, es[n].hart, tr);
  }

  // ---------------------------------------------------------------------------------------------
  // No overtaking

  /** A trace moves a queued task forward by exactly its dispatches, or makes it current on the step's hart. */
  lemma TraceAdvances(c: Core, d: Core, h: int, tr: Trace, i: nat)
    requires Takes(c, d, h, tr) && i < |c.runQueue| && HartIndex(c, h) && |d.harts| == |c.harts|
    ensures !tr.dispatched ==> i < |d.runQueue| && d.runQueue[i] == c.runQueue[i]
    ensures tr.dispatched && i > 0 ==> i - 1 < |d.runQueue| && d.runQueue[i - 1] == c.runQueue[i]
    ensures tr.dispatched && i == 0 && c.runQueue[0] != NIL ==> d.harts[h].current == c.runQueue[0]
  {
    var a, b := Abs(c, NO_HART), Abs(d, NO_HART);
    assert a.runQueue == c.runQueue && b.runQueue == d.runQueue && b.current[h] == Seen(d, h, NO_HART);
    hide Abs, S.Leads;
    S.QuietExtends(a, tr.before, tr.middle);
    assert tr.middle.runQueue[i] == c.runQueue[i];
    if tr.dispatched {
      var m := S.After(tr.middle, S.Dispatch(h));
      S.QuietExtends(m, tr.after, b);
      assert i > 0 ==> m.runQueue[i - 1] == tr.middle.runQueue[i];
    } else {
      S.QuietExtends(tr.middle, tr.after, b);
    }
  }

  /** The timer interrupts among steps `a` to `b`. */
  function Timers(es: seq<Event>, a: nat, b: nat): nat
    requires a <= b <= |es|
    decreases b - a
  {
    if a == b then 0 else (if es[a].Timer? then 1 else 0) + Timers(es, a + 1, b)
  }

  /** Step `n` gave its hart to the task. */
  ghost predicate Dispatched(ks: seq<Kernel>, es: seq<Event>, n: nat, t: int)
    requires n < |es| && n + 1 < |ks|
  {
    HartIndex(ks[n + 1].core, es[n].hart) && ks[n + 1].core.harts[es[n].hart].current == t
  }

  lemma QueuedIsTask(k: Kernel, i: nat)
    requires Inv(k) && i < |k.core.runQueue|
    ensures k.core.runQueue[i] != NIL
  {
    assert k.core.runQueue[i] in k.core.runQueue;
  }

  lemma SameHarts(k: Kernel, e: Event)
    requires Machine.Next(k, e).Run?
    ensures SameShape(k.core, Machine.Next(k, e).value.core)
  {
  }

  /** One step: the queued task stays where it is, moves up by one, or runs. */
  lemma QueuedStep(ks: seq<Kernel>, es: seq<Event>, n: nat, i: nat) returns (moved: bool)
    requires Runs.IsRun(ks, es) && n < |es| && i < |ks[n].core.runQueue|
    ensures es[n].Timer? ==> moved
    ensures !moved ==> i < |ks[n + 1].core.runQueue| && ks[n + 1].core.runQueue[i] == ks[n].core.runQueue[i]
    ensures moved && i > 0 ==>
              i - 1 < |ks[n + 1].core.runQueue| && ks[n + 1].core.runQueue[i - 1] == ks[n].core.runQueue[i]
    ensures moved && i == 0 ==> Dispatched(ks, es, n, ks[n].core.runQueue[0])
  {
    hide Runs.IsRun, Inv, Legal, Takes, Machine.Next;
    RunStep(ks, es, n);
    var tr := StepIsPath(ks[n], es[n]);
    QueuedIsTask(ks[n], i);
    SameHarts(ks[n], es[n]);
    TraceAdvances(ks[n].core, ks[n + 1].core, es[n].hart, tr, i);
    moved := tr.dispatched;
  }

  /**
   * Nothing overtakes in the run queue: whatever else happens on any hart, a task with `i` tasks before it has been
   * dispatched by the time of `i + 1` timer interrupts.
   */
  lemma {:induction false} QueuedTaskIsDispatched(ks: seq<Kernel>, es: seq<Event>, a: nat, b: nat, i: nat)
    requires Runs.IsRun(ks, es) && a <= b <= |es| && i < |ks[a].core.runQueue| && Timers(es, a, b) > i
    ensures exists n :: a <= n < b && Dispatched(ks, es, n, ks[a].core.runQueue[i])
    decreases b - a
  {
    assert |ks| == |es| + 1;
    hide Runs.IsRun, Dispatched;
    var t := ks[a].core.runQueue[i];
    var moved := QueuedStep(ks, es, a, i);
    if moved && i == 0 {
      assert Dispatched(ks, es, a, t);
    } else {
      QueuedTaskIsDispatched(ks, es, a + 1, b, if moved then i - 1 else i);
      var n :| a + 1 <= n < b && Dispatched(ks, es, n, t);
    }
  }
}
