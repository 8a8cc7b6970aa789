/**
 * Saved registers. Apart from the task a hart is trapping from, a step writes into a task's saved
 * context only when it wakes it from a message wait or a join, and then exactly what the waker owes it.
 */
module Contexts {
  import opened Base
  import opened IpcModel
  import opened Machine
  import opened Placement
  import opened Forest
  import opened IpcRefinement
  import opened Runs
  import opened IpcRuns

  /** Why a blocked task becomes ready. */
  datatype Wake = NoWake | ByMessage(message: Message) | ByDestroy | ByChild(tid: nat)

  /** The wake that a system call owes to the task `u`, read off the state before the call. */
  function CallWake(k: Kernel, t: int, u: int): Wake
    requires Slot(k.core, t)
  {
    var v := k.core.tasks[t];
    var labels := CallLabel(k, t);
    if labels == [] then
      if (v.context.x[17] == 2 || v.context.x[17] > 12) && AwaitedBy(k, t, u) then ByChild(v.tid) else NoWake
    else if labels[0].SendWake? then
      if labels[0].receiver == u then ByMessage(labels[0].message) else NoWake
    else if labels[0].Destroy? && labels[0].slot < |k.endpoints| then
      if u in k.endpoints[labels[0].slot].waiters then ByDestroy else NoWake
    else NoWake
  }

  /** The task `u` waits for the exit of `t`, and `t` is not detached. */
  predicate AwaitedBy(k: Kernel, t: int, u: int)
    requires Slot(k.core, t)
  {
    var v, f := k.core.tasks[t], k.trackers;
    && !v.detached && v.tracker in f && f[v.tracker].parent in f
    && f[f[v.tracker].parent].waiting && f[f[v.tracker].parent].task == u
    && Matches(f[f[v.tracker].parent].waitTid, v.tid)
  }

  function WakeOf(k: Kernel, e: Event, u: int): Wake {
    if !e.Syscall? || !HartIndex(k.core, e.hart) || !Slot(k.core, k.core.harts[e.hart].current) then NoWake else
    var t := k.core.harts[e.hart].current;
    CallWake(k.(core := SetTask(k.core, t, Entered(k.core.tasks[t], e.frame))), t, u)
  }

  /** The context a woken task will resume with. */
  function Written(x: Context, w: Wake): Context {
    match w
    case NoWake => x
    case ByMessage(m) =>
      x.(x := x.x[10 := 0][11 := m.w0][12 := m.w1][13 := m.w2][14 := m.w3][15 := m.sender])
    case ByDestroy => x.(x := x.x[10 := Errno(43)])
    case ByChild(tid) => x.(x := x.x[10 := tid])
  }

  predicate Blocked(s: TaskState) { s == BlockedMessage || s == BlockedJoin }

  /** What may happen to a task that is not the one trapping. */
  ghost predicate Owed(v: Task, w: Task, wake: Wake) {
    && w.context == Written(v.context, wake) && w.idle == v.idle && w.tid == v.tid && w.tracker == v.tracker
    && w.deadline == v.deadline
    && match wake
       case NoWake => if Blocked(v.state) then w.state == v.state && w.stateInfo == v.stateInfo else !Blocked(w.state)
       case ByChild(_) => v.state == BlockedJoin && w.state == Ready
       case _ => v.state == BlockedMessage && w.state == Ready
  }

  /** Nobody but `t` is woken or has its registers written. */
  ghost predicate Calm(c: Core, d: Core, t: int) {
    SameShape(c, d) && forall u {:trigger d.tasks[u]} :: Slot(c, u) && u != t ==> Owed(c.tasks[u], d.tasks[u], NoWake)
  }

  /** The idle task of a hart is never blocked, so switching to it unblocks nobody. */
  predicate IdleAwake(c: Core, h: int)
    requires HartIndex(c, h)
  {
    Slot(c, c.harts[h].idle) ==> !Blocked(c.tasks[c.harts[h].idle].state)
  }

  lemma SwitchIsCalm(c: Core, h: int, now: nat, t: int)
    requires HartIndex(c, h) && IdleAwake(c, h) && SetNextRunnable(c, h, now).Run?
    ensures Calm(c, SetNextRunnable(c, h, now).value, t)
    ensures Slot(c, t) ==> SetNextRunnable(c, h, now).value.tasks[t].context == c.tasks[t].context
  {
  }

  lemma {:induction false} ReleaseIsCalm(c: Core, h: int, now: nat)
    requires HartIndex(c, h) && ReleaseDue(c, h, now).Run?
    requires Distinct(c.sleepers[h])
    requires forall t :: t in c.sleepers[h] && Slot(c, t) ==> c.tasks[t].state == BlockedSleep
    ensures Calm(c, ReleaseDue(c, h, now).value, NIL) && ReleaseDue(c, h, now).value.harts == c.harts
    decreases |c.sleepers[h]|
  {
    var q := c.sleepers[h];
    if q != [] && c.tasks[q[0]].deadline <= now {
      assert q[0] in q && q == [q[0]] + q[1..];
      var v := c.tasks[q[0]].(delayQueued := false, stateInfo := 0);
      ReleaseIsCalm(AddTask(SetTask(c, q[0], v).(sleepers := c.sleepers[h := q[1..]]), q[0]).value, h, now);
    }
  }

  /** The wake loop of destroy tells every waiter once. */
  lemma {:induction false} WakeAllTells(c: Core, waiters: seq<int>, u: int)
    requires Distinct(waiters) && WakeAll(c, waiters).Run? && Slot(c, u)
    requires u in waiters ==> c.tasks[u].state == BlockedMessage
    ensures Owed(c.tasks[u], WakeAll(c, waiters).value.tasks[u], if u in waiters then ByDestroy else NoWake)
    decreases waiters
  {
    if waiters != [] {
      var v := A0(Unlinked(c.tasks[waiters[0]]), Errno(43));
      var d := AddTask(SetTask(c, waiters[0], v), waiters[0]).value;
      assert waiters == [waiters[0]] + waiters[1..];
      if u == waiters[0] {
        Untouched(d, waiters[1..], u);
      } else {
        WakeAllTells(d, waiters[1..], u);
      }
    }
  }

  lemma {:induction false} Untouched(c: Core, waiters: seq<int>, u: int)
    requires WakeAll(c, waiters).Run? && Slot(c, u) && u !in waiters
    ensures WakeAll(c, waiters).value.tasks[u] == c.tasks[u]
    decreases waiters
  {
    if waiters != [] {
      var v := A0(Unlinked(c.tasks[waiters[0]]), Errno(43));
      Untouched(AddTask(SetTask(c, waiters[0], v), waiters[0]).value, waiters[1..], u);
    }
  }

  // ---------------------------------------------------------------------------------------------
  // System calls

  /** The facts about `u` that the calls use. */
  ghost predicate Bystander(k: Kernel, h: int, t: int, u: int) {
    && HartIndex(k.core, h) && Slot(k.core, t) && Slot(k.core, u) && u != t && k.core.harts[h].current == t
    && IdleAwake(k.core, h) && (t == k.core.harts[h].idle <==> k.core.tasks[t].idle)
    && (forall e :: 0 <= e < |k.endpoints| ==>
          && Distinct(k.endpoints[e].waiters)
          && (u in k.endpoints[e].waiters ==> k.core.tasks[u].state == BlockedMessage))
    && (forall r :: WaitsOn(k.trackers, r, u) ==> k.core.tasks[u].state == BlockedJoin)
    && |k.used| == |k.core.tasks| && k.used[u] && Rooted(k.trackers)
  }

  lemma BystanderFacts(k: Kernel, h: int, t: int, u: int)
    requires Inv(k) && Current(k, h, t) && Slot(k.core, u) && k.used[u] && u != t
    ensures Bystander(k, h, t, u)
  {
    CurrentIsRunning(k, h, t);
    assert HartPlaced(k, h, {}, NO_HART) && TaskPlaced(k, k.core.harts[h].idle, {}, NO_HART);
    assert forall e :: 0 <= e < |k.endpoints| ==> WaitersPlaced(k, e, {});
    assert forall r :: r in k.trackers ==> TrackerOk(k, r);
  }

  lemma YieldOwes(k: Kernel, h: int, t: int, env: Env, u: int)
    requires Bystander(k, h, t, u) && HandleYield(k, h, t, env).Run?
    ensures Owed(k.core.tasks[u], HandleYield(k, h, t, env).value.kernel.core.tasks[u], NoWake)
  {
    var c := SetTask(k.core, t, A0(k.core.tasks[t], 0));
    var d := ReturnRunnable(c, h).value;
    SwitchIsCalm(d, h, env.sliceNow, t);
  }

  lemma CreateOwes(k: Kernel, h: int, t: int, env: Env, u: int)
    requires Bystander(k, h, t, u) && HandleCreate(k, h, t, env).Run?
    ensures HandleCreate(k, h, t, env).value.kernel.core.tasks[u] == k.core.tasks[u]
  {
  }

  lemma ExitOwes(k: Kernel, h: int, t: int, rv: nat, status: ExitStatus, env: Env, u: int)
    requires Bystander(k, h, t, u) && !k.core.tasks[t].idle && HandleExit(k, h, t, rv, status, env).Run?
    ensures Owed(k.core.tasks[u], HandleExit(k, h, t, rv, status, env).value.kernel.core.tasks[u],
                 if AwaitedBy(k, t, u) then ByChild(k.core.tasks[t].tid) else NoWake)
  {
    var c := SetTask(k.core, t, k.core.tasks[t].(state := Ended));
    SwitchIsCalm(c, h, env.sliceNow, t);
    var d := SetNextRunnable(c, h, env.sliceNow).value;
    BuryOwes(k.(core := d), t, rv, status, u);
  }

  lemma BuryOwes(k: Kernel, t: int, returnValue: nat, status: ExitStatus, u: int)
    requires Bury(k, t, returnValue, status).Run? && Slot(k.core, u) && u != t && Slot(k.core, t)
    requires Rooted(k.trackers) && forall r :: WaitsOn(k.trackers, r, u) ==> k.core.tasks[u].state == BlockedJoin
    ensures Owed(k.core.tasks[u], Bury(k, t, returnValue, status).value.core.tasks[u],
                 if AwaitedBy(k, t, u) then ByChild(k.core.tasks[t].tid) else NoWake)
  {
    hide RemoveTracker;
    var q := k.core.tasks[t].tracker;
    var p := k.trackers[q].parent;
    assert p != q;
    assert AwaitedBy(k, t, u) ==> WaitsOn(k.trackers, p, u);
  }

  lemma WaitOwes(k: Kernel, h: int, t: int, env: Env, u: int)
    requires Bystander(k, h, t, u) && !k.core.tasks[t].idle && HandleWait(k, h, t, env).Run?
    ensures Owed(k.core.tasks[u], HandleWait(k, h, t, env).value.kernel.core.tasks[u], NoWake)
  {
    hide SetNextRunnable, RemoveTracker;
    var v, tid := k.core.tasks[t], Signed(k.core.tasks[t].context.x[10]);
    var info := if tid < 0 then TWO64 + tid else tid;
    if info >= 0 {
      var c := SetTask(k.core, t, v.(state := BlockedJoin, stateInfo := info));
      if SetNextRunnable(c, h, env.sliceNow).Run? {
        SwitchIsCalm(c, h, env.sliceNow, t);
      }
    }
  }

  lemma SleepOwes(k: Kernel, h: int, t: int, env: Env, u: int)
    requires Bystander(k, h, t, u) && !k.core.tasks[t].idle && HandleSleep(k, h, t, env).Run?
    ensures Owed(k.core.tasks[u], HandleSleep(k, h, t, env).value.kernel.core.tasks[u], NoWake)
  {
    hide DurationToTicks, SetNextRunnable, InsertSleeper;
    var v := k.core.tasks[t];
    var ticks := DurationToTicks(v.context.x[10], v.context.x[11]);
    if HartIndex(k.core, v.cpu) {
      var c := DelayUntil(SetTask(k.core, t, A0(v, 0)), t, env.now + ticks);
      if SetNextRunnable(c, h, env.sliceNow).Run? {
        SwitchIsCalm(c, h, env.sliceNow, t);
      }
    }
  }

  lemma DestroyOwes(k: Kernel, h: int, t: int, u: int)
    requires Bystander(k, h, t, u) && HandleEndpointDestroy(k, t).Run?
    requires k.core.tasks[t].context.x[17] == 7
    ensures Owed(k.core.tasks[u], HandleEndpointDestroy(k, t).value.kernel.core.tasks[u], CallWake(k, t, u))
  {
    var v := k.core.tasks[t];
    var i := Lookup(k.limits, k.endpoints, v.context.x[10]);
    if i != NIL && k.endpoints[i].claimed && k.endpoints[i].owner == v.tid {
      WakeAllTells(k.core, k.endpoints[i].waiters, u);
    }
  }

  lemma SendOwes(k: Kernel, h: int, t: int, u: int)
    requires Bystander(k, h, t, u) && HandleSend(k, t).Run?
    requires k.core.tasks[t].context.x[17] == 8
    ensures Owed(k.core.tasks[u], HandleSend(k, t).value.kernel.core.tasks[u], CallWake(k, t, u))
  {
    var i := Lookup(k.limits, k.endpoints, k.core.tasks[t].context.x[10]);
    if i != NIL && k.endpoints[i].waiters != [] {
      assert k.endpoints[i].waiters[0] in k.endpoints[i].waiters;
    }
  }

  lemma ReceiveOwes(k: Kernel, h: int, t: int, env: Env, u: int)
    requires Bystander(k, h, t, u) && !k.core.tasks[t].idle && HandleReceive(k, h, t, env).Run?
    ensures Owed(k.core.tasks[u], HandleReceive(k, h, t, env).value.kernel.core.tasks[u], NoWake)
  {
    var v := k.core.tasks[t];
    var c := SetTask(k.core, t, v.(messageQueued := true, state := BlockedMessage, stateInfo := v.context.x[10]));
    if SetNextRunnable(c, h, env.sliceNow).Run? {
      SwitchIsCalm(c, h, env.sliceNow, t);
    }
  }

  lemma CallOwes(k: Kernel, h: int, t: int, env: Env, u: int)
    requires Bystander(k, h, t, u) && Dispatch(k, h, t, env).Run?
    requires k.core.tasks[t].idle ==> k.core.tasks[t].context.x[17] == 0
    ensures Owed(k.core.tasks[u], Dispatch(k, h, t, env).value.kernel.core.tasks[u], CallWake(k, t, u))
  {
    var x := k.core.tasks[t].context.x;
    match x[17]
    case 0 => YieldOwes(k, h, t, env, u);
    case 1 => CreateOwes(k, h, t, env, u);
    case 2 => ExitOwes(k, h, t, x[10], ExitedClean, env, u);
    case 3 => WaitOwes(k, h, t, env, u);
    case 5 => SleepOwes(k, h, t, env, u);
    case 7 => DestroyOwes(k, h, t, u);
    case 8 => SendOwes(k, h, t, u);
    case 10 => ReceiveOwes(k, h, t, env, u);
    case _ =>
      if x[17] > 12 {
        ExitOwes(k, h, t, 0, Crashed, env, u);
      }
  }

  // ---------------------------------------------------------------------------------------------
  // Steps and runs

  /** Of a task that is not the one trapping, a step writes the registers owed by a wake, and nothing else. */
  lemma StepOwes(k: Kernel, e: Event, u: int)
    requires Inv(k) && Legal(k, e) && Machine.Next(k, e).Run? && Slot(k.core, u) && k.used[u]
    requires k.core.harts[e.hart].current != u
    ensures SameShape(k.core, Machine.Next(k, e).value.core)
    ensures Owed(k.core.tasks[u], Machine.Next(k, e).value.core.tasks[u], WakeOf(k, e, u))
  {
    match e
    case Start(h, env) =>
      StartFacts(k, h);
      SwitchIsCalm(k.core, h, env.sliceNow, NIL);
    case Timer(h, frame, env) =>
      TimerOwes(k, h, frame, env, u);
    case Syscall(h, frame, env) =>
      SyscallOwes(k, h, frame, env, u);
  }

  lemma StartFacts(k: Kernel, h: int)
    requires Inv(k) && HartIndex(k.core, h)
    ensures IdleAwake(k.core, h) && Slot(k.core, k.core.harts[h].idle) && Distinct(k.core.sleepers[h])
    ensures Slot(k.core, k.core.harts[h].current) ==> !Blocked(k.core.tasks[k.core.harts[h].current].state)
    ensures forall t :: t in k.core.sleepers[h] ==> Slot(k.core, t) && k.core.tasks[t].state == BlockedSleep
  {
    assert HartPlaced(k, h, {}, NO_HART) && TaskPlaced(k, k.core.harts[h].idle, {}, NO_HART);
    assert SleepersPlaced(k, h, {});
  }

  lemma OwedTwice(v: Task, w: Task, x: Task)
    requires Owed(v, w, NoWake) && Owed(w, x, NoWake)
    ensures Owed(v, x, NoWake)
  {
  }

  lemma StaysAwake(v: Task, w: Task)
    requires Owed(v, w, NoWake)
    ensures Blocked(v.state) <==> Blocked(w.state)
  {
  }

  lemma RescheduleIsCalm(c: Core, h: int, now: nat)
    requires HartIndex(c, h) && IdleAwake(c, h) && ReturnRunnable(c, h).Run?
    requires Slot(c, c.harts[h].current) ==> !Blocked(c.tasks[c.harts[h].current].state)
    requires SetNextRunnable(ReturnRunnable(c, h).value, h, now).Run?
    ensures Calm(c, SetNextRunnable(ReturnRunnable(c, h).value, h, now).value, NIL)
  {
    SwitchIsCalm(ReturnRunnable(c, h).value, h, now, NIL);
  }

  lemma TimerOwes(k: Kernel, h: int, frame: Frame, env: Env, u: int)
    requires Inv(k) && HartIndex(k.core, h) && Slot(k.core, k.core.harts[h].current)
    requires TimerStep(k, h, frame, env).Run? && Slot(k.core, u) && k.core.harts[h].current != u
    ensures SameShape(k.core, TimerStep(k, h, frame, env).value.core)
    ensures Owed(k.core.tasks[u], TimerStep(k, h, frame, env).value.core.tasks[u], NoWake)
  {
    hide Inv, ReleaseDue, SetNextRunnable, Owed;
    StartFacts(k, h);
    var t := k.core.harts[h].current;
    var c := SetTask(k.core, t, Save(k.core.tasks[t], frame));
    ReleaseIsCalm(c, h, env.now);
    var c1 := ReleaseDue(c, h, env.now).value;
    StaysAwake(c.tasks[t], c1.tasks[t]);
    StaysAwake(c.tasks[c.harts[h].idle], c1.tasks[c.harts[h].idle]);
    RescheduleIsCalm(c1, h, env.sliceNow);
    var d := SetNextRunnable(ReturnRunnable(c1, h).value, h, env.sliceNow).value;
    OwedTwice(c.tasks[u], c1.tasks[u], d.tasks[u]);
  }

  lemma SyscallOwes(k: Kernel, h: int, frame: Frame, env: Env, u: int)
    requires Inv(k) && Legal(k, Syscall(h, frame, env)) && SyscallStep(k, h, frame, env).Run?
    requires Slot(k.core, u) && k.used[u] && k.core.harts[h].current != u
    ensures SameShape(k.core, SyscallStep(k, h, frame, env).value.core)
    ensures Owed(k.core.tasks[u], SyscallStep(k, h, frame, env).value.core.tasks[u],
                 WakeOf(k, Syscall(h, frame, env), u))
  {
    hide Inv, Dispatch, CallWake, Bystander;
    var l := EnterStep(k, h, frame);
    var t := k.core.harts[h].current;
    BystanderFacts(l, h, t, u);
    CallOwes(l, h, t, env, u);
  }

  ghost predicate OffHart(k: Kernel, u: int) {
    forall h :: HartIndex(k.core, h) ==> k.core.harts[h].current != u
  }

  ghost predicate Live(k: Kernel, u: int) {
    Slot(k.core, u) && u < |k.used| && k.used[u]
  }

  lemma StaysLive(k: Kernel, l: Kernel, u: int, wake: Wake)
    requires Inv(k) && Inv(l) && Live(k, u) && Slot(l.core, u) && Owed(k.core.tasks[u], l.core.tasks[u], wake)
    ensures Live(l, u)
  {
    assert OwnsTracker(k, u);
  }

  /** At most one wake in `es[m..n]`, the one at `i` unless that is `NIL`, and what it leaves behind. */
  ghost predicate Carried(ks: seq<Kernel>, es: seq<Event>, m: nat, n: nat, u: int, i: int)
    requires m <= n < |ks| == |es| + 1
  {
    && Live(ks[m], u) && Live(ks[n], u)
    && (i == NIL || m <= i < n)
    && (forall j :: m <= j < n ==> (WakeOf(ks[j], es[j], u) != NoWake <==> j == i))
    && var v, w := ks[m].core.tasks[u], ks[n].core.tasks[u];
       if i == NIL then
         && w.context == v.context && Blocked(v.state) == Blocked(w.state)
         && (Blocked(v.state) ==> w.state == v.state && w.stateInfo == v.stateInfo)
       else
         && Blocked(v.state) && !Blocked(w.state) && w.context == Written(v.context, WakeOf(ks[i], es[i], u))
         && (v.state == BlockedJoin <==> WakeOf(ks[i], es[i], u).ByChild?)
  }

  lemma CarryOn(ks: seq<Kernel>, es: seq<Event>, m: nat, n: nat, u: int, i: int) returns (i': int)
    requires m <= n < |es| && |ks| == |es| + 1 && Carried(ks, es, m, n, u, i) && Live(ks[n + 1], u)
    requires Owed(ks[n].core.tasks[u], ks[n + 1].core.tasks[u], WakeOf(ks[n], es[n], u))
    ensures Carried(ks, es, m, n + 1, u, i')
  {
    hide WakeOf;
    i' := if WakeOf(ks[n], es[n], u) == NoWake then i else n;
  }

  lemma CarryStep(ks: seq<Kernel>, es: seq<Event>, m: nat, n: nat, u: int, i: int) returns (i': int)
    requires Runs.IsRun(ks, es) && m <= n < |es| && Carried(ks, es, m, n, u, i) && OffHart(ks[n], u)
    ensures Carried(ks, es, m, n + 1, u, i')
  {
    hide Runs.IsRun, Inv, Machine.Next, WakeOf, Legal, Owed, Carried;
    RunStep(ks, es, n);
    assert Live(ks[n], u) by {
      CarriedLive(ks, es, m, n, u, i);
    }
    StepOwes(ks[n], es[n], u);
    StaysLive(ks[n], ks[n + 1], u, WakeOf(ks[n], es[n], u));
    i' := CarryOn(ks, es, m, n, u, i);
  }

  lemma CarriedLive(ks: seq<Kernel>, es: seq<Event>, m: nat, n: nat, u: int, i: int)
    requires m <= n < |ks| == |es| + 1 && Carried(ks, es, m, n, u, i)
    ensures Live(ks[n], u)
  {
  }

  /** Between leaving a hart and the next dispatch, a task's saved registers are written at most once. */
  lemma {:induction false} WokenAtMostOnce(ks: seq<Kernel>, es: seq<Event>, m: nat, n: nat, u: int) returns (i: int)
    requires Runs.IsRun(ks, es) && m <= n <= |es| && Live(ks[m], u)
    requires forall j :: m <= j < n ==> OffHart(ks[j], u)
    ensures Carried(ks, es, m, n, u, i)
    decreases n
  {
    if m == n {
      i := NIL;
    } else {
      hide Booted, Machine.Next, Legal, Carried;
      i := WokenAtMostOnce(ks, es, m, n - 1, u);
      i := CarryStep(ks, es, m, n - 1, u, i);
    }
  }

  /** A preempted task resumes with exactly the registers it was interrupted with. */
  lemma PreemptedTaskResumesExactly(ks: seq<Kernel>, es: seq<Event>, m: nat, n: nat, u: int)
    requires Runs.IsRun(ks, es) && m < n <= |es| && es[m].Timer? && HartIndex(ks[m].core, es[m].hart)
    requires ks[m].core.harts[es[m].hart].current == u && Live(ks[m], u)
    requires forall j :: m < j < n ==> OffHart(ks[j], u)
    ensures Live(ks[n], u)
    ensures ks[n].core.tasks[u].context ==
            Context(es[m].frame.x[0 := 0], es[m].frame.mstatus, es[m].frame.mepc, ks[m].core.tasks[u].context.satp)
  {
    hide Runs.IsRun, Inv;
    RunStep(ks, es, m);
    TimerSaves(ks[m], es[m], ks[m + 1]);
    var i := WokenAtMostOnce(ks, es, m + 1, n, u);
  }

  lemma TimerSaves(k: Kernel, e: Event, l: Kernel)
    requires Inv(k) && Inv(l) && Legal(k, e) && e.Timer? && Machine.Next(k, e) == Run(l)
    requires Live(k, k.core.harts[e.hart].current)
    ensures var u := k.core.harts[e.hart].current;
            && Live(l, u) && l.core.tasks[u].context == Save(k.core.tasks[u], e.frame).context
            && !Blocked(l.core.tasks[u].state)
  {
    hide Inv, ReleaseDue, SetNextRunnable;
    var h, u := e.hart, k.core.harts[e.hart].current;
    StartFacts(k, h);
    var m := k.(core := SetTask(k.core, u, Save(k.core.tasks[u], e.frame)));
    TouchStep(k, u, m.core.tasks[u]);
    ReleaseIsCalm(m.core, h, e.env.now);
    var c := ReleaseDue(m.core, h, e.env.now).value;
    assert !Blocked(c.tasks[u].state) && IdleAwake(c, h);
    RescheduleIsCalm(c, h, e.env.sliceNow);
    var d := SetNextRunnable(ReturnRunnable(c, h).value, h, e.env.sliceNow).value;
    OwedTwice(m.core.tasks[u], c.tasks[u], d.tasks[u]);
    StaysLive(m, l, u, NoWake);
  }

  /** A receiver that blocks keeps the registers it trapped with and waits at the endpoint of its label. */
  lemma BlockSaves(k: Kernel, e: Event, l: Kernel, slot: nat, u: int)
    requires Inv(k) && Inv(l) && Legal(k, e) && Machine.Next(k, e) == Run(l) && LabelOf(k, e) == [Block(slot, u)]
    ensures e.Syscall? && k.core.harts[e.hart].current == u && Slot(k.core, u) && Live(l, u) && OffHart(l, u)
    ensures l.core.tasks[u].context == Entered(k.core.tasks[u], e.frame).context
    ensures l.core.tasks[u].state == BlockedMessage && EndpointOf(l.core.tasks[u]) == slot
  {
    hide Inv, Machine.Next;
    StepRefines(k, e);
    WaitersAreBlocked(l, slot, u);
    ReceiveSaves(k, e, l, u);
  }

  lemma WaitersAreBlocked(k: Kernel, slot: nat, u: int)
    requires Inv(k) && slot < |k.endpoints| && u in k.endpoints[slot].waiters
    ensures Live(k, u) && k.core.tasks[u].state == BlockedMessage && EndpointOf(k.core.tasks[u]) == slot
    ensures OffHart(k, u)
  {
    assert WaitersPlaced(k, slot, {});
    assert forall h :: HartIndex(k.core, h) ==> HartPlaced(k, h, {}, NO_HART);
  }

  lemma ReceiveSaves(k: Kernel, e: Event, l: Kernel, u: int)
    requires Legal(k, e) && Machine.Next(k, e) == Run(l) && e.Syscall? && e.frame.x[17] == 10
    requires k.core.harts[e.hart].current == u && LabelOf(k, e) != [] && LabelOf(k, e)[0].Block?
    ensures Slot(l.core, u) && l.core.tasks[u].context == Entered(k.core.tasks[u], e.frame).context
  {
    var m := k.(core := SetTask(k.core, u, Entered(k.core.tasks[u], e.frame)));
    var v := m.core.tasks[u];
    assert v.context.x[17] == 10;
    hide Legal, SetNextRunnable;
    var c := SetTask(m.core, u, v.(messageQueued := true, state := BlockedMessage, stateInfo := v.context.x[10]));
    SwitchKeepsContexts(c, e.hart, e.env.sliceNow);
  }

  lemma SwitchKeepsContexts(c: Core, h: int, now: nat)
    requires HartIndex(c, h) && SetNextRunnable(c, h, now).Run?
    ensures forall u :: Slot(c, u) ==> SetNextRunnable(c, h, now).value.tasks[u].context == c.tasks[u].context
  {
  }

  lemma OnHartIsAwake(k: Kernel, u: int)
    requires Inv(k) && Live(k, u) && !OffHart(k, u)
    ensures !Blocked(k.core.tasks[u].state)
  {
    var h :| HartIndex(k.core, h) && k.core.harts[h].current == u;
    assert HartPlaced(k, h, {}, NO_HART) && TaskPlaced(k, u, {}, NO_HART);
  }

  lemma WakeFromLabel(k: Kernel, e: Event, u: int)
    requires WakeOf(k, e, u).ByMessage? || WakeOf(k, e, u).ByDestroy?
    ensures |LabelOf(k, e)| == 1
    ensures var l := LabelOf(k, e)[0];
            && l.slot < |k.endpoints| && u in k.endpoints[l.slot].waiters
            && match WakeOf(k, e, u)
               case ByMessage(m) => l == SendWake(l.slot, m, u)
               case _ => l == Destroy(l.slot)
  {
  }

  /** A wake of a message waiter comes from its own endpoint. */
  lemma WakeIsAtEndpoint(k: Kernel, e: Event, u: int)
    requires Inv(k) && Live(k, u) && (WakeOf(k, e, u).ByMessage? || WakeOf(k, e, u).ByDestroy?)
    ensures var slot := EndpointOf(k.core.tasks[u]);
            match WakeOf(k, e, u)
            case ByMessage(m) => LabelOf(k, e) == [SendWake(slot, m, u)]
            case _ => LabelOf(k, e) == [Destroy(slot)]
  {
    hide Inv, WakeOf, LabelOf;
    WakeFromLabel(k, e, u);
    WaitersAreBlocked(k, LabelOf(k, e)[0].slot, u);
  }

  /**
   * A receiver that blocked is next dispatched after exactly one wake: with a message sent to the same
   * endpoint in a1..a5 and a0 = 0, or with a0 = -43 because that endpoint was destroyed.
   */
  lemma BlockedReceiverResumesOnce(ks: seq<Kernel>, es: seq<Event>, m: nat, n: nat, slot: nat, u: int) returns (i: nat)
    requires Runs.IsRun(ks, es) && m < n <= |es| && LabelOf(ks[m], es[m]) == [Block(slot, u)]
    requires (forall j :: m < j < n ==> OffHart(ks[j], u)) && !OffHart(ks[n], u)
    ensures m < i < n && (forall j :: m < j < n ==> (WakeOf(ks[j], es[j], u) != NoWake <==> j == i))
    ensures es[m].Syscall? && Slot(ks[m].core, u) && Live(ks[n], u)
    ensures var x, y := Entered(ks[m].core.tasks[u], es[m].frame).context, ks[n].core.tasks[u].context;
            || (exists w :: LabelOf(ks[i], es[i]) == [SendWake(slot, w, u)] && y == Written(x, ByMessage(w)))
            || (LabelOf(ks[i], es[i]) == [Destroy(slot)] && y == Written(x, ByDestroy))
  {
    hide Runs.IsRun, Inv, Machine.Next, WakeOf, Legal;
    RunStep(ks, es, m);
    BlockSaves(ks[m], es[m], ks[m + 1], slot, u);
    var c := WokenAtMostOnce(ks, es, m + 1, n, u);
    RunsKeepInv(ks, es, n);
    OnHartIsAwake(ks[n], u);
    i := c;
    var d := WokenAtMostOnce(ks, es, m + 1, i, u);
    RunStep(ks, es, i);
    WakeIsAtEndpoint(ks[i], es[i], u);
  }
}
