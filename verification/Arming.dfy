/** Which traps move a hart on, and for when they program its timer. */
module Arming {
  import opened Base
  import opened IpcModel
  import opened Machine
  import opened Placement
  import opened IpcRefinement
  import opened Runs
  import opened SystemCalls
  import opened Clock

  /** The trap goes on to the next runnable task: it yields, blocks, sleeps, ends or was no call at all. */
  ghost predicate Moves(k: Kernel, e: Event) {
    || !Returns(k, e) || e.frame.x[17] == 0 || AnswerOf(k, e) == Pending
    || (e.frame.x[17] == 5 && AnswerOf(k, e) == Value(0))
  }

  /** A hart that was just switched has a full slice, or runs its idle task. */
  predicate Sliced(h: Hart) { h.current != NIL && (h.current == h.idle || h.slice == TASK_SLICE) }

  predicate OthersStay(c: Core, d: Core, h: int) {
    |d.harts| == |c.harts| && forall g :: 0 <= g < |c.harts| && g != h ==> d.harts[g] == c.harts[g]
  }

  /** Only the trapping hart changes, and only if it is switched. */
  ghost predicate Switched(c: Core, d: Core, h: int, moved: bool)
    requires HartIndex(c, h)
  {
    OthersStay(c, d, h) && if moved then Sliced(d.harts[h]) else d.harts == c.harts
  }

  lemma NextSlices(c: Core, h: int, now: nat)
    requires HartIndex(c, h) && SetNextRunnable(c, h, now).Run?
    ensures Switched(c, SetNextRunnable(c, h, now).value, h, true)
  {
  }

  lemma BuryKeepsHarts(k: Kernel, t: int, returnValue: nat, status: ExitStatus)
    requires Bury(k, t, returnValue, status).Run?
    ensures Bury(k, t, returnValue, status).value.core.harts == k.core.harts
  {
    hide RemoveTracker;
  }

  lemma ExitSlices(k: Kernel, h: int, t: int, rv: nat, status: ExitStatus, env: Env)
    requires HartIndex(k.core, h) && Slot(k.core, t) && HandleExit(k, h, t, rv, status, env).Run?
    ensures var r := HandleExit(k, h, t, rv, status, env).value;
            r.rescheduled && Switched(k.core, r.kernel.core, h, true)
  {
    hide Bury, SetNextRunnable;
    var c := SetTask(k.core, t, k.core.tasks[t].(state := Ended));
    NextSlices(c, h, env.sliceNow);
    BuryKeepsHarts(k.(core := SetNextRunnable(c, h, env.sliceNow).value), t, rv, status);
  }

  lemma WaitSlices(k: Kernel, h: int, t: int, env: Env)
    requires HartIndex(k.core, h) && Slot(k.core, t) && HandleWait(k, h, t, env).Run?
    requires k.core.tasks[t].context.x[17] == 3 && NIL !in k.trackers
    ensures var r := HandleWait(k, h, t, env).value;
            && Switched(k.core, r.kernel.core, h, r.rescheduled)
            && (r.rescheduled <==> AnswerTo(k, k.core.tasks[t].tid, k.core.tasks[t].context.x, env) == Pending)
  {
    hide RemoveTracker, SetNextRunnable;
    var v, tid := k.core.tasks[t], Signed(k.core.tasks[t].context.x[10]);
    var info := if tid < 0 then TWO64 + tid else tid;
    if info >= 0 {
      var c := SetTask(k.core, t, v.(state := BlockedJoin, stateInfo := info));
      if SetNextRunnable(c, h, env.sliceNow).Run? {
        NextSlices(c, h, env.sliceNow);
      }
    }
  }

  lemma SleepSlices(k: Kernel, h: int, t: int, env: Env)
    requires Inv(k) && Current(k, h, t) && !k.core.tasks[t].idle && HandleSleep(k, h, t, env).Run?
    requires k.core.tasks[t].context.x[17] == 5
    ensures var r := HandleSleep(k, h, t, env).value;
            && Switched(k.core, r.kernel.core, h, r.rescheduled)
            && (r.rescheduled <==> AnswerTo(k, k.core.tasks[t].tid, k.core.tasks[t].context.x, env) == Value(0))
  {
    hide Inv, DurationToTicks, InsertSleeper, SetNextRunnable;
    CallerIsAlone(k, h, t);
    var v := k.core.tasks[t];
    var ticks := DurationToTicks(v.context.x[10], v.context.x[11]);
    var c := DelayUntil(SetTask(k.core, t, A0(v, 0)), t, env.now + ticks);
    if SetNextRunnable(c, h, env.sliceNow).Run? {
      NextSlices(c, h, env.sliceNow);
    }
  }

  lemma ReceiveSlices(k: Kernel, h: int, t: int, env: Env)
    requires Inv(k) && HartIndex(k.core, h) && Slot(k.core, t) && HandleReceive(k, h, t, env).Run?
    requires k.core.tasks[t].context.x[17] == 10
    ensures var r := HandleReceive(k, h, t, env).value;
            && Switched(k.core, r.kernel.core, h, r.rescheduled)
            && (r.rescheduled <==> AnswerTo(k, k.core.tasks[t].tid, k.core.tasks[t].context.x, env) == Pending)
  {
    hide Inv, Lookup, SetNextRunnable;
    var v, raw := k.core.tasks[t], k.core.tasks[t].context.x[10];
    LookupNames(k, raw);
    var c := SetTask(k.core, t, v.(messageQueued := true, state := BlockedMessage, stateInfo := raw));
    if SetNextRunnable(c, h, env.sliceNow).Run? {
      NextSlices(c, h, env.sliceNow);
    }
  }

  lemma YieldSlices(k: Kernel, h: int, t: int, env: Env)
    requires HartIndex(k.core, h) && Slot(k.core, t) && HandleYield(k, h, t, env).Run?
    ensures var r := HandleYield(k, h, t, env).value; r.rescheduled && Switched(k.core, r.kernel.core, h, true)
  {
    hide SetNextRunnable;
    NextSlices(ReturnRunnable(SetTask(k.core, t, A0(k.core.tasks[t], 0)), h).value, h, env.sliceNow);
  }

  /** The calls that always return at once. */
  lemma QuickSlices(k: Kernel, h: int, t: int, env: Env)
    requires HartIndex(k.core, h) && Slot(k.core, t) && Dispatch(k, h, t, env).Run?
    requires k.core.tasks[t].context.x[17] in {1, 4, 6, 7, 8, 9, 11, 12}
    ensures var r := Dispatch(k, h, t, env).value; !r.rescheduled && r.kernel.core.harts == k.core.harts
    ensures AnswerTo(k, k.core.tasks[t].tid, k.core.tasks[t].context.x, env) != Pending
  {
    hide FreeSlot, FreeIndex, FreeTracker, SpawnContext, Lookup, Names, HasRoom;
  }

  lemma CallSlices(k: Kernel, h: int, t: int, env: Env)
    requires Inv(k) && Current(k, h, t) && Dispatch(k, h, t, env).Run?
    requires k.core.tasks[t].idle ==> k.core.tasks[t].context.x[17] == 0
    ensures var r, x := Dispatch(k, h, t, env).value, k.core.tasks[t].context.x;
            var a := AnswerTo(k, k.core.tasks[t].tid, x, env);
            && Switched(k.core, r.kernel.core, h, r.rescheduled)
            && (r.rescheduled <==>
                  x[17] in {0, 2} || x[17] > 12 || a == Pending || (x[17] == 5 && a == Value(0)))
  {
    hide Inv, HandleYield, HandleExit, HandleWait, HandleSleep, HandleReceive, AnswerTo, Switched;
    NoTrackerIsNil(k);
    var x := k.core.tasks[t].context.x;
    match x[17]
    case 0 => YieldSlices(k, h, t, env);
    case 2 => ExitSlices(k, h, t, x[10], ExitedClean, env);
    case 3 => WaitSlices(k, h, t, env);
    case 5 => SleepSlices(k, h, t, env); NeverPending(k, t, env);
    case 10 => ReceiveSlices(k, h, t, env);
    case _ =>
      if x[17] > 12 {
        ExitSlices(k, h, t, 0, Crashed, env);
      } else {
        QuickSlices(k, h, t, env);
        QuickIsStill(k.core, Dispatch(k, h, t, env).value.kernel.core, h);
      }
  }

  lemma NeverPending(k: Kernel, t: int, env: Env)
    requires Slot(k.core, t) && k.core.tasks[t].context.x[17] == 5
    ensures AnswerTo(k, k.core.tasks[t].tid, k.core.tasks[t].context.x, env) != Pending
  {
  }

  lemma QuickIsStill(c: Core, d: Core, h: int)
    requires HartIndex(c, h) && d.harts == c.harts
    ensures Switched(c, d, h, false)
  {
  }

  // ---------------------------------------------------------------------------------------------
  // Steps

  /** The deadline of a full slice, saturating. */
  function SliceEnd(now: nat): nat { if now + 100000 > U64_MAX then U64_MAX else now + 100000 }

  /** The hart's timer fits its current task: a full slice for a user task, the next wake for the idle task. */
  ghost predicate ArmedFor(c: Core, h: int, now: nat)
    requires HartIndex(c, h)
  {
    var armed, q := c.harts[h].armed, c.sleepers[h];
    && Slot(c, c.harts[h].current)
    && if !c.tasks[c.harts[h].current].idle then armed == SliceEnd(now)
       else
         && now <= armed <= U64_MAX && armed <= now + IDLE_SLICE
         && (forall i :: 0 <= i < |q| ==> armed <= NextTick(Due(c.tasks, q[i]), now))
         && (armed == U64_MAX || armed == now + IDLE_SLICE ||
             exists i :: 0 <= i < |q| && armed == NextTick(Due(c.tasks, q[i]), now))
  }

  /** What the invariant says about a hart and its sleepers. */
  lemma HartFacts(k: Kernel, h: int)
    requires Inv(k) && HartIndex(k.core, h) && k.core.harts[h].current != NIL
    ensures Slot(k.core, k.core.harts[h].current)
    ensures k.core.tasks[k.core.harts[h].current].idle <==> k.core.harts[h].current == k.core.harts[h].idle
    ensures Sorted(k.core.tasks, k.core.sleepers[h])
    ensures forall i :: 0 <= i < |k.core.sleepers[h]| ==> Slot(k.core, k.core.sleepers[h][i])
  {
    CurrentIsRunning(k, h, k.core.harts[h].current);
    assert HartPlaced(k, h, {}, NO_HART) && SleepersPlaced(k, h, {});
    var q := k.core.sleepers[h];
    forall i | 0 <= i < |q| ensures Slot(k.core, q[i]) {
      assert q[i] in q;
    }
  }

  lemma ArmFits(c: Core, h: int, now: nat, l: Kernel)
    requires HartIndex(c, h) && Sliced(c.harts[h]) && Arm(c, h, now) == Run(l.core) && Inv(l) && now <= U64_MAX
    ensures HartIndex(l.core, h) && ArmedFor(l.core, h, now) && OthersStay(c, l.core, h)
  {
    hide Inv, Due;
    HartFacts(l, h);
    if l.core.tasks[l.core.harts[h].current].idle {
      IdleArmsForNextWake(c, h, now);
    }
  }

  lemma TimerArms(k: Kernel, h: int, frame: Frame, env: Env, l: Kernel)
    requires HartIndex(k.core, h) && Slot(k.core, k.core.harts[h].current) && TimerStep(k, h, frame, env) == Run(l)
    requires Inv(l) && env.armNow <= U64_MAX
    ensures HartIndex(l.core, h) && ArmedFor(l.core, h, env.armNow) && OthersStay(k.core, l.core, h)
  {
    hide Inv, ReleaseDue, SetNextRunnable, Arm, ArmedFor, Sliced;
    var t := k.core.harts[h].current;
    var c := SetTask(k.core, t, Save(k.core.tasks[t], frame));
    ReleaseKeepsHarts(c, h, env.now);
    var c2 := ReturnRunnable(ReleaseDue(c, h, env.now).value, h).value;
    NextSlices(c2, h, env.sliceNow);
    ArmFits(SetNextRunnable(c2, h, env.sliceNow).value, h, env.armNow, l);
  }

  lemma {:induction false} ReleaseKeepsHarts(c: Core, h: int, now: nat)
    requires HartIndex(c, h) && ReleaseDue(c, h, now).Run?
    ensures ReleaseDue(c, h, now).value.harts == c.harts
    decreases |c.sleepers[h]|
  {
    var q := c.sleepers[h];
    if q != [] && c.tasks[q[0]].deadline <= now {
      var v := c.tasks[q[0]].(delayQueued := false, stateInfo := 0);
      ReleaseKeepsHarts(AddTask(SetTask(c, q[0], v).(sleepers := c.sleepers[h := q[1..]]), q[0]).value, h, now);
    }
  }

  lemma SyscallArms(k: Kernel, e: Event, l: Kernel)
    requires Inv(k) && Legal(k, e) && e.Syscall? && Machine.Next(k, e) == Run(l) && Inv(l) && e.env.armNow <= U64_MAX
    ensures HartIndex(l.core, e.hart) && OthersStay(k.core, l.core, e.hart)
    ensures if Moves(k, e) then ArmedFor(l.core, e.hart, e.env.armNow) else l.core.harts == k.core.harts
  {
    hide Inv, Dispatch, Arm, ArmedFor, Sliced, AnswerTo, Entered, Offered, Stops;
    var m := EnterStep(k, e.hart, e.frame);
    var t := CallerOf(k, e);
    EnteredRegisters(k.core.tasks[t], e.frame);
    IdleOnlyYields(k, e);
    CallSlices(m, e.hart, t, e.env);
    SameAnswer(k, m, k.core.tasks[t].tid, e.frame.x, m.core.tasks[t].context.x, e.env);
    var r := Dispatch(m, e.hart, t, e.env).value;
    if r.rescheduled {
      ArmFits(r.kernel.core, e.hart, e.env.armNow, l);
    }
  }

  lemma IdleOnlyYields(k: Kernel, e: Event)
    requires Legal(k, e) && e.Syscall?
    ensures Slot(k.core, CallerOf(k, e)) && (k.core.tasks[CallerOf(k, e)].idle ==> e.frame.x[17] == 0)
  {
  }

  /**
   * A trap that moves the hart on arms its timer: a full slice for a user task, the next wake or the idle slice for the
   * idle task. Any other trap leaves every hart, its task and its timer alone, and no trap touches another hart.
   */
  lemma StepArms(k: Kernel, e: Event, l: Kernel)
    requires Inv(k) && Legal(k, e) && Machine.Next(k, e) == Run(l) && e.env.armNow <= U64_MAX
    ensures HartIndex(l.core, e.hart) && OthersStay(k.core, l.core, e.hart)
    ensures if Moves(k, e) then ArmedFor(l.core, e.hart, e.env.armNow) else l.core.harts == k.core.harts
  {
    hide Inv, Legal, ArmedFor;
    StepKeeps(k, e);
    match e
    case Start(h, env) =>
      StartArms(k, h, env, l);
    case Timer(h, frame, env) =>
      TimerArms(k, h, frame, env, l);
    case Syscall(_, _, _) =>
      SyscallArms(k, e, l);
  }

  lemma StartArms(k: Kernel, h: int, env: Env, l: Kernel)
    requires HartIndex(k.core, h) && StartStep(k, h, env) == Run(l) && Inv(l) && env.armNow <= U64_MAX
    ensures HartIndex(l.core, h) && ArmedFor(l.core, h, env.armNow) && OthersStay(k.core, l.core, h)
  {
    hide Inv, SetNextRunnable, Arm, ArmedFor, Sliced;
    NextSlices(k.core, h, env.sliceNow);
    ArmFits(SetNextRunnable(k.core, h, env.sliceNow).value, h, env.armNow, l);
  }
}
