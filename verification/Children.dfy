/** What the task calls do to the tasks and their trackers: a child's start, its end, its collection. */
module Children {
  import opened Base
  import opened IpcModel
  import opened Machine
  import opened Placement
  import opened Forest
  import opened IpcRefinement
  import opened Runs
  import opened Contexts
  import opened SystemCalls
  import TrapFrames

  /** The context of a child in slot `u`, created with the frame `f`. */
  ghost predicate StartsAt(c: Context, f: Frame, image: Image, u: nat, satp: nat) {
    && c.mepc == f.x[10] && c.x[10] == f.x[11] && c.x[1] == image.stub && c.x[2] == image.stacks + (u + 1) * 4096
    && (forall i :: 0 <= i < 32 && i !in {1, 2, 10} ==> c.x[i] == 0) && c.satp == satp
    && TrapFrames.StatusFields(c.mstatus) == TrapFrames.StatusFields(image.mstatus).(mpie := 1, mpp := 0, mprv := 0)
  }

  lemma SpawnStarts(f: Frame, x: Regs, env: Env, u: nat, satp: nat)
    requires x[10] == f.x[10] && x[11] == f.x[11]
    ensures StartsAt(SpawnContext(Spawn(x[10], x[11], env.stackOk, env.image), u, satp), f, env.image, u, satp)
  {
    var top := env.image.stacks + u * STACK_SIZE + STACK_SIZE;
    TrapFrames.UserStartsClean(x[10], x[11], top, env.image.stub, env.image.mstatus, satp);
    hide UserStatus, TrapFrames.StatusFields;
  }

  /** One new task in a free slot, ready at the end of the run queue, its tracker under its creator's; or no change. */
  ghost predicate Made(k: Kernel, t: int, h: int, l: Kernel, u: int, r: int)
    requires Slot(k.core, t)
  {
    && 0 <= u < |k.used| && !k.used[u] && l.used == k.used[u := true] && l.core.runQueue == k.core.runQueue + [u]
    && r !in k.trackers && l.nextTid == k.nextTid + 1
    && l.trackers == k.trackers[r := Tracker(k.core.tasks[t].tracker, k.nextTid, u, Alive, 0, false, 0)]
    && Slot(l.core, u)
    && var v := l.core.tasks[u];
       v.tid == k.nextTid && v.tracker == r && v.state == Ready && v.cpu == h && !v.idle && !v.detached
  }

  ghost predicate NoneMade(k: Kernel, l: Kernel) {
    l.used == k.used && l.core.runQueue == k.core.runQueue && l.trackers == k.trackers && l.nextTid == k.nextTid
  }

  lemma CreateMakes(k: Kernel, h: int, t: int, env: Env) returns (u: int, r: int)
    requires HartIndex(k.core, h) && Slot(k.core, t) && |k.used| == |k.core.tasks| && k.used[t]
    requires HandleCreate(k, h, t, env).Run?
    ensures var l, x := HandleCreate(k, h, t, env).value.kernel, k.core.tasks[t].context.x;
            if env.entryOk && HasRoom(k, env) then
              && Made(k, t, h, l, u, r)
              && l.core.tasks[u].context ==
                 SpawnContext(Spawn(x[10], x[11], env.stackOk, env.image), u, k.core.tasks[t].context.satp)
            else NoneMade(k, l)
  {
    u, r := FreeIndex(k.used), FreeTracker(k.trackers, k.trackerSlots, 0);
    assert HasRoom(k, env) <==> u < |k.used| && r < k.trackerSlots && env.stackOk;
    hide FreeIndex, FreeTracker, SpawnContext, HasRoom;
  }

  /** What a create call does, in terms of the caller's frame. */
  lemma CreateIsExact(k: Kernel, e: Event, l: Kernel) returns (u: int, r: int)
    requires Inv(k) && Legal(k, e) && Returns(k, e) && e.frame.x[17] == 1 && Machine.Next(k, e) == Run(l)
    ensures var t := CallerOf(k, e);
            if e.env.entryOk && HasRoom(k, e.env) then
              && Made(k, t, e.hart, l, u, r)
              && StartsAt(l.core.tasks[u].context, e.frame, e.env.image, u, k.core.tasks[t].context.satp)
            else NoneMade(k, l)
  {
    hide Inv, Machine.Next, HandleCreate, Entered, HasRoom, SpawnContext, StartsAt;
    var t := CallerOf(k, e);
    var m := EnterStep(k, e.hart, e.frame);
    SyscallKeepsTasks(k, e);
    EnteredRegisters(k.core.tasks[t], e.frame);
    u, r := CreateMakes(m, e.hart, t, e.env);
    assert HasRoom(m, e.env) == HasRoom(k, e.env) by {
      RoomIsTheSame(k, m, e.env);
    }
    if e.env.entryOk && HasRoom(k, e.env) {
      SpawnStarts(e.frame, m.core.tasks[t].context.x, e.env, u, k.core.tasks[t].context.satp);
    }
  }

  lemma RoomIsTheSame(k: Kernel, m: Kernel, env: Env)
    requires m == k.(core := m.core)
    ensures HasRoom(m, env) == HasRoom(k, env)
  {
  }

  /**
   * A created task is first dispatched at the entry point its creator named, with the argument it named in `a0`, a
   * stack of its own and the return stub, every other register clear; its creator got its id in `a0`.
   */
  lemma ChildStartsAsAsked(ks: seq<Kernel>, es: seq<Event>, m: nat, n: nat, u: int)
    requires Runs.IsRun(ks, es) && m < n <= |es| && Returns(ks[m], es[m]) && es[m].frame.x[17] == 1
    requires 0 <= u < |ks[m].used| && u < |ks[m + 1].used| && !ks[m].used[u] && ks[m + 1].used[u]
    requires forall j :: m < j < n ==> OffHart(ks[j], u)
    ensures Live(ks[n], u) && Live(ks[m + 1], u)
    ensures StartsAt(ks[n].core.tasks[u].context, es[m].frame, es[m].env.image, u,
                     ks[m].core.tasks[CallerOf(ks[m], es[m])].context.satp)
    ensures var t, l := CallerOf(ks[m], es[m]), ks[m + 1];
            && Slot(l.core, t) && l.core.tasks[t].context.x[10] == l.core.tasks[u].tid == ks[m].nextTid
            && l.core.tasks[u].tracker in l.trackers
            && l.trackers[l.core.tasks[u].tracker] ==
               Tracker(ks[m].core.tasks[t].tracker, ks[m].nextTid, u, Alive, 0, false, 0)
  {
    hide Runs.IsRun, Inv, Machine.Next, Legal, StartsAt, HasRoom;
    RunStep(ks, es, m);
    var v, r := CreateIsExact(ks[m], es[m], ks[m + 1]);
    assert u == v;
    StepAnswers(ks[m], es[m]);
    var i := WokenAtMostOnce(ks, es, m + 1, n, u);
  }

  // ---------------------------------------------------------------------------------------------
  // Wait and exit

  /** Exactly one tracker is gone, and what hung from it hangs from `p`. */
  ghost predicate Collected(f: map<int, Tracker>, g: map<int, Tracker>, q: int, p: int) {
    && g.Keys == f.Keys - {q}
    && forall d :: d in g ==> g[d] == if f[d].parent == q then f[d].(parent := p) else f[d]
  }

  lemma ReapCollects(f: map<int, Tracker>, q: int)
    requires q in f && f[q].parent != NIL
    ensures Collected(f, Reap(f, q), q, f[q].parent)
  {
  }

  /** A wait that finds a completed child answers with its id and removes its tracker and no other. */
  lemma WaitCollects(k: Kernel, e: Event, l: Kernel)
    requires Inv(k) && Legal(k, e) && Returns(k, e) && Machine.Next(k, e) == Run(l)
    requires e.frame.x[17] == 3 && e.frame.x[11] == 0 && e.frame.x[12] == 0
    requires e.env.pick in k.trackers && k.trackers[e.env.pick].task == NIL
    ensures var t := CallerOf(k, e);
            && k.trackers[e.env.pick].parent == k.core.tasks[t].tracker
            && Collected(k.trackers, l.trackers, e.env.pick, k.core.tasks[t].tracker) && l.used == k.used
            && Slot(l.core, t) && l.core.tasks[t].context.x[10] == k.trackers[e.env.pick].key
  {
    hide Inv, Machine.Next, Entered, Reap, CrashedOrphan;
    StepAnswers(k, e);
    var t := CallerOf(k, e);
    var m := EnterStep(k, e.hart, e.frame);
    SyscallKeepsTasks(k, e);
    EnteredRegisters(k.core.tasks[t], e.frame);
    NoTrackerIsNil(k);
    CallerHasTracker(k, e.hart, t);
    ReapCollects(k.trackers, e.env.pick);
  }

  lemma CallerHasTracker(k: Kernel, h: int, t: int)
    requires Inv(k) && HartIndex(k.core, h) && k.core.harts[h].current == t && t != NIL
    ensures Slot(k.core, t) && t < |k.used| && k.used[t] && OwnsTracker(k, t)
    ensures t == k.core.harts[h].idle <==> k.core.tasks[t].idle
  {
    CurrentIsRunning(k, h, t);
    assert OwnsTracker(k, t);
  }

  /** The exit is kept for the parent: it can join, and was not waiting for this child. */
  ghost predicate Kept(k: Kernel, t: int)
    requires Slot(k.core, t) && k.core.tasks[t].tracker in k.trackers
  {
    var v, q := k.core.tasks[t], k.trackers[k.core.tasks[t].tracker];
    && !v.detached && q.parent in k.trackers
    && !(k.trackers[q.parent].waiting && Matches(k.trackers[q.parent].waitTid, v.tid))
  }

  lemma BuriedRecord(k: Kernel, t: int, returnValue: nat, status: ExitStatus)
    requires status != Alive && Dead(k, t) && OwnsTracker(k, t) && Rooted(k.trackers) && |k.used| == |k.core.tasks|
    ensures var g, q := BuriedTrackers(k, t, returnValue, status), k.core.tasks[t].tracker;
            && (q in g <==> Kept(k, t))
            && (q in g ==> g[q] == k.trackers[q].(status := status, returnValue := returnValue, task := NIL))
  {
    hide Placed, TrackersOk;
  }

  /** A task that ends frees its slot; its record, kept only for a parent that may still ask, has how and with what. */
  lemma ExitRecords(k: Kernel, e: Event, l: Kernel)
    requires Inv(k) && Legal(k, e) && e.Syscall? && (e.frame.x[17] == 2 || e.frame.x[17] > 12)
    requires Machine.Next(k, e) == Run(l) && Slot(k.core, CallerOf(k, e))
    ensures var t := CallerOf(k, e);
            && t < |k.used| && OwnsTracker(k, t) && l.used == k.used[t := false]
            && var q := k.core.tasks[t].tracker;
               && (q in l.trackers <==> Kept(k, t))
               && (q in l.trackers ==>
                     l.trackers[q] == k.trackers[q].(task := NIL,
                                                     status := if e.frame.x[17] == 2 then ExitedClean else Crashed,
                                                     returnValue := if e.frame.x[17] == 2 then e.frame.x[10] else 0))
  {
    hide Inv, Machine.Next, Entered, EndTask, Kept, Offered, Stops;
    var status := if e.frame.x[17] == 2 then ExitedClean else Crashed;
    var value := if e.frame.x[17] == 2 then e.frame.x[10] else 0;
    OfferedHart(k, e);
    var t := CallerOf(k, e);
    var m := EnterStep(k, e.hart, e.frame);
    EnteredRegisters(k.core.tasks[t], e.frame);
    CallerHasTracker(k, e.hart, t);
    ExitIsEnd(k, e, l, m, value, status);
    ExitBuries(m, e.hart, t, value, status, e.env);
    assert Kept(m, t) == Kept(k, t) by {
      KeptIsTheSame(k, m, t);
    }
  }

  lemma OfferedHart(k: Kernel, e: Event)
    requires Offered(k, e)
    ensures HartIndex(k.core, e.hart)
  {
  }

  /** The step of an ending task is `end_task`. */
  lemma ExitIsEnd(k: Kernel, e: Event, l: Kernel, m: Kernel, value: nat, status: ExitStatus)
    requires Legal(k, e) && e.Syscall? && Machine.Next(k, e) == Run(l) && Slot(k.core, CallerOf(k, e))
    requires var t := CallerOf(k, e); m == k.(core := SetTask(k.core, t, Entered(k.core.tasks[t], e.frame)))
    requires if e.frame.x[17] == 2 then status == ExitedClean && value == e.frame.x[10]
             else e.frame.x[17] > 12 && status == Crashed && value == 0
    ensures !k.core.tasks[CallerOf(k, e)].idle
    ensures var r := EndTask(m, e.hart, CallerOf(k, e), value, status, e.env.sliceNow);
            r.Run? && l.used == r.value.used && l.trackers == r.value.trackers
  {
    SyscallKeepsTasks(k, e);
    EnteredRegisters(k.core.tasks[CallerOf(k, e)], e.frame);
    hide Machine.Next, Entered, EndTask, ExitStops, ChildFound;
  }

  lemma KeptIsTheSame(k: Kernel, m: Kernel, t: int)
    requires Slot(k.core, t) && k.core.tasks[t].tracker in k.trackers && Slot(m.core, t) && m.trackers == k.trackers
    requires m.core.tasks[t] == k.core.tasks[t].(context := m.core.tasks[t].context, state := m.core.tasks[t].state)
    ensures Kept(m, t) == Kept(k, t)
  {
  }

  lemma ExitBuries(k: Kernel, h: int, t: int, value: nat, status: ExitStatus, env: Env)
    requires status != Alive && Inv(k) && Current(k, h, t) && !k.core.tasks[t].idle && OwnsTracker(k, t)
    requires EndTask(k, h, t, value, status, env.sliceNow).Run?
    ensures var l, q := EndTask(k, h, t, value, status, env.sliceNow).value, k.core.tasks[t].tracker;
            && l.used == k.used[t := false] && (q in l.trackers <==> Kept(k, t))
            && (q in l.trackers ==>
                  l.trackers[q] == k.trackers[q].(status := status, returnValue := value, task := NIL))
  {
    hide Inv, Dead, Bury, SetNextRunnable, CrashedOrphan, BuriedTrackers, Kept;
    var n := DeadAfterSwitch(k, h, t, env.sliceNow);
    DeadOwnsTracker(n, t);
    if ExitStops(n, t, status) {
      BuryParks(n, t, value, status);
    } else {
      var l := BuryStep(n, t, value, status);
      BuriedRecord(n, t, value, status);
      KeptIsTheSame(k, n, t);
    }
  }
}
