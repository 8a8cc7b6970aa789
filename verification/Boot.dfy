/** The state in which the boot hart hands over: one idle task per hart, then the initial task on hart 0. */
module Boot {
  import opened Base
  import opened IpcModel
  import opened Machine
  import opened Placement
  import opened Runs

  /** `create_task_locked` with a kernel parent: the lowest free slots, and a tracker that hangs from the kernel. */
  function Planted(k: Kernel, h: int, idle: bool, context: Context): Kernel
    requires FreeIndex(k.used) < |k.used| == |k.core.tasks|
    requires FreeTracker(k.trackers, k.trackerSlots, 0) < k.trackerSlots
  {
    var i, r := FreeIndex(k.used), FreeTracker(k.trackers, k.trackerSlots, 0);
    k.(core := SetTask(k.core, i, NewTask(h, context, k.nextTid, r).(idle := idle)), used := k.used[i := true],
       trackers := k.trackers[r := Tracker(NIL, k.nextTid, i, Alive, 0, false, 0)], nextTid := k.nextTid + 1)
  }

  function WithIdle(k: Kernel, h: int, i: int): Kernel
    requires HartIndex(k.core, h)
  {
    k.(core := k.core.(harts := k.core.harts[h := k.core.harts[h].(idle := i)]))
  }

  /** Nothing but the idle tasks of the first `m` harts. */
  ghost predicate Booting(k: Kernel, m: nat) {
    var c, n := k.core, |k.core.harts|;
    && 1 <= n == |c.sleepers| && m <= n && n < |c.tasks| == |k.used| && n < k.trackerSlots && k.nextTid == m + 1
    && c.runQueue == []
    && (forall h {:trigger c.sleepers[h]} {:trigger c.harts[h]} :: 0 <= h < n ==>
          c.sleepers[h] == [] && c.harts[h].current == NIL && (h < m ==> c.harts[h].idle == h))
    && (forall t {:trigger c.tasks[t]} {:trigger k.used[t]} :: 0 <= t < |c.tasks| ==>
          && k.used[t] == (t < m)
          && (t >= m ==> c.tasks[t] == BLANK_TASK)
          && (t < m ==>
                && Unqueued(c.tasks[t]) && c.tasks[t].tid == t + 1 && c.tasks[t].tracker == t
                && c.tasks[t].idle && c.tasks[t].cpu == t && c.tasks[t].state == Ready))
    && (forall r :: r in k.trackers <==> 0 <= r < m)
    && (forall r :: r in k.trackers ==> k.trackers[r] == Tracker(NIL, r + 1, r, Alive, 0, false, 0))
    && Initial(k.endpoints) && |k.endpoints| <= TWO32 && 1 <= k.limits.ceiling < TWO32 / 2
  }

  /** The first `m` tasks are the idle ones, with this context. */
  ghost predicate IdleContexts(c: Core, m: nat, context: Context) {
    m <= |c.tasks| && forall t :: 0 <= t < m ==> c.tasks[t].context == context
  }

  lemma LowestFree(k: Kernel, m: nat)
    requires Booting(k, m)
    ensures FreeIndex(k.used) == m && FreeTracker(k.trackers, k.trackerSlots, 0) == m
  {
    var i, r := FreeIndex(k.used), FreeTracker(k.trackers, k.trackerSlots, 0);
    hide FreeIndex, FreeTracker;
    assert !k.used[m] && (i < |k.used| ==> k.used[i] == (i < m));
    assert m !in k.trackers && (r < k.trackerSlots ==> r !in k.trackers);
  }

  lemma IdlePlanted(k: Kernel, m: nat, context: Context)
    requires Booting(k, m) && m < |k.core.harts|
    ensures FreeIndex(k.used) == m && FreeTracker(k.trackers, k.trackerSlots, 0) == m
    ensures Booting(WithIdle(Planted(k, m, true, context), m, m), m + 1)
    ensures IdleContexts(k.core, m, context) ==>
              IdleContexts(WithIdle(Planted(k, m, true, context), m, m).core, m + 1, context)
  {
    LowestFree(k, m);
    hide FreeIndex, FreeTracker;
  }

  lemma InitialPlanted(k: Kernel, context: Context)
    requires Booting(k, |k.core.harts|)
    ensures FreeIndex(k.used) == |k.core.harts| && FreeTracker(k.trackers, k.trackerSlots, 0) == |k.core.harts|
    ensures var p := Planted(k, 0, false, context);
            && SetCurrent(p.core, 0, |k.core.harts|).Run?
            && Booted(p.(core := SetCurrent(p.core, 0, |k.core.harts|).value))
            && SetCurrent(p.core, 0, |k.core.harts|).value.tasks[|k.core.harts|].context == context
            && (forall c :: IdleContexts(k.core, |k.core.harts|, c) ==>
                  IdleContexts(SetCurrent(p.core, 0, |k.core.harts|).value, |k.core.harts|, c))
  {
    LowestFree(k, |k.core.harts|);
    hide FreeIndex, FreeTracker;
  }
}
