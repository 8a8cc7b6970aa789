/**
 * Where tasks are. `Placed` says that every live task is exactly where its state letter and flags
 * say it is. It has two loosenings for the middle of a step: tasks in `limbo` are between two
 * places, and the hart `stale` still names a current task that has already been placed elsewhere.
 */
module Placement {
  import opened Base
  import opened IpcModel
  import opened Machine

  const NO_HART: int := -1

  predicate Unqueued(v: Task) { !v.queued && !v.delayQueued && !v.messageQueued }

  /** The slot of the endpoint a blocked receiver waits at: the low half of the handle it saved. */
  function EndpointOf(v: Task): nat { v.stateInfo % TWO32 }

  /** The task `t` is blocked in a join: its own tracker says so. */
  predicate WaitsOn(f: map<int, Tracker>, r: int, t: int) { r in f && f[r].waiting && f[r].task == t }

  /** A live task is in the place that its state letter names, and its flags agree. */
  ghost predicate TaskPlaced(k: Kernel, t: int, limbo: set<int>, stale: int)
    requires Slot(k.core, t)
  {
    var c, v := k.core, k.core.tasks[t];
    && HartIndex(c, v.cpu)
    && if v.idle then
         t !in limbo && c.harts[v.cpu].idle == t && Unqueued(v) && (v.state == Ready || v.state == Running)
       else if t in limbo then Unqueued(v)
       else match v.state
            case Running => Unqueued(v) && v.cpu != stale && c.harts[v.cpu].current == t
            case Ready => v.queued && !v.delayQueued && !v.messageQueued && t in c.runQueue
            case BlockedSleep => !v.queued && v.delayQueued && !v.messageQueued && t in c.sleepers[v.cpu]
            case BlockedMessage =>
              && !v.queued && !v.delayQueued && v.messageQueued
              && EndpointOf(v) < |k.endpoints| && t in k.endpoints[EndpointOf(v)].waiters
            case BlockedJoin => Unqueued(v) && WaitsOn(k.trackers, v.tracker, t)
            case _ => false
  }

  ghost predicate Member(k: Kernel, t: int, limbo: set<int>, state: TaskState) {
    && Slot(k.core, t) && |k.used| == |k.core.tasks| && k.used[t] && t !in limbo
    && !k.core.tasks[t].idle && k.core.tasks[t].state == state
  }

  ghost predicate HartPlaced(k: Kernel, h: int, limbo: set<int>, stale: int)
    requires HartIndex(k.core, h) && |k.used| == |k.core.tasks|
  {
    var c := k.core;
    var hart := c.harts[h];
    && Slot(c, hart.idle) && k.used[hart.idle] && c.tasks[hart.idle].idle && c.tasks[hart.idle].cpu == h
    && (h == stale || hart.current == NIL || hart.current == hart.idle ||
        (Member(k, hart.current, limbo, Running) && c.tasks[hart.current].cpu == h))
  }

  ghost predicate RunQueuePlaced(k: Kernel, limbo: set<int>) {
    && Distinct(k.core.runQueue)
    && forall t :: t in k.core.runQueue ==> Member(k, t, limbo, Ready)
  }

  function Due(tasks: seq<Task>, t: int): nat { if 0 <= t < |tasks| then tasks[t].deadline else 0 }

  ghost predicate Sorted(tasks: seq<Task>, q: seq<int>) {
    forall i, j :: 0 <= i < j < |q| ==> Due(tasks, q[i]) <= Due(tasks, q[j])
  }

  ghost predicate SleepersPlaced(k: Kernel, h: int, limbo: set<int>)
    requires HartIndex(k.core, h)
  {
    var q := k.core.sleepers[h];
    && Distinct(q)
    && (forall t :: t in q ==> Member(k, t, limbo, BlockedSleep) && k.core.tasks[t].cpu == h)
    && Sorted(k.core.tasks, q)
  }

  ghost predicate WaitersPlaced(k: Kernel, e: int, limbo: set<int>)
    requires 0 <= e < |k.endpoints|
  {
    var q := k.endpoints[e].waiters;
    && Distinct(q)
    && forall t :: t in q ==> Member(k, t, limbo, BlockedMessage) && EndpointOf(k.core.tasks[t]) == e
  }

  ghost predicate Placed(k: Kernel, limbo: set<int>, stale: int) {
    && |k.used| == |k.core.tasks| && |k.core.harts| == |k.core.sleepers|
    && RunQueuePlaced(k, limbo)
    && (forall h {:trigger HartPlaced(k, h, limbo, stale)} {:trigger k.core.harts[h]} ::
          HartIndex(k.core, h) ==> HartPlaced(k, h, limbo, stale))
    && (forall t {:trigger TaskPlaced(k, t, limbo, stale)} {:trigger k.core.tasks[t]} ::
          Slot(k.core, t) && k.used[t] ==> TaskPlaced(k, t, limbo, stale))
    && (forall t {:trigger k.core.tasks[t]} :: Slot(k.core, t) && !k.used[t] ==> k.core.tasks[t] == BLANK_TASK)
    && (forall h {:trigger SleepersPlaced(k, h, limbo)} {:trigger k.core.sleepers[h]} ::
          HartIndex(k.core, h) ==> SleepersPlaced(k, h, limbo))
    && (forall e {:trigger WaitersPlaced(k, e, limbo)} {:trigger k.endpoints[e]} ::
          0 <= e < |k.endpoints| ==> WaitersPlaced(k, e, limbo))
  }

  // ---------------------------------------------------------------------------------------------
  // The moves that every step is made of

  /** Only the task `t` moves between `k` and `l`: the other tasks keep their places. */
  ghost predicate OnlyMoves(k: Kernel, l: Kernel, t: int) {
    && SameShape(k.core, l.core) && |l.used| == |k.used| && |l.endpoints| == |k.endpoints|
    && (forall u {:trigger l.core.tasks[u]} {:trigger l.used[u]} ::
          0 <= u < |k.core.tasks| && u < |k.used| && u != t ==>
            l.core.tasks[u] == k.core.tasks[u] && l.used[u] == k.used[u])
    && (forall u :: u != t ==> (u in l.core.runQueue <==> u in k.core.runQueue))
    && (forall h, u :: 0 <= h < |k.core.sleepers| && u != t ==>
          (u in l.core.sleepers[h] <==> u in k.core.sleepers[h]))
    && (forall e, u :: 0 <= e < |k.endpoints| && u != t ==>
          (u in l.endpoints[e].waiters <==> u in k.endpoints[e].waiters))
    && (forall r, u :: u != t && WaitsOn(k.trackers, r, u) ==> WaitsOn(l.trackers, r, u))
  }

  /**
   * The harts follow the move: a hart may become stale because `t` was its current task, or cease to
   * be stale; every other hart keeps its current task, and idle tasks stay with their harts.
   */
  ghost predicate HartsFollow(k: Kernel, l: Kernel, limbo: set<int>, stale: int, stale': int, t: int) {
    && |l.core.harts| == |k.core.harts| && |l.core.sleepers| == |k.core.sleepers| && |l.used| == |l.core.tasks|
    && Slot(k.core, t) && Slot(l.core, t) && 0 <= t < |k.used| && t < |l.used|
    && (forall g {:trigger l.core.harts[g]} :: 0 <= g < |k.core.harts| ==>
          && l.core.harts[g].idle == k.core.harts[g].idle
          && (g == stale || l.core.harts[g].current == k.core.harts[g].current)
          && (g < |k.core.sleepers| && g != stale' && (g == stale || k.core.harts[g].current == t) ==>
                HartPlaced(l, g, limbo, stale')))
    && (stale' == stale || stale' == NO_HART ||
        (stale == NO_HART && HartIndex(k.core, stale') && k.core.harts[stale'].current == t))
    && (k.used[t] && k.core.tasks[t].idle ==>
          l.used[t] && l.core.tasks[t].idle && l.core.tasks[t].cpu == k.core.tasks[t].cpu)
  }

  /** The queues of `l` are duplicate free, the delay queues sorted, and they hold `t` only as its state says. */
  ghost predicate QueuesAgree(l: Kernel, limbo: set<int>, t: int) {
    && Distinct(l.core.runQueue) && (t in l.core.runQueue ==> Member(l, t, limbo, Ready))
    && (forall h {:trigger l.core.sleepers[h]} :: HartIndex(l.core, h) ==>
          && Distinct(l.core.sleepers[h]) && Sorted(l.core.tasks, l.core.sleepers[h])
          && (t in l.core.sleepers[h] ==> Member(l, t, limbo, BlockedSleep) && l.core.tasks[t].cpu == h))
    && (forall e {:trigger l.endpoints[e]} :: 0 <= e < |l.endpoints| ==>
          && Distinct(l.endpoints[e].waiters)
          && (t in l.endpoints[e].waiters ==>
                Member(l, t, limbo, BlockedMessage) && EndpointOf(l.core.tasks[t]) == e))
  }

  lemma MoveKeeps(k: Kernel, l: Kernel, limbo: set<int>, limbo': set<int>, stale: int, stale': int, t: int)
    requires Placed(k, limbo, stale) && OnlyMoves(k, l, t)
    requires HartsFollow(k, l, limbo', stale, stale', t) && QueuesAgree(l, limbo', t)
    requires forall u :: u != t ==> (u in limbo' <==> u in limbo)
    requires if l.used[t] then TaskPlaced(l, t, limbo', stale') else l.core.tasks[t] == BLANK_TASK
    ensures Placed(l, limbo', stale')
  {
    assert forall u, s :: u != t && Member(k, u, limbo, s) ==> Member(l, u, limbo', s);
    forall h | HartIndex(l.core, h) ensures HartPlaced(l, h, limbo', stale') && SleepersPlaced(l, h, limbo') {
      assert HartPlaced(k, h, limbo, stale) && SleepersPlaced(k, h, limbo);
    }
    forall u | Slot(l.core, u) && l.used[u] ensures TaskPlaced(l, u, limbo', stale') {
      assert u != t ==> TaskPlaced(k, u, limbo, stale);
    }
    forall e | 0 <= e < |l.endpoints| ensures WaitersPlaced(l, e, limbo') {
      assert WaitersPlaced(k, e, limbo);
    }
  }

  ghost predicate SameOrTail(q: seq<int>, r: seq<int>) { r == q || (q != [] && r == q[1..]) }

  /** The queues of `l` are those of `k`, except that `t` may have left the head of one. */
  lemma QueuesStay(k: Kernel, l: Kernel, limbo: set<int>, stale: int, t: int)
    requires Placed(k, limbo, stale) && SameShape(k.core, l.core) && |l.endpoints| == |k.endpoints|
    requires forall u {:trigger l.core.tasks[u]} :: 0 <= u < |k.core.tasks| && u != t ==>
               l.core.tasks[u] == k.core.tasks[u]
    requires t !in l.core.runQueue && SameOrTail(k.core.runQueue, l.core.runQueue)
    requires forall h {:trigger l.core.sleepers[h]} :: HartIndex(k.core, h) ==>
               && t !in l.core.sleepers[h]
               && SameOrTail(k.core.sleepers[h], l.core.sleepers[h])
    requires forall e {:trigger l.endpoints[e]} :: 0 <= e < |k.endpoints| ==>
               && t !in l.endpoints[e].waiters
               && SameOrTail(k.endpoints[e].waiters, l.endpoints[e].waiters)
    ensures QueuesAgree(l, limbo, t) && QueuesAgree(l, limbo + {t}, t)
  {
    assert forall h :: HartIndex(k.core, h) ==> SleepersPlaced(k, h, limbo);
    assert forall e :: 0 <= e < |k.endpoints| ==> WaitersPlaced(k, e, limbo);
    forall h | HartIndex(l.core, h) ensures Distinct(l.core.sleepers[h]) && Sorted(l.core.tasks, l.core.sleepers[h]) {
      StaysSorted(k.core.tasks, l.core.tasks, k.core.sleepers[h], l.core.sleepers[h], t);
    }
  }

  lemma StaysSorted(tasks: seq<Task>, tasks': seq<Task>, q: seq<int>, r: seq<int>, t: int)
    requires Distinct(q) && Sorted(tasks, q) && |tasks'| == |tasks| && t !in r
    requires SameOrTail(q, r)
    requires forall u {:trigger tasks'[u]} :: 0 <= u < |tasks| && u != t ==> tasks'[u] == tasks[u]
    ensures Distinct(r) && Sorted(tasks', r)
  {
    var d := |q| - |r|;
    forall i, j | 0 <= i < j < |r| ensures r[i] != r[j] && Due(tasks', r[i]) <= Due(tasks', r[j]) {
      assert r[i] in r && r[j] in r && r[i] == q[i + d] && r[j] == q[j + d];
      assert Due(tasks, q[i + d]) <= Due(tasks, q[j + d]);
    }
  }

  /** A task whose state letter names no queue is in none of the queues. */
  lemma InNoQueue(k: Kernel, limbo: set<int>, stale: int, t: int)
    requires Placed(k, limbo, stale) && Slot(k.core, t)
    requires t in limbo || !k.used[t] || k.core.tasks[t].idle || k.core.tasks[t].state == Running
    ensures t !in k.core.runQueue
    ensures forall h :: HartIndex(k.core, h) ==> t !in k.core.sleepers[h]
    ensures forall e :: 0 <= e < |k.endpoints| ==> t !in k.endpoints[e].waiters
  {
    assert forall h :: HartIndex(k.core, h) ==> SleepersPlaced(k, h, limbo);
    assert forall e :: 0 <= e < |k.endpoints| ==> WaitersPlaced(k, e, limbo);
  }

  /** A change that leaves a task's place alone: registers, return values, the detached flag. */
  predicate SamePlace(v: Task, w: Task) {
    && v.cpu == w.cpu && v.state == w.state && v.idle == w.idle && v.tracker == w.tracker
    && v.queued == w.queued && v.delayQueued == w.delayQueued && v.messageQueued == w.messageQueued
    && v.stateInfo == w.stateInfo && v.deadline == w.deadline
  }

  lemma TouchKeeps(k: Kernel, limbo: set<int>, stale: int, t: int, w: Task)
    requires Placed(k, limbo, stale) && Slot(k.core, t) && k.used[t] && SamePlace(k.core.tasks[t], w)
    ensures Placed(k.(core := SetTask(k.core, t, w)), limbo, stale)
  {
    var l := k.(core := SetTask(k.core, t, w));
    assert TaskPlaced(k, t, limbo, stale);
    assert OnlyMoves(k, l, t);
    assert HartsFollow(k, l, limbo, stale, stale, t) by {
      assert forall h :: HartIndex(k.core, h) ==> HartPlaced(k, h, limbo, stale);
    }
    assert QueuesAgree(l, limbo, t) by {
      assert forall s :: Member(k, t, limbo, s) ==> Member(l, t, limbo, s);
      assert forall h :: HartIndex(k.core, h) ==> SleepersPlaced(k, h, limbo);
      assert forall e :: 0 <= e < |k.endpoints| ==> WaitersPlaced(k, e, limbo);
      assert forall u :: Due(l.core.tasks, u) == Due(k.core.tasks, u);
    }
    assert TaskPlaced(l, t, limbo, stale);
    hide OnlyMoves, HartsFollow, QueuesAgree, TaskPlaced, Placed;
    MoveKeeps(k, l, limbo, limbo, stale, stale, t);
  }

  /** Two kernels that differ only in what `Placed` does not read. */
  lemma FrameKeeps(k: Kernel, l: Kernel, limbo: set<int>, stale: int)
    requires Placed(k, limbo, stale)
    requires l.core.tasks == k.core.tasks && l.core.runQueue == k.core.runQueue && l.core.sleepers == k.core.sleepers
    requires l.used == k.used && |l.core.harts| == |k.core.harts| && |l.endpoints| == |k.endpoints|
    requires forall h :: 0 <= h < |k.core.harts| ==>
               l.core.harts[h].current == k.core.harts[h].current && l.core.harts[h].idle == k.core.harts[h].idle
    requires forall e :: 0 <= e < |k.endpoints| ==> l.endpoints[e].waiters == k.endpoints[e].waiters
    requires forall r, t :: WaitsOn(k.trackers, r, t) ==> WaitsOn(l.trackers, r, t)
    ensures Placed(l, limbo, stale)
  {
  }

  /** A task that is not running is current on no hart that counts, so the harts are unaffected by its move. */
  lemma NotCurrent(k: Kernel, l: Kernel, limbo: set<int>, stale: int, t: int)
    requires Placed(k, limbo, stale) && Slot(k.core, t)
    requires t in limbo || !k.used[t] || k.core.tasks[t].state != Running
    requires SameShape(k.core, l.core) && |l.used| == |k.used| && l.core.harts == k.core.harts
    requires k.used[t] ==> !k.core.tasks[t].idle
    ensures HartsFollow(k, l, limbo - {t}, stale, stale, t) && HartsFollow(k, l, limbo + {t}, stale, stale, t)
  {
    assert forall g :: HartIndex(k.core, g) ==> HartPlaced(k, g, limbo, stale);
  }

  /** A task in limbo can always be published: `add_task` does not fail on a wake. */
  lemma AddTaskKeeps(k: Kernel, limbo: set<int>, stale: int, t: int)
    requires Placed(k, limbo, stale) && Slot(k.core, t) && k.used[t] && t in limbo
    requires !k.core.tasks[t].idle && k.core.tasks[t].state != Ended
    ensures AddTask(k.core, t).Run?
    ensures Placed(k.(core := AddTask(k.core, t).value), limbo - {t}, stale)
  {
    assert TaskPlaced(k, t, limbo, stale);
    var l := k.(core := Enqueue(k.core, t));
    assert forall u :: u in l.core.runQueue <==> u in k.core.runQueue || u == t;
    assert OnlyMoves(k, l, t);
    assert QueuesAgree(l, limbo - {t}, t) by {
      InNoQueue(k, limbo, stale, t);
      QueuesStay(k, l.(core := l.core.(runQueue := k.core.runQueue)), limbo, stale, t);
    }
    NotCurrent(k, l, limbo, stale, t);
    hide OnlyMoves, HartsFollow, QueuesAgree, Placed;
    MoveKeeps(k, l, limbo, limbo - {t}, stale, stale, t);
  }

  /** A ready task, or the idle task of the stale hart, is current on no hart and in no other queue. */
  lemma NowhereElse(k: Kernel, limbo: set<int>, h: int, t: int)
    requires Placed(k, limbo, h) && HartIndex(k.core, h)
    requires t == k.core.harts[h].idle || t in k.core.runQueue
    ensures forall g :: HartIndex(k.core, g) && g != h ==> k.core.harts[g].current != t
    ensures forall g :: HartIndex(k.core, g) ==> t !in k.core.sleepers[g]
    ensures forall e :: 0 <= e < |k.endpoints| ==> t !in k.endpoints[e].waiters
    ensures t == k.core.harts[h].idle ==> t !in k.core.runQueue
  {
    assert HartPlaced(k, h, limbo, h) && TaskPlaced(k, t, limbo, h);
    assert forall g :: HartIndex(k.core, g) ==> HartPlaced(k, g, limbo, h) && SleepersPlaced(k, g, limbo);
    assert forall e :: 0 <= e < |k.endpoints| ==> WaitersPlaced(k, e, limbo);
  }

  /** A stale hart can always be given its next task: no check of the switch path fails. */
  lemma SetNextKeeps(k: Kernel, limbo: set<int>, h: int, now: nat)
    requires Placed(k, limbo, h) && HartIndex(k.core, h)
    ensures SetNextRunnable(k.core, h, now).Run?
    ensures Placed(k.(core := SetNextRunnable(k.core, h, now).value), limbo, NO_HART)
  {
    var c := k.core;
    assert HartPlaced(k, h, limbo, h);
    var t := if c.runQueue == [] then c.harts[h].idle else c.runQueue[0];
    assert c.runQueue != [] ==> t in c.runQueue && c.runQueue == [t] + c.runQueue[1..];
    assert TaskPlaced(k, t, limbo, h);
    NowhereElse(k, limbo, h, t);
    var d := SetNextRunnable(c, h, now).value;
    assert d.tasks == c.tasks[t := c.tasks[t].(cpu := h, state := Running, queued := false)];
    assert d.harts == c.harts[h := Hart(t, c.harts[h].idle, d.harts[h].slice, c.harts[h].armed)];
    DispatchKeeps(k, k.(core := d), limbo, h, t);
  }

  lemma DispatchKeeps(k: Kernel, l: Kernel, limbo: set<int>, h: int, t: int)
    requires Placed(k, limbo, h) && HartIndex(k.core, h) && Slot(k.core, t) && t !in limbo && k.used[t]
    requires t == k.core.harts[h].idle || (k.core.runQueue != [] && t == k.core.runQueue[0])
    requires SameShape(k.core, l.core) && l == k.(core := l.core) && l.core.sleepers == k.core.sleepers
    requires l.core.tasks == k.core.tasks[t := k.core.tasks[t].(cpu := h, state := Running, queued := false)]
    requires l.core.harts == k.core.harts[h := l.core.harts[h]]
    requires l.core.harts[h].current == t && l.core.harts[h].idle == k.core.harts[h].idle
    requires l.core.runQueue == if t in k.core.runQueue then k.core.runQueue[1..] else k.core.runQueue
    ensures Placed(l, limbo, NO_HART)
  {
    assert TaskPlaced(k, t, limbo, h) && HartPlaced(k, h, limbo, h);
    NowhereElse(k, limbo, h, t);
    assert t in k.core.runQueue ==> k.core.runQueue == [t] + k.core.runQueue[1..];
    QueuesStay(k, l, limbo, h, t);
    assert HartPlaced(l, h, limbo, NO_HART);
    MoveKeeps(k, l, limbo, limbo, h, NO_HART, t);
  }

  /** The current task of a hart leaves it. */
  lemma LeaveKeeps(k: Kernel, h: int, w: Task)
    requires Placed(k, {}, NO_HART) && HartIndex(k.core, h)
    requires k.core.harts[h].current != NIL && k.core.harts[h].current != k.core.harts[h].idle
    requires var v := k.core.tasks[k.core.harts[h].current];
             w.cpu == v.cpu && Unqueued(w) && !w.idle
    ensures Placed(k.(core := SetTask(k.core, k.core.harts[h].current, w)), {k.core.harts[h].current}, h)
  {
    var t := k.core.harts[h].current;
    var l := k.(core := SetTask(k.core, t, w));
    assert forall g :: HartIndex(k.core, g) ==> HartPlaced(k, g, {}, NO_HART);
    assert TaskPlaced(k, t, {}, NO_HART);
    InNoQueue(k, {}, NO_HART, t);
    QueuesStay(k, l, {}, NO_HART, t);
    assert {} + {t} == {t};
    MoveKeeps(k, l, {}, {t}, NO_HART, h, t);
  }

  /** The first waiter of an endpoint leaves it, before it is published. */
  lemma PopWaiterKeeps(k: Kernel, l: Kernel, limbo: set<int>, stale: int, e: int, w: Task)
    requires Placed(k, limbo, stale) && 0 <= e < |k.endpoints| && k.endpoints[e].waiters != []
    requires var t := k.endpoints[e].waiters[0];
             && Slot(k.core, t) && w.cpu == k.core.tasks[t].cpu && !w.idle && Unqueued(w)
             && l == k.(core := SetTask(k.core, t, w),
                        endpoints := k.endpoints[e := k.endpoints[e].(waiters := k.endpoints[e].waiters[1..])])
    ensures var t := k.endpoints[e].waiters[0];
            k.used[t] && t !in limbo && !k.core.tasks[t].idle && Placed(l, limbo + {t}, stale)
  {
    var q := k.endpoints[e].waiters;
    var t := q[0];
    assert WaitersPlaced(k, e, limbo) && t in q && TaskPlaced(k, t, limbo, stale);
    assert q == [t] + q[1..];
    assert OnlyMoves(k, l, t);
    assert QueuesAgree(l, limbo + {t}, t) by {
      assert forall f :: 0 <= f < |k.endpoints| ==> WaitersPlaced(k, f, limbo);
      assert forall g :: HartIndex(k.core, g) ==> SleepersPlaced(k, g, limbo);
      QueuesStay(k, l, limbo, stale, t);
    }
    NotCurrent(k, l, limbo, stale, t);
    hide OnlyMoves, HartsFollow, QueuesAgree, Placed;
    MoveKeeps(k, l, limbo, limbo + {t}, stale, stale, t);
  }

  /** The first sleeper of a hart leaves its delay queue, before it is published. */
  lemma PopSleeperKeeps(k: Kernel, l: Kernel, limbo: set<int>, stale: int, h: int, w: Task)
    requires Placed(k, limbo, stale) && HartIndex(k.core, h) && k.core.sleepers[h] != []
    requires var q := k.core.sleepers[h];
             && Slot(k.core, q[0]) && w.cpu == k.core.tasks[q[0]].cpu && !w.idle && Unqueued(w)
             && l == k.(core := SetTask(k.core, q[0], w).(sleepers := k.core.sleepers[h := q[1..]]))
    ensures var t := k.core.sleepers[h][0];
            k.used[t] && t !in limbo && !k.core.tasks[t].idle && Placed(l, limbo + {t}, stale)
  {
    var q := k.core.sleepers[h];
    var t := q[0];
    assert SleepersPlaced(k, h, limbo) && t in q && TaskPlaced(k, t, limbo, stale);
    assert q == [t] + q[1..];
    assert OnlyMoves(k, l, t);
    assert QueuesAgree(l, limbo + {t}, t) by {
      assert forall f :: 0 <= f < |k.endpoints| ==> WaitersPlaced(k, f, limbo);
      assert forall g :: HartIndex(k.core, g) ==> SleepersPlaced(k, g, limbo);
      QueuesStay(k, l, limbo, stale, t);
    }
    NotCurrent(k, l, limbo, stale, t);
    hide OnlyMoves, HartsFollow, QueuesAgree, Placed;
    MoveKeeps(k, l, limbo, limbo + {t}, stale, stale, t);
  }

  /** `recv` queues its caller at an endpoint. */
  lemma PushWaiterKeeps(k: Kernel, l: Kernel, limbo: set<int>, stale: int, t: int, e: int)
    requires Placed(k, limbo, stale) && Slot(k.core, t) && t in limbo && k.used[t] && !k.core.tasks[t].idle
    requires 0 <= e < |k.endpoints| && EndpointOf(k.core.tasks[t]) == e
    requires var v := k.core.tasks[t].(state := BlockedMessage, messageQueued := true);
             l == k.(core := SetTask(k.core, t, v),
                     endpoints := k.endpoints[e := k.endpoints[e].(waiters := k.endpoints[e].waiters + [t])])
    ensures Placed(l, limbo - {t}, stale)
  {
    assert TaskPlaced(k, t, limbo, stale);
    InNoQueue(k, limbo, stale, t);
    QueuesStay(k, l.(endpoints := k.endpoints), limbo, stale, t);
    assert forall u :: u in l.endpoints[e].waiters <==> u in k.endpoints[e].waiters || u == t;
    NotCurrent(k, l, limbo, stale, t);
    MoveKeeps(k, l, limbo, limbo - {t}, stale, stale, t);
  }

  /** Inserting behind the entries due no later keeps a delay queue sorted. */
  lemma {:induction false} InsertSorted(tasks: seq<Task>, q: seq<int>, t: int, deadline: nat, tasks': seq<Task>)
    requires Distinct(q) && Sorted(tasks, q) && t !in q && 0 <= t < |tasks| == |tasks'|
    requires forall i :: 0 <= i < |q| ==> 0 <= q[i] < |tasks| && tasks'[q[i]].deadline == tasks[q[i]].deadline
    requires tasks'[t].deadline == deadline
    ensures var r := InsertSleeper(tasks, q, t, deadline);
            && Distinct(r) && Sorted(tasks', r) && (forall u :: u in r <==> u in q || u == t)
  {
    var r := InsertSleeper(tasks, q, t, deadline);
    if q == [] || tasks[q[0]].deadline > deadline {
      forall i, j | 0 <= i < j < |r| ensures r[i] != r[j] && Due(tasks', r[i]) <= Due(tasks', r[j]) {
        assert r[j] == q[j - 1];
        assert i > 0 ==> r[i] == q[i - 1];
        assert j - 1 == 0 || Due(tasks, q[0]) <= Due(tasks, q[j - 1]);
      }
    } else {
      var tail := InsertSleeper(tasks, q[1..], t, deadline);
      InsertSorted(tasks, q[1..], t, deadline, tasks');
      assert q == [q[0]] + q[1..] && r == [q[0]] + tail;
      assert forall j :: 0 < j < |q| ==> Due(tasks, q[0]) <= Due(tasks, q[j]) && q[0] != q[j];
      PrependSorted(tasks', q[0], tail);
    }
  }

  lemma PrependSorted(tasks: seq<Task>, first: int, tail: seq<int>)
    requires Distinct(tail) && Sorted(tasks, tail)
    requires forall u :: u in tail ==> u != first && Due(tasks, first) <= Due(tasks, u)
    ensures Distinct([first] + tail) && Sorted(tasks, [first] + tail)
  {
    var r := [first] + tail;
    forall i, j | 0 <= i < j < |r| ensures r[i] != r[j] && Due(tasks, r[i]) <= Due(tasks, r[j]) {
      assert r[j] == tail[j - 1] && r[j] in tail && (i > 0 ==> r[i] == tail[i - 1]);
    }
  }

  /** `delay_task` queues its caller on the hart's delay queue. */
  lemma PushSleeperKeeps(k: Kernel, l: Kernel, limbo: set<int>, stale: int, t: int, deadline: nat)
    requires Placed(k, limbo, stale) && Slot(k.core, t) && t in limbo && k.used[t] && !k.core.tasks[t].idle
    requires HartIndex(k.core, k.core.tasks[t].cpu)
    requires l == k.(core := DelayUntil(k.core, t, deadline))
    ensures Placed(l, limbo - {t}, stale)
  {
    var h := k.core.tasks[t].cpu;
    assert TaskPlaced(k, t, limbo, stale) && SleepersPlaced(k, h, limbo);
    InNoQueue(k, limbo, stale, t);
    assert forall i :: 0 <= i < |k.core.sleepers[h]| ==> k.core.sleepers[h][i] in k.core.sleepers[h];
    InsertSorted(k.core.tasks, k.core.sleepers[h], t, deadline, l.core.tasks);
    QueuesStay(k, l.(core := l.core.(sleepers := k.core.sleepers)), limbo, stale, t);
    NotCurrent(k, l, limbo, stale, t);
    MoveKeeps(k, l, limbo, limbo - {t}, stale, stale, t);
  }

  /** `wait_task` parks its caller on its own tracker. */
  lemma JoinKeeps(k: Kernel, l: Kernel, limbo: set<int>, stale: int, t: int, w: Task, r: Tracker)
    requires Placed(k, limbo, stale) && Slot(k.core, t) && t in limbo && k.used[t] && !k.core.tasks[t].idle
    requires w.cpu == k.core.tasks[t].cpu && Unqueued(w) && !w.idle && w.state == BlockedJoin && r.waiting
    requires r.task == t
    requires w.tracker in k.trackers && k.trackers[w.tracker].task == t
    requires l == k.(core := SetTask(k.core, t, w), trackers := k.trackers[w.tracker := r])
    ensures Placed(l, limbo - {t}, stale)
  {
    assert TaskPlaced(k, t, limbo, stale);
    InNoQueue(k, limbo, stale, t);
    QueuesStay(k, l, limbo, stale, t);
    NotCurrent(k, l, limbo, stale, t);
    MoveKeeps(k, l, limbo, limbo - {t}, stale, stale, t);
  }

  /** A slot is taken for a new task, not yet published. */
  lemma AdmitKeeps(k: Kernel, l: Kernel, limbo: set<int>, stale: int, t: int, w: Task)
    requires Placed(k, limbo, stale) && Slot(k.core, t) && !k.used[t]
    requires HartIndex(k.core, w.cpu) && Unqueued(w) && !w.idle
    requires l == k.(core := SetTask(k.core, t, w), used := k.used[t := true])
    ensures Placed(l, limbo + {t}, stale)
  {
    InNoQueue(k, limbo, stale, t);
    QueuesStay(k, l, limbo, stale, t);
    NotCurrent(k, l, limbo, stale, t);
    MoveKeeps(k, l, limbo, limbo + {t}, stale, stale, t);
  }

  /** A task in limbo gives its slot back. */
  lemma ReleaseKeeps(k: Kernel, limbo: set<int>, stale: int, t: int)
    requires Placed(k, limbo, stale) && Slot(k.core, t) && t in limbo && k.used[t] && !k.core.tasks[t].idle
    ensures ReleaseTask(k, t).Run? && Placed(ReleaseTask(k, t).value, limbo - {t}, stale)
  {
    assert TaskPlaced(k, t, limbo, stale);
    var l := k.(core := SetTask(k.core, t, BLANK_TASK), used := k.used[t := false]);
    InNoQueue(k, limbo, stale, t);
    QueuesStay(k, l, limbo, stale, t);
    NotCurrent(k, l, limbo, stale, t);
    MoveKeeps(k, l, limbo, limbo - {t}, stale, stale, t);
  }

  /** A joining task is told the result, before it is published. */
  lemma LeaveJoinKeeps(k: Kernel, l: Kernel, limbo: set<int>, stale: int, t: int, w: Task)
    requires Placed(k, limbo, stale) && Slot(k.core, t) && k.used[t] && t !in limbo
    requires !k.core.tasks[t].idle && k.core.tasks[t].state == BlockedJoin
    requires w.cpu == k.core.tasks[t].cpu && Unqueued(w) && !w.idle
    requires l == k.(core := SetTask(k.core, t, w), trackers := l.trackers)
    requires forall r, u :: u != t && WaitsOn(k.trackers, r, u) ==> WaitsOn(l.trackers, r, u)
    ensures Placed(l, limbo + {t}, stale)
  {
    assert TaskPlaced(k, t, limbo, stale);
    assert forall h :: HartIndex(k.core, h) ==> HartPlaced(k, h, limbo, stale) && SleepersPlaced(k, h, limbo);
    assert forall e :: 0 <= e < |k.endpoints| ==> WaitersPlaced(k, e, limbo);
    QueuesStay(k, l, limbo, stale, t);
    NotCurrent(k, l, limbo, stale, t);
    assert OnlyMoves(k, l, t);
    hide OnlyMoves, HartsFollow, QueuesAgree, Placed;
    MoveKeeps(k, l, limbo, limbo + {t}, stale, stale, t);
  }
}
