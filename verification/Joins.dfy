/**
 * Joins: a waiting parent always has a child whose exit will wake it. A detached child is no such child, so the
 * steps that can break this are known exactly, before they are taken.
 */
module Joins {
  import opened Base
  import opened IpcModel
  import opened Machine
  import opened Placement
  import opened Forest
  import opened Runs

  // ---------------------------------------------------------------------------------------------
  // What a wait needs

  /** The tracker is that of a live task that is not detached: its exit is reported to its parent. */
  ghost predicate Attends(k: Kernel, c: int) {
    && c in k.trackers && k.trackers[c].task != NIL && Slot(k.core, k.trackers[c].task)
    && !k.core.tasks[k.trackers[c].task].detached
  }

  ghost function Attached(k: Kernel): set<int> { set c | c in k.trackers && Attends(k, c) }

  /** A child among `a` ends a wait of `r` for `tid` when it exits. */
  ghost predicate HasWaker(f: map<int, Tracker>, a: set<int>, r: int, tid: int) {
    exists c :: c in a && IsChild(f, r, c) && Matches(tid, f[c].key)
  }

  /** Some completed child should have ended the wait. */
  ghost predicate HasDoneMatch(f: map<int, Tracker>, r: int)
    requires r in f
  {
    exists c :: IsChild(f, r, c) && f[c].task == NIL && Matches(f[r].waitTid, f[c].key)
  }

  /** An active wait is neither pointless nor overdue. */
  ghost predicate WaitOk(f: map<int, Tracker>, a: set<int>, r: int)
    requires r in f
  {
    HasWaker(f, a, r, f[r].waitTid) && !HasDoneMatch(f, r)
  }

  ghost predicate JoinsIn(f: map<int, Tracker>, a: set<int>) {
    forall r :: r in f && f[r].waiting ==> WaitOk(f, a, r)
  }

  /** Every active wait has a live child that is not detached and will end it, and no completed one that should have. */
  ghost predicate JoinsOk(k: Kernel) { JoinsIn(k.trackers, Attached(k)) }

  // ---------------------------------------------------------------------------------------------
  // The forest changes

  /** A wait whose children, and those among them that can end it, are as they were. */
  lemma SameWait(f: map<int, Tracker>, a: set<int>, g: map<int, Tracker>, b: set<int>, r: int)
    requires r in f && r in g && g[r].waitTid == f[r].waitTid
    requires forall c :: IsChild(f, r, c) && Matches(f[r].waitTid, f[c].key) ==>
               IsChild(g, r, c) && g[c].key == f[c].key && g[c].task == f[c].task && (c in b <==> c in a)
    requires forall c :: IsChild(g, r, c) && Matches(f[r].waitTid, g[c].key) ==>
               IsChild(f, r, c) && g[c].key == f[c].key
    ensures WaitOk(g, b, r) <==> WaitOk(f, a, r)
  {
  }

  /** A new attached child of a tracker that does not wait. */
  lemma AdoptJoins(f: map<int, Tracker>, a: set<int>, q: int, v: Tracker)
    requires JoinsIn(f, a) && q !in f && v.task != NIL && !v.waiting && v.parent in f && !f[v.parent].waiting
    requires Rooted(f)
    ensures JoinsIn(f[q := v], a + {q})
  {
    forall r | r in f && f[r].waiting ensures WaitOk(f[q := v], a + {q}, r) {
      SameWait(f, a, f[q := v], a + {q}, r);
    }
  }

  /** `wait_task` blocks: the joins stay in order exactly when a child that is not detached will end the new wait. */
  lemma BlockJoins(f: map<int, Tracker>, a: set<int>, r: int, tid: int, pick: int)
    requires JoinsIn(f, a) && DistinctKeys(f) && r in f && !f[r].waiting
    requires pick != NIL && ChildFound(f, r, tid, pick) && f[pick].task != NIL
    ensures JoinsIn(f[r := f[r].(waiting := true, waitTid := tid)], a) <==> HasWaker(f, a, r, tid)
  {
    var g := f[r := f[r].(waiting := true, waitTid := tid)];
    forall p | p in f && f[p].waiting ensures WaitOk(g, a, p) {
      SameWait(f, a, g, a, p);
    }
    assert forall d :: IsChild(g, r, d) <==> IsChild(f, r, d);
    assert HasWaker(g, a, r, tid) <==> HasWaker(f, a, r, tid);
    assert !HasDoneMatch(g, r);
  }

  /** The parent of `q` does not wait for it. */
  ghost predicate NotAwaited(f: map<int, Tracker>, q: int)
    requires q in f
  {
    f[q].parent in f && f[f[q].parent].waiting ==> !Matches(f[f[q].parent].waitTid, f[q].key)
  }

  /** A child detaches: the joins stay in order exactly when nobody waits for it, or another child ends that wait. */
  lemma DetachJoins(f: map<int, Tracker>, a: set<int>, q: int)
    requires JoinsIn(f, a) && q in f
    ensures JoinsIn(f, a - {q}) <==> NotAwaited(f, q) || HasWaker(f, a - {q}, f[q].parent, f[f[q].parent].waitTid)
  {
    forall r | r in f && f[r].waiting && (r != f[q].parent || NotAwaited(f, q)) ensures WaitOk(f, a - {q}, r) {
      SameWait(f, a, f, a - {q}, r);
    }
  }

  /** A child completes, and its parent does not wait for it. */
  lemma CompleteJoins(f: map<int, Tracker>, a: set<int>, q: int, v: Tracker)
    requires JoinsIn(f, a) && q in f && NotAwaited(f, q) && !f[q].waiting
    requires v == f[q].(task := NIL, status := v.status, returnValue := v.returnValue)
    ensures JoinsIn(f[q := v], a - {q})
  {
    forall r | r in f && f[r].waiting ensures WaitOk(f[q := v], a - {q}, r) {
      SameWait(f, a, f[q := v], a - {q}, r);
    }
  }

  /** A child completes and its parent stops waiting. */
  lemma ReleaseJoins(f: map<int, Tracker>, a: set<int>, q: int, v: Tracker)
    requires JoinsIn(f, a) && q in f && f[q].parent in f && f[q].parent != q && !f[q].waiting
    requires v == f[q].(task := NIL, status := v.status, returnValue := v.returnValue)
    ensures var p := f[q].parent;
            JoinsIn(f[q := v][p := f[p].(waiting := false)], a - {q})
  {
    var p := f[q].parent;
    var g := f[q := v][p := f[p].(waiting := false)];
    forall r | r in g && g[r].waiting ensures WaitOk(g, a - {q}, r) {
      SameWait(f, a, g, a - {q}, r);
    }
  }

  /** After the removal of a completed tracker its children hang from its parent, and only they have moved. */
  lemma ChildrenAfterReap(f: map<int, Tracker>, q: int, r: int, c: int)
    requires Rooted(f) && q in f && f[q].task == NIL && NoOrphans(f, q) && r in f && r != q && f[r].task != NIL
    ensures r in Reap(f, q) && Reap(f, q)[r] == f[r].(parent := Reap(f, q)[r].parent)
    ensures IsChild(Reap(f, q), r, c) <==> c != q && (IsChild(f, r, c) || (r == f[q].parent && IsChild(f, q, c)))
    ensures IsChild(Reap(f, q), r, c) ==> Reap(f, q)[c] == f[c].(parent := r)
  {
    ReapKeepsForest(f, q);
    assert !Doomed(f, q, r);
    if c in f && c != q && f[c].parent == r && r != NIL {
      assert !(f[q].parent == NIL && Doomed(f, q, c)) || Doomed(f, q, r);
    }
  }

  /** Removing a completed tracker nobody waits for. */
  lemma ReapJoins(f: map<int, Tracker>, a: set<int>, q: int)
    requires JoinsIn(f, a) && Rooted(f) && DistinctKeys(f) && NoOrphans(f, q)
    requires q in f && f[q].task == NIL && NotAwaited(f, q) && (forall c :: c in a ==> c in f && f[c].task != NIL)
    requires forall r :: r in f && f[r].waiting ==> f[r].task != NIL
    ensures JoinsIn(Reap(f, q), a)
  {
    var g := Reap(f, q);
    ReapKeepsForest(f, q);
    forall r | r in g && g[r].waiting ensures WaitOk(g, a, r) {
      forall c ensures IsChild(g, r, c) <==> c != q && (IsChild(f, r, c) || (r == f[q].parent && IsChild(f, q, c))) {
        ChildrenAfterReap(f, q, r, c);
      }
      KeyIsElsewhere(f, a, q, r);
      SameWait(f, a, g, a, r);
    }
  }

  /** A waiting tracker that does not wait for its child `q` does not wait for a child of `q` either. */
  lemma KeyIsElsewhere(f: map<int, Tracker>, a: set<int>, q: int, r: int)
    requires JoinsIn(f, a) && DistinctKeys(f) && Rooted(f) && q in f && NotAwaited(f, q) && r in f && f[r].waiting
    ensures r == f[q].parent ==> !Matches(f[r].waitTid, f[q].key)
    ensures r == f[q].parent ==> forall c :: IsChild(f, q, c) ==> !Matches(f[r].waitTid, f[c].key)
  {
    if r == f[q].parent {
      assert WaitOk(f, a, r);
      var w :| w in a && IsChild(f, r, w) && Matches(f[r].waitTid, f[w].key);
      forall c | IsChild(f, q, c) ensures !Matches(f[r].waitTid, f[c].key) {
        assert f[q].key < f[c].key && f[r].key < f[q].key;
      }
    }
  }

  /** A completed child of `q` that its parent's wait would have to notice. */
  ghost predicate LeavesDone(f: map<int, Tracker>, q: int)
    requires q in f && f[q].parent in f
  {
    exists d :: IsChild(f, q, d) && f[d].task == NIL && Matches(f[f[q].parent].waitTid, f[d].key)
  }

  /** A detached child that is awaited ends: the wait goes on, in order unless it inherits a completed child. */
  lemma LeaveJoins(f: map<int, Tracker>, a: set<int>, h: map<int, Tracker>, q: int)
    requires JoinsIn(f, a) && Rooted(f) && q in f && q !in a && !f[q].waiting && !NotAwaited(f, q)
    requires forall c :: c in a ==> c in f && f[c].task != NIL
    requires q in h && h == f[q := h[q]]
    requires h[q] == f[q].(task := NIL, status := h[q].status, returnValue := h[q].returnValue)
    requires Rooted(h) && NoOrphans(h, q) && forall r :: r in f && f[r].waiting ==> f[r].task != NIL
    ensures JoinsIn(Reap(h, q), a) <==> !LeavesDone(f, q)
  {
    hide Reap, Rooted, NoOrphans, HasDoneMatch, LeavesDone;
    var g, p := Reap(h, q), f[q].parent;
    LeaveChildren(f, h, q);
    forall r | r in f && f[r].waiting && r != p ensures WaitOk(g, a, r) {
      SameWait(f, a, g, a, r);
    }
    assert WaitOk(f, a, p);
    var w :| w in a && IsChild(f, p, w) && Matches(f[p].waitTid, f[w].key);
    assert IsChild(g, p, w) && HasWaker(g, a, p, f[p].waitTid);
    LeftDone(f, g, q);
  }

  /** The children of `q` become children of its parent, as far as waiting trackers can see. */
  lemma LeaveChildren(f: map<int, Tracker>, h: map<int, Tracker>, q: int)
    requires Rooted(f) && q in f && !f[q].waiting
    requires q in h && h == f[q := h[q]]
    requires h[q] == f[q].(task := NIL, status := h[q].status, returnValue := h[q].returnValue)
    requires Rooted(h) && NoOrphans(h, q) && forall r :: r in f && f[r].waiting ==> f[r].task != NIL
    ensures var g := Reap(h, q);
            && q !in g && f[q].parent != q && (forall c :: c in g ==> c in f && g[c] == f[c].(parent := g[c].parent))
            && (forall r :: r in f && f[r].waiting ==> r in g)
            && (forall r, c :: r in f && f[r].waiting ==>
                  (IsChild(g, r, c) <==> c != q && (IsChild(f, r, c) || (r == f[q].parent && IsChild(f, q, c)))))
  {
    var g, p := Reap(h, q), f[q].parent;
    ReapKeepsForest(h, q);
    forall r, c | r in f && f[r].waiting
      ensures r in g && (IsChild(g, r, c) <==> c != q && (IsChild(f, r, c) || (r == p && IsChild(f, q, c))))
    {
      ChildrenAfterReap(h, q, r, c);
    }
  }

  lemma LeftDone(f: map<int, Tracker>, g: map<int, Tracker>, q: int)
    requires q in f && f[q].parent in f && f[q].parent in g && g[f[q].parent].waitTid == f[f[q].parent].waitTid
    requires !HasDoneMatch(f, f[q].parent)
    requires forall c :: c in g ==> c in f && g[c].key == f[c].key && g[c].task == f[c].task
    requires forall c :: IsChild(g, f[q].parent, c) <==> c != q && (IsChild(f, f[q].parent, c) || IsChild(f, q, c))
    requires q !in g && f[q].parent != q
    ensures HasDoneMatch(g, f[q].parent) <==> LeavesDone(f, q)
  {
    var p := f[q].parent;
    if LeavesDone(f, q) {
      var d :| IsChild(f, q, d) && f[d].task == NIL && Matches(f[p].waitTid, f[d].key);
      assert IsChild(g, p, d);
    }
  }

  // ---------------------------------------------------------------------------------------------
  // Who is detached after a step

  /** No task's detached flag changes, except perhaps that of `t`. */
  ghost predicate FlagsStay(c: Core, d: Core, t: int) {
    |d.tasks| == |c.tasks| && forall u {:trigger d.tasks[u]} :: 0 <= u < |c.tasks| && u != t ==>
          d.tasks[u].detached == c.tasks[u].detached
  }

  lemma SwitchFlags(c: Core, h: int, now: nat)
    requires HartIndex(c, h) && SetNextRunnable(c, h, now).Run?
    ensures FlagsStay(c, SetNextRunnable(c, h, now).value, NIL)
  {
  }

  lemma {:induction false} ReleaseFlags(c: Core, h: int, now: nat)
    requires HartIndex(c, h) && ReleaseDue(c, h, now).Run?
    ensures FlagsStay(c, ReleaseDue(c, h, now).value, NIL)
    decreases |c.sleepers[h]|
  {
    var q := c.sleepers[h];
    if q != [] && c.tasks[q[0]].deadline <= now {
      var v := c.tasks[q[0]].(delayQueued := false, stateInfo := 0);
      ReleaseFlags(AddTask(SetTask(c, q[0], v).(sleepers := c.sleepers[h := q[1..]]), q[0]).value, h, now);
    }
  }

  lemma {:induction false} WakeAllFlags(c: Core, waiters: seq<int>)
    requires WakeAll(c, waiters).Run?
    ensures FlagsStay(c, WakeAll(c, waiters).value, NIL)
    decreases |waiters|
  {
    if waiters != [] {
      var v := A0(Unlinked(c.tasks[waiters[0]]), Errno(43));
      WakeAllFlags(AddTask(SetTask(c, waiters[0], v), waiters[0]).value, waiters[1..]);
    }
  }

  /** The calls that neither create, end nor detach a task. */
  lemma OtherCallsKeepFlags(k: Kernel, h: int, t: int, env: Env)
    requires HartIndex(k.core, h) && Slot(k.core, t) && Dispatch(k, h, t, env).Run?
    requires k.core.tasks[t].context.x[17] !in {1, 2, 4} && k.core.tasks[t].context.x[17] <= 12
    ensures FlagsStay(k.core, Dispatch(k, h, t, env).value.kernel.core, NIL)
  {
    hide HandleYield, HandleCreate, HandleExit, HandleWait, HandleSleep, HandleEndpointDestroy, HandleReceive;
    hide HandleSend, Lookup;
    match k.core.tasks[t].context.x[17] {
      case 0 => YieldFlags(k, h, t, env);
      case 3 => WaitFlags(k, h, t, env);
      case 5 => SleepFlags(k, h, t, env);
      case 7 => DestroyFlags(k, t);
      case 8 => SendFlags(k, t);
      case 10 => ReceiveFlags(k, h, t, env);
      case _ =>
    }
  }

  lemma YieldFlags(k: Kernel, h: int, t: int, env: Env)
    requires HartIndex(k.core, h) && Slot(k.core, t) && HandleYield(k, h, t, env).Run?
    ensures FlagsStay(k.core, HandleYield(k, h, t, env).value.kernel.core, NIL)
  {
    hide SetNextRunnable;
    SwitchFlags(ReturnRunnable(SetTask(k.core, t, A0(k.core.tasks[t], 0)), h).value, h, env.sliceNow);
  }

  lemma WaitFlags(k: Kernel, h: int, t: int, env: Env)
    requires HartIndex(k.core, h) && Slot(k.core, t) && HandleWait(k, h, t, env).Run?
    ensures FlagsStay(k.core, HandleWait(k, h, t, env).value.kernel.core, NIL)
  {
    hide WaitTask, Signed;
    var x := k.core.tasks[t].context.x;
    if x[11] == 0 && x[12] == 0 {
      JoinFlags(k, h, t, Signed(x[10]), env.pick, env.sliceNow);
    }
  }

  lemma JoinFlags(k: Kernel, h: int, t: int, tid: int, pick: int, now: nat)
    requires HartIndex(k.core, h) && Slot(k.core, t) && WaitTask(k, h, t, tid, pick, now).Run?
    ensures FlagsStay(k.core, WaitTask(k, h, t, tid, pick, now).value.kernel.core, NIL)
  {
    hide SetNextRunnable, RemoveTracker;
    var info := if tid < 0 then TWO64 + tid else tid;
    if info >= 0 {
      var c := SetTask(k.core, t, k.core.tasks[t].(state := BlockedJoin, stateInfo := info));
      if SetNextRunnable(c, h, now).Run? {
        SwitchFlags(c, h, now);
      }
    }
  }

  lemma SleepFlags(k: Kernel, h: int, t: int, env: Env)
    requires HartIndex(k.core, h) && Slot(k.core, t) && HandleSleep(k, h, t, env).Run?
    ensures FlagsStay(k.core, HandleSleep(k, h, t, env).value.kernel.core, NIL)
  {
    hide DurationToTicks, SetNextRunnable, InsertSleeper;
    var v := k.core.tasks[t];
    var ticks := DurationToTicks(v.context.x[10], v.context.x[11]);
    if HartIndex(k.core, v.cpu) {
      var c := DelayUntil(SetTask(k.core, t, A0(v, 0)), t, env.now + ticks);
      if SetNextRunnable(c, h, env.sliceNow).Run? {
        SwitchFlags(c, h, env.sliceNow);
      }
    }
  }

  lemma DestroyFlags(k: Kernel, t: int)
    requires Slot(k.core, t) && HandleEndpointDestroy(k, t).Run?
    ensures FlagsStay(k.core, HandleEndpointDestroy(k, t).value.kernel.core, NIL)
  {
    hide WakeAll;
    var i := FromRaw(k.core.tasks[t].context.x[10]).index;
    if i < |k.endpoints| && WakeAll(k.core, k.endpoints[i].waiters).Run? {
      WakeAllFlags(k.core, k.endpoints[i].waiters);
    }
  }

  lemma SendFlags(k: Kernel, t: int)
    requires Slot(k.core, t) && HandleSend(k, t).Run?
    ensures FlagsStay(k.core, HandleSend(k, t).value.kernel.core, NIL)
  {
    hide Lookup;
  }

  lemma ReceiveFlags(k: Kernel, h: int, t: int, env: Env)
    requires HartIndex(k.core, h) && Slot(k.core, t) && HandleReceive(k, h, t, env).Run?
    ensures FlagsStay(k.core, HandleReceive(k, h, t, env).value.kernel.core, NIL)
  {
    hide SetNextRunnable;
    var v, raw := k.core.tasks[t], k.core.tasks[t].context.x[10];
    var c := SetTask(k.core, t, v.(messageQueued := true, state := BlockedMessage, stateInfo := raw));
    if SetNextRunnable(c, h, env.sliceNow).Run? {
      SwitchFlags(c, h, env.sliceNow);
    }
  }

  /** Live trackers with the same tasks, and tasks with the same flags, attend alike. */
  lemma SameAttached(k: Kernel, l: Kernel)
    requires FlagsStay(k.core, l.core, NIL)
    requires (forall c :: c in l.trackers ==> c in k.trackers && l.trackers[c].task == k.trackers[c].task)
    requires forall c :: c in k.trackers && k.trackers[c].task != NIL ==> c in l.trackers
    ensures Attached(l) == Attached(k)
  {
    assert forall c :: Attends(l, c) <==> Attends(k, c);
  }

  // ---------------------------------------------------------------------------------------------
  // The steps that can lose a wakeup, by what is known before they are taken

  /** A task detaches while its parent waits for it and no other child can end that wait. */
  ghost predicate DetachLoses(k: Kernel, t: int)
    requires Slot(k.core, t)
  {
    var q := k.core.tasks[t].tracker;
    && q in k.trackers && !NotAwaited(k.trackers, q)
    && var p := k.trackers[q].parent;
       !HasWaker(k.trackers, Attached(k) - {q}, p, k.trackers[p].waitTid)
  }

  /** A wait blocks although every live child it could be for is detached. */
  ghost predicate WaitLoses(k: Kernel, t: int, x: Regs, pick: int)
    requires Slot(k.core, t)
  {
    && x[11] == 0 && x[12] == 0 && pick in k.trackers && k.trackers[pick].task != NIL
    && !HasWaker(k.trackers, Attached(k), k.core.tasks[t].tracker, Signed(x[10]))
  }

  /** A detached task ends while its parent waits for it, and leaves that parent a completed child it waits for. */
  ghost predicate EndLoses(k: Kernel, t: int)
    requires Slot(k.core, t)
  {
    var v := k.core.tasks[t];
    v.detached && v.tracker in k.trackers && !NotAwaited(k.trackers, v.tracker) && LeavesDone(k.trackers, v.tracker)
  }

  ghost predicate CallLoses(k: Kernel, t: int, x: Regs, pick: int)
    requires Slot(k.core, t)
  {
    match x[17]
    case 2 => EndLoses(k, t)
    case 3 => WaitLoses(k, t, x, pick)
    case 4 => DetachLoses(k, t)
    case _ => false
  }

  ghost predicate Loses(k: Kernel, e: Event)
    requires Legal(k, e)
  {
    e.Syscall? && CallLoses(k, k.core.harts[e.hart].current, e.frame.x, e.env.pick)
  }

  // ---------------------------------------------------------------------------------------------
  // System calls

  /** What the joins need of the invariant. */
  lemma TrackerFacts(k: Kernel)
    requires TrackersOk(k)
    ensures Rooted(k.trackers) && DistinctKeys(k.trackers) && NoOrphans(k.trackers, NIL)
    ensures forall r :: r in k.trackers && k.trackers[r].waiting ==> k.trackers[r].task != NIL
    ensures forall r :: r in k.trackers && k.trackers[r].task != NIL ==>
              && Slot(k.core, k.trackers[r].task) && k.core.tasks[k.trackers[r].task].tracker == r
              && k.trackers[r].task < |k.used| && k.used[k.trackers[r].task]
    ensures forall r :: r in Attached(k) ==> r in k.trackers && k.trackers[r].task != NIL
  {
    assert forall r :: r in k.trackers ==> TrackerOk(k, r);
  }

  lemma CallerTracker(k: Kernel, h: int, t: int)
    requires Inv(k) && Current(k, h, t) && !k.core.tasks[t].idle
    ensures OwnsTracker(k, t) && !k.trackers[k.core.tasks[t].tracker].waiting && TrackersOk(k)
  {
    CurrentIsRunning(k, h, t);
    assert OwnsTracker(k, t) && TrackerOk(k, k.core.tasks[t].tracker);
  }

  /** A new task attends, and the others as before. */
  lemma AdoptedAttached(k: Kernel, l: Kernel, r: int, v: Tracker)
    requires TrackersOk(k) && r !in k.trackers && l.trackers == k.trackers[r := v] && v.task != NIL
    requires FlagsStay(k.core, l.core, v.task)
    requires Slot(l.core, v.task) && !l.core.tasks[v.task].detached && v.task < |k.used| && !k.used[v.task]
    ensures Attached(l) == Attached(k) + {r}
  {
    TrackerFacts(k);
    assert forall c :: Attends(l, c) <==> Attends(k, c) || c == r;
  }

  /** What a create call does to the trackers: nothing, or one new tracker under the caller's. */
  lemma CreateEffect(k: Kernel, h: int, t: int, env: Env) returns (made: bool, q: int, v: Tracker)
    requires HartIndex(k.core, h) && Slot(k.core, t) && HandleCreate(k, h, t, env).Run?
    ensures var l := HandleCreate(k, h, t, env).value.kernel;
            if !made then l.trackers == k.trackers && FlagsStay(k.core, l.core, NIL) && l.nextTid == k.nextTid
            else
              && q !in k.trackers && v == Tracker(k.core.tasks[t].tracker, k.nextTid, v.task, Alive, 0, false, 0)
              && l.trackers == k.trackers[q := v] && l.nextTid == k.nextTid + 1 && FlagsStay(k.core, l.core, v.task)
              && Slot(l.core, v.task) && !l.core.tasks[v.task].detached && v.task < |k.used| && !k.used[v.task]
  {
    hide FreeIndex, FreeTracker, SpawnContext;
    var i, r := FreeIndex(k.used), FreeTracker(k.trackers, k.trackerSlots, 0);
    made := env.entryOk && env.stackOk && i < |k.used| && r < k.trackerSlots && Slot(k.core, i);
    q, v := r, Tracker(k.core.tasks[t].tracker, k.nextTid, i, Alive, 0, false, 0);
  }

  lemma CreateJoins(k: Kernel, h: int, t: int, env: Env)
    requires Inv(k) && Current(k, h, t) && !k.core.tasks[t].idle && JoinsOk(k)
    requires HandleCreate(k, h, t, env).Run?
    ensures JoinsOk(HandleCreate(k, h, t, env).value.kernel)
  {
    hide Inv, TrackersOk, JoinsIn, HandleCreate;
    CallerTracker(k, h, t);
    TrackerFacts(k);
    var made, q, v := CreateEffect(k, h, t, env);
    var l := HandleCreate(k, h, t, env).value.kernel;
    if made {
      AdoptJoins(k.trackers, Attached(k), q, v);
      AdoptedAttached(k, l, q, v);
    } else {
      SameAttached(k, l);
    }
  }

  lemma WaitJoins(k: Kernel, h: int, t: int, env: Env)
    requires Inv(k) && Current(k, h, t) && !k.core.tasks[t].idle && JoinsOk(k)
    requires ChildFound(k.trackers, k.core.tasks[t].tracker, Signed(k.core.tasks[t].context.x[10]), env.pick)
    requires HandleWait(k, h, t, env).Run?
    ensures JoinsOk(HandleWait(k, h, t, env).value.kernel) <==> !WaitLoses(k, t, k.core.tasks[t].context.x, env.pick)
  {
    hide Inv, TrackersOk, JoinsIn, Reap, CrashedOrphan, SetNextRunnable;
    CallerTracker(k, h, t);
    TrackerFacts(k);
    WaitFlags(k, h, t, env);
    var f, r, x, pick := k.trackers, k.core.tasks[t].tracker, k.core.tasks[t].context.x, env.pick;
    var l := HandleWait(k, h, t, env).value.kernel;
    if x[11] != 0 || x[12] != 0 || pick == NIL {
      SameAttached(k, l);
    } else if f[pick].task == NIL {
      ReapJoins(f, Attached(k), pick);
      ReapKeepsForest(f, pick);
      SameAttached(k, l);
    } else {
      BlockJoins(f, Attached(k), r, Signed(x[10]), pick);
      assert l.trackers == f[r := f[r].(waiting := true, waitTid := Signed(x[10]))];
      SameAttached(k, l);
    }
  }

  lemma DetachCallJoins(k: Kernel, h: int, t: int)
    requires Inv(k) && Current(k, h, t) && !k.core.tasks[t].idle && JoinsOk(k)
    ensures JoinsOk(HandleDetach(k, t).kernel) <==> !DetachLoses(k, t)
  {
    hide Inv, TrackersOk, JoinsIn, HasWaker;
    CallerIsRunning(k, h, t);
    CallerTracker(k, h, t);
    TrackerFacts(k);
    var q, l := k.core.tasks[t].tracker, HandleDetach(k, t).kernel;
    DetachJoins(k.trackers, Attached(k), q);
    assert forall c :: Attends(l, c) <==> Attends(k, c) && c != q;
    assert Attached(l) == Attached(k) - {q};
  }

  /** The completed tracker of the dead task, before it is reaped. */
  lemma InterredFacts(k: Kernel, t: int, returnValue: nat, status: ExitStatus)
      returns (f: map<int, Tracker>, q: int, v: Tracker)
    requires status != Alive && Dead(k, t)
    ensures OwnsTracker(k, t) && q == k.core.tasks[t].tracker && f == Interred(k, t, returnValue, status).trackers
    ensures v == f[q] == k.trackers[q].(task := NIL, status := v.status, returnValue := v.returnValue)
    ensures f == k.trackers[q := v] && !k.trackers[q].waiting
    ensures Rooted(k.trackers) && DistinctKeys(k.trackers) && Rooted(f) && DistinctKeys(f) && NoOrphans(f, q)
    ensures forall r :: r in k.trackers && k.trackers[r].waiting ==> k.trackers[r].task != NIL && r != q
  {
    DeadOwnsTracker(k, t);
    InterKeeps(k, t, returnValue, status);
    q := k.core.tasks[t].tracker;
    f := Interred(k, t, returnValue, status).trackers;
    v := f[q];
    assert forall r :: r in k.trackers ==> TrackerOk(k, r);
  }

  /** Reporting to the parent, or to nobody, keeps the joins in order, with one exception. */
  lemma BuryJoins(k: Kernel, t: int, returnValue: nat, status: ExitStatus)
    requires status != Alive && Dead(k, t) && JoinsOk(k) && OwnsTracker(k, t) && Rooted(k.trackers)
    requires |k.used| == |k.core.tasks|
    ensures var a := Attached(k) - {k.core.tasks[t].tracker};
            JoinsIn(BuriedTrackers(k, t, returnValue, status), a) <==> !EndLoses(k, t)
  {
    hide Dead, Interred, JoinsIn, Reap, LeavesDone;
    DeadOwnsTracker(k, t);
    var f, q, v := InterredFacts(k, t, returnValue, status);
    var a := Attached(k);
    DeadAttached(k, t);
    if NotAwaited(k.trackers, q) {
      CompleteJoins(k.trackers, a, q, v);
      ReapJoins(f, a - {q}, q);
    } else if k.core.tasks[t].detached {
      assert a - {q} == a;
      LeaveJoins(k.trackers, a, f, q);
    } else {
      ReleaseJoins(k.trackers, a, q, v);
      var p := f[q].parent;
      ReapJoins(f[p := f[p].(waiting := false)], a - {q}, q);
    }
  }

  lemma DeadAttached(k: Kernel, t: int)
    requires Dead(k, t) && OwnsTracker(k, t)
    ensures forall c :: c in Attached(k) ==> c in k.trackers && k.trackers[c].task != NIL
    ensures k.core.tasks[t].tracker in Attached(k) <==> !k.core.tasks[t].detached
  {
    TrackerFacts(k);
  }

  /** Every other live tracker attends as before when a task is buried. */
  lemma BuriedAttached(k: Kernel, t: int, returnValue: nat, status: ExitStatus, l: Kernel)
    requires status != Alive && Dead(k, t) && OwnsTracker(k, t) && Rooted(k.trackers) && |k.used| == |k.core.tasks|
    requires l.trackers == BuriedTrackers(k, t, returnValue, status) && FlagsStay(k.core, l.core, t)
    ensures Attached(l) == Attached(k) - {k.core.tasks[t].tracker}
  {
    hide Dead, Interred, Rooted, NoOrphans, DistinctKeys, BuriedTrackers;
    DeadOwnsTracker(k, t);
    DeadAttached(k, t);
    var f, q, v := InterredFacts(k, t, returnValue, status);
    BuriedSurvivors(k, t, returnValue, status, f, q);
    forall c ensures Attends(l, c) <==> Attends(k, c) && c != q {
      if c in k.trackers && k.trackers[c].task != NIL && c != q {
        LiveTask(k, t, c);
      }
    }
  }

  lemma LiveTask(k: Kernel, t: int, c: int)
    requires Dead(k, t) && c in k.trackers && k.trackers[c].task != NIL && Slot(k.core, t)
    requires c != k.core.tasks[t].tracker
    ensures Slot(k.core, k.trackers[c].task) && k.trackers[c].task != t
  {
    TrackerFacts(k);
  }

  lemma BuriedSurvivors(k: Kernel, t: int, returnValue: nat, status: ExitStatus, f: map<int, Tracker>, q: int)
    requires Dead(k, t) && OwnsTracker(k, t) && Rooted(k.trackers) && |k.used| == |k.core.tasks|
    requires q == k.core.tasks[t].tracker && f == Interred(k, t, returnValue, status).trackers
    requires Rooted(f) && NoOrphans(f, q) && q in f && f[q].task == NIL
    ensures var g := BuriedTrackers(k, t, returnValue, status);
            && (forall c :: c in g ==> c in f && g[c].task == f[c].task)
            && (forall c :: c in f && f[c].task != NIL ==> c in g && g[c].task == f[c].task)
  {
    hide Dead, Interred;
    DeadOwnsTracker(k, t);
    var p := f[q].parent;
    if k.core.tasks[t].detached || p == NIL {
      ReapKeepsForest(f, q);
    } else if f[p].waiting && Matches(f[p].waitTid, k.core.tasks[t].tid) {
      ReapKeepsForest(f[p := f[p].(waiting := false)], q);
    }
  }

  lemma BuryFlags(k: Kernel, t: int, returnValue: nat, status: ExitStatus)
    requires Bury(k, t, returnValue, status).Run?
    ensures FlagsStay(k.core, Bury(k, t, returnValue, status).value.core, t)
  {
    hide Reap, CrashedOrphan;
  }

  lemma ExitJoins(k: Kernel, h: int, t: int, rv: nat, status: ExitStatus, env: Env)
    requires status != Alive && Inv(k) && Current(k, h, t) && !k.core.tasks[t].idle && JoinsOk(k)
    requires !ExitStops(k, t, status)
    ensures HandleExit(k, h, t, rv, status, env).Run?
    ensures JoinsOk(HandleExit(k, h, t, rv, status, env).value.kernel) <==> !EndLoses(k, t)
  {
    hide Inv, Dead, JoinsIn, Bury, SetNextRunnable, LeavesDone, CrashedOrphan;
    CallerTracker(k, h, t);
    var m := SetTask(k.core, t, k.core.tasks[t].(state := Ended));
    var n := DeadAfterSwitch(k, h, t, env.sliceNow);
    SwitchFlags(m, h, env.sliceNow);
    SameAttached(k, n);
    DeadOwnsTracker(n, t);
    BuryJoins(n, t, rv, status);
    var l := BuryStep(n, t, rv, status);
    BuryFlags(n, t, rv, status);
    BuriedAttached(n, t, rv, status, l);
  }

  lemma OtherCallsKeepTrackers(k: Kernel, h: int, t: int, env: Env)
    requires HartIndex(k.core, h) && Slot(k.core, t) && Dispatch(k, h, t, env).Run?
    requires k.core.tasks[t].context.x[17] !in {1, 2, 3} && k.core.tasks[t].context.x[17] <= 12
    ensures Dispatch(k, h, t, env).value.kernel.trackers == k.trackers
  {
  }

  /** Arming the timer and switching tasks leave the trackers alone: only the call itself changes them. */
  lemma TrackersAfterStep(k: Kernel, e: Event)
    requires HartIndex(k.core, e.hart) && Machine.Next(k, e).Run?
    ensures e.Syscall? ==>
              var t := k.core.harts[e.hart].current;
              && Slot(k.core, t)
              && var r := Dispatch(k.(core := SetTask(k.core, t, Entered(k.core.tasks[t], e.frame))), e.hart, t, e.env);
                 r.Run? && Machine.Next(k, e).value.trackers == r.value.kernel.trackers
    ensures !e.Syscall? ==> Machine.Next(k, e).value.trackers == k.trackers
  {
    hide Dispatch, Arm, ReleaseDue, ReturnRunnable, SetNextRunnable;
  }

  /** Arming, dispatching and waking keep the flags too. */
  lemma FlagsAfterStep(k: Kernel, e: Event)
    requires HartIndex(k.core, e.hart) && Machine.Next(k, e).Run?
    ensures e.Syscall? ==>
              var t := k.core.harts[e.hart].current;
              && Slot(k.core, t)
              && var r := Dispatch(k.(core := SetTask(k.core, t, Entered(k.core.tasks[t], e.frame))), e.hart, t, e.env);
                 r.Run? && FlagsStay(r.value.kernel.core, Machine.Next(k, e).value.core, NIL)
    ensures !e.Syscall? ==> FlagsStay(k.core, Machine.Next(k, e).value.core, NIL)
  {
    hide Dispatch, ReleaseDue, SetNextRunnable;
    if e.Start? {
      SwitchFlags(k.core, e.hart, e.env.sliceNow);
    } else if e.Timer? {
      var t := k.core.harts[e.hart].current;
      var c := SetTask(k.core, t, Save(k.core.tasks[t], e.frame));
      ReleaseFlags(c, e.hart, e.env.now);
      SwitchFlags(ReturnRunnable(ReleaseDue(c, e.hart, e.env.now).value, e.hart).value, e.hart, e.env.sliceNow);
    }
  }

  /** From joins in order, a call leaves them in order exactly when it is not one of the losing ones. */
  lemma CallJoins(k: Kernel, h: int, t: int, env: Env)
    requires Inv(k) && Current(k, h, t) && JoinsOk(k) && Dispatch(k, h, t, env).Run?
    requires var x := k.core.tasks[t].context.x;
             && !CallStops(k, t, x[17]) && (k.core.tasks[t].idle ==> x[17] == 0)
             && (x[17] == 3 ==> ChildFound(k.trackers, k.core.tasks[t].tracker, Signed(x[10]), env.pick))
    ensures JoinsOk(Dispatch(k, h, t, env).value.kernel) <==> !CallLoses(k, t, k.core.tasks[t].context.x, env.pick)
  {
    hide Inv, JoinsIn, Attached, WaitLoses, DetachLoses, HandleCreate, HandleExit, HandleWait, CrashedOrphan;
    hide LeavesDone;
    var x := k.core.tasks[t].context.x;
    match x[17]
    case 1 => CreateJoins(k, h, t, env);
    case 2 => ExitJoins(k, h, t, x[10], ExitedClean, env);
    case 3 => WaitJoins(k, h, t, env);
    case 4 => DetachCallJoins(k, h, t);
    case _ =>
      if x[17] > 12 {
        CallerTracker(k, h, t);
        ExitJoins(k, h, t, 0, Crashed, env);
      } else {
        OtherCallsKeepTrackers(k, h, t, env);
        OtherCallsKeepFlags(k, h, t, env);
        SameAttached(k, Dispatch(k, h, t, env).value.kernel);
      }
  }

  /** The guards read nothing that trap entry writes. */
  lemma EnterJoins(k: Kernel, l: Kernel, t: int, x: Regs, pick: int)
    requires Slot(k.core, t) && Slot(l.core, t) && l == k.(core := SetTask(k.core, t, l.core.tasks[t]))
    requires l.core.tasks[t].detached == k.core.tasks[t].detached && l.core.tasks[t].tracker == k.core.tasks[t].tracker
    ensures Attached(l) == Attached(k) && (CallLoses(l, t, x, pick) <==> CallLoses(k, t, x, pick))
  {
    SameAttached(k, l);
  }

  /** From joins in order, a step of the kernel leaves them in order exactly when it is not one of the losing ones. */
  lemma StepJoins(k: Kernel, e: Event)
    requires Inv(k) && Legal(k, e) && JoinsOk(k)
    ensures Machine.Next(k, e).Run?
    ensures JoinsOk(Machine.Next(k, e).value) <==> !Loses(k, e)
  {
    hide Inv, Machine.Next, JoinsIn, Attached, CallLoses;
    StepKeeps(k, e);
    TrackersAfterStep(k, e);
    FlagsAfterStep(k, e);
    var n := Machine.Next(k, e).value;
    if e.Syscall? {
      var t := k.core.harts[e.hart].current;
      var l := EnterStep(k, e.hart, e.frame);
      EnterJoins(k, l, t, e.frame.x, e.env.pick);
      CallJoins(l, e.hart, t, e.env);
      SameAttached(Dispatch(l, e.hart, t, e.env).value.kernel, n);
      SameGuard(l, t, e.frame.x, l.core.tasks[t].context.x, e.env.pick);
    } else {
      SameAttached(k, n);
    }
  }

  /** The guards read five registers. */
  lemma SameGuard(k: Kernel, t: int, x: Regs, y: Regs, pick: int)
    requires Slot(k.core, t) && x[10] == y[10] && x[11] == y[11] && x[12] == y[12] && x[17] == y[17]
    ensures CallLoses(k, t, x, pick) <==> CallLoses(k, t, y, pick)
  {
  }

  // ---------------------------------------------------------------------------------------------
  // Runs

  /** A run without a losing step. */
  ghost predicate IsJoinRun(ks: seq<Kernel>, es: seq<Event>) {
    Runs.IsRun(ks, es) && forall i :: 0 <= i < |es| ==> !Loses(ks[i], es[i])
  }

  lemma BootJoins(k: Kernel)
    requires Booted(k)
    ensures JoinsOk(k)
  {
  }

  lemma JoinStepInRun(ks: seq<Kernel>, es: seq<Event>, n: nat)
    requires Runs.IsRun(ks, es) && n < |es| && |ks| == |es| + 1 && JoinsOk(ks[n])
    ensures Legal(ks[n], es[n]) && (JoinsOk(ks[n + 1]) <==> !Loses(ks[n], es[n]))
  {
    hide Runs.IsRun, Inv, Legal, Machine.Next, JoinsOk, Loses;
    RunStep(ks, es, n);
    StepJoins(ks[n], es[n]);
  }

  lemma JoinRunShape(ks: seq<Kernel>, es: seq<Event>)
    requires Runs.IsRun(ks, es)
    ensures |ks| == |es| + 1 && Booted(ks[0]) && forall i :: 0 <= i < |es| ==> Legal(ks[i], es[i])
  {
  }

  /** Up to any point of a run, the joins are in order in every state exactly when no step was a losing one. */
  lemma {:induction false} JoinRunsAreExact(ks: seq<Kernel>, es: seq<Event>, n: nat)
    requires Runs.IsRun(ks, es) && n <= |es|
    ensures (forall i :: 0 <= i <= n ==> JoinsOk(ks[i])) <==> (forall i :: 0 <= i < n ==> !Loses(ks[i], es[i]))
  {
    hide Runs.IsRun, JoinsOk, Loses, Booted, Legal;
    JoinRunShape(ks, es);
    if n == 0 {
      BootJoins(ks[0]);
    } else {
      JoinRunsAreExact(ks, es, n - 1);
      if JoinsOk(ks[n - 1]) {
        JoinStepInRun(ks, es, n - 1);
      }
    }
  }

  /**
   * No lost join wakeup: in every state of a run without a losing step, an active wait belongs to a live task blocked
   * in the join, has a live child that is not detached and will end it, and no completed child that should have.
   */
  lemma NoLostJoin(ks: seq<Kernel>, es: seq<Event>, n: nat, r: int)
    requires IsJoinRun(ks, es) && n <= |es| && r in ks[n].trackers && ks[n].trackers[r].waiting
    ensures JoinerOk(ks[n], r) && !HasDoneMatch(ks[n].trackers, r)
    ensures exists c ::
              && IsChild(ks[n].trackers, r, c) && Attends(ks[n], c)
              && Matches(ks[n].trackers[r].waitTid, ks[n].trackers[c].key)
  {
    RunsKeepInv(ks, es, n);
    JoinRunsAreExact(ks, es, n);
    assert TrackerOk(ks[n], r);
    assert WaitOk(ks[n].trackers, Attached(ks[n]), r);
  }

  /** A tracker that waits belongs to a live task that is blocked in the join. */
  ghost predicate JoinerOk(k: Kernel, r: int)
    requires r in k.trackers
  {
    var t := k.trackers[r].task;
    Slot(k.core, t) && k.core.tasks[t].state == BlockedJoin && k.core.tasks[t].tracker == r
  }

  /** The exit of an awaited child readies its parent, with the child's id in `a0`, and ends the wait. */
  lemma ExitWakesParent(k: Kernel, h: int, t: int, rv: nat, status: ExitStatus, env: Env)
    requires status != Alive && Inv(k) && Current(k, h, t) && !k.core.tasks[t].idle && !k.core.tasks[t].detached
    requires k.core.tasks[t].tracker in k.trackers && !NotAwaited(k.trackers, k.core.tasks[t].tracker)
    ensures HandleExit(k, h, t, rv, status, env).Run?
    ensures var q := k.core.tasks[t].tracker;
            var p := k.trackers[q].parent;
            var w, l := k.trackers[p].task, HandleExit(k, h, t, rv, status, env).value.kernel;
            && Slot(l.core, w) && l.core.tasks[w].state == Ready && l.core.tasks[w].context.x[10] == k.core.tasks[t].tid
            && l.core.runQueue != [] && l.core.runQueue[|l.core.runQueue| - 1] == w
            && p in l.trackers && !l.trackers[p].waiting && q !in l.trackers
  {
    hide Inv, Dead, SetNextRunnable, Reap;
    var n := DeadAfterSwitch(k, h, t, env.sliceNow);
    DeadOwnsTracker(n, t);
    var q := k.core.tasks[t].tracker;
    var p := k.trackers[q].parent;
    JoinerIsBlocked(n, t, p);
    var l := BuryAndWake(n, t, rv, status, p);
    assert HandleExit(k, h, t, rv, status, env) == Run(Handled(l, true));
    var f := Interred(n, t, rv, status).trackers;
    TargetParentSurvives(f[p := f[p].(waiting := false)], q);
  }

  lemma TargetParentSurvives(f: map<int, Tracker>, q: int)
    requires q in f && f[q].parent in f && f[q].parent != q && NIL !in f
    ensures q !in Reap(f, q) && f[q].parent in Reap(f, q)
    ensures Reap(f, q)[f[q].parent].waiting == f[f[q].parent].waiting
  {
  }

}
