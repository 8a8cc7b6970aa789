/** Waits that never end, and the shortest run into one. */
module LostJoins {
  import opened Base
  import opened IpcModel
  import opened Machine
  import opened Placement
  import opened Forest
  import opened Runs
  import opened Joins

  /**
   * Nothing can end the wait of `r`: no child that it waits for is live, except perhaps the one it names, which is
   * detached, and no other tracker has or will have that name.
   */
  ghost predicate StrandedIn(f: map<int, Tracker>, a: set<int>, r: int, nextTid: nat) {
    && r in f && f[r].waiting && f[r].task != NIL && f[r].waitTid < nextTid
    && (forall c :: c in f && f[c].key == f[r].waitTid ==> f[c].parent == r)
    && (forall c :: IsChild(f, r, c) && f[c].task != NIL && Matches(f[r].waitTid, f[c].key) ==>
          f[r].waitTid >= 0 && c !in a)
  }

  ghost predicate Stranded(k: Kernel, r: int) { StrandedIn(k.trackers, Attached(k), r, k.nextTid) }

  lemma AdoptStrands(f: map<int, Tracker>, a: set<int>, r: int, n: nat, q: int, v: Tracker)
    requires StrandedIn(f, a, r, n) && q !in f && v.key == n && v.parent != r && Rooted(f)
    ensures StrandedIn(f[q := v], a + {q}, r, n + 1)
  {
  }

  lemma BlockStrands(f: map<int, Tracker>, a: set<int>, r: int, n: nat, s: int, tid: int)
    requires StrandedIn(f, a, r, n) && s in f && s != r
    ensures StrandedIn(f[s := f[s].(waiting := true, waitTid := tid)], a, r, n)
  {
    var g := f[s := f[s].(waiting := true, waitTid := tid)];
    assert forall c :: IsChild(g, r, c) <==> IsChild(f, r, c);
  }

  /** A completed tracker is removed that no live child of `r` hangs from, or whose children have other names. */
  lemma ReapStrands(f: map<int, Tracker>, a: set<int>, r: int, n: nat, q: int)
    requires StrandedIn(f, a, r, n) && Rooted(f) && q in f && f[q].task == NIL && NoOrphans(f, q) && r != q
    requires f[q].parent == r ==> f[r].waitTid >= 0
    ensures StrandedIn(Reap(f, q), a, r, n)
  {
    var g := Reap(f, q);
    ReapKeepsForest(f, q);
    forall c ensures IsChild(g, r, c) <==> c != q && (IsChild(f, r, c) || (r == f[q].parent && IsChild(f, q, c))) {
      ChildrenAfterReap(f, q, r, c);
    }
    assert r in g && g[r] == f[r].(parent := g[r].parent) by { ChildrenAfterReap(f, q, r, r); }
    forall c | c in g && g[c].key == g[r].waitTid ensures g[c].parent == r {
      assert IsChild(f, r, c) && IsChild(g, r, c);
    }
  }

  lemma CompleteStrands(f: map<int, Tracker>, a: set<int>, r: int, n: nat, q: int, v: Tracker)
    requires StrandedIn(f, a, r, n) && q in f && q != r
    requires v == f[q].(task := NIL, status := v.status, returnValue := v.returnValue)
    ensures StrandedIn(f[q := v], a - {q}, r, n)
  {
    assert forall c :: IsChild(f[q := v], r, c) <==> IsChild(f, r, c);
  }

  /** The exit of a task never ends a stranded wait. */
  lemma BuryStrands(k: Kernel, t: int, returnValue: nat, status: ExitStatus, r: int)
    requires status != Alive && Dead(k, t) && Stranded(k, r)
    requires OwnsTracker(k, t) && Rooted(k.trackers) && |k.used| == |k.core.tasks|
    ensures var a := Attached(k) - {k.core.tasks[t].tracker};
            StrandedIn(BuriedTrackers(k, t, returnValue, status), a, r, k.nextTid)
  {
    hide Dead, Interred, Reap, StrandedIn, DistinctKeys;
    DeadOwnsTracker(k, t);
    var f, q, v := InterredFacts(k, t, returnValue, status);
    var a := Attached(k);
    DeadAttached(k, t);
    StrandedParent(k, t, r);
    CompleteStrands(k.trackers, a, r, k.nextTid, q, v);
    var p := f[q].parent;
    if k.core.tasks[t].detached || p == NIL {
      ReapStrands(f, a - {q}, r, k.nextTid, q);
    } else if f[p].waiting && Matches(f[p].waitTid, k.core.tasks[t].tid) {
      var g := f[p := f[p].(waiting := false)];
      UnwaitStrands(f, a - {q}, r, k.nextTid, p);
      ReapStrands(g, a - {q}, r, k.nextTid, q);
    }
  }

  lemma UnwaitStrands(f: map<int, Tracker>, a: set<int>, r: int, n: nat, p: int)
    requires StrandedIn(f, a, r, n) && p in f && p != r
    ensures StrandedIn(f[p := f[p].(waiting := false)], a, r, n)
  {
    assert forall c :: IsChild(f[p := f[p].(waiting := false)], r, c) <==> IsChild(f, r, c);
  }

  /** A dead task is not the stranded one, nor a child whose exit it would notice. */
  lemma StrandedParent(k: Kernel, t: int, r: int)
    requires Dead(k, t) && Stranded(k, r) && Slot(k.core, t) && OwnsTracker(k, t)
    ensures var q := k.core.tasks[t].tracker;
            && q != r && (k.trackers[q].parent == r ==> k.trackers[r].waitTid >= 0)
            && (k.trackers[q].parent == r && Matches(k.trackers[r].waitTid, k.core.tasks[t].tid) ==>
                  k.core.tasks[t].detached)
  {
    DeadAttached(k, t);
    TrackerFacts(k);
    assert TrackerOk(k, r);
  }

  // ---------------------------------------------------------------------------------------------
  // Steps

  lemma TidsGrow(k: Kernel, h: int, t: int, env: Env)
    requires HartIndex(k.core, h) && Slot(k.core, t) && Dispatch(k, h, t, env).Run?
    ensures Dispatch(k, h, t, env).value.kernel.nextTid == k.nextTid || k.core.tasks[t].context.x[17] == 1
  {
    hide Reap, CrashedOrphan, SetNextRunnable, WakeAll, InsertSleeper, DurationToTicks;
  }

  lemma TidsAfterStep(k: Kernel, e: Event)
    requires HartIndex(k.core, e.hart) && Machine.Next(k, e).Run?
    ensures e.Syscall? ==>
              var t := k.core.harts[e.hart].current;
              && Slot(k.core, t)
              && var r := Dispatch(k.(core := SetTask(k.core, t, Entered(k.core.tasks[t], e.frame))), e.hart, t, e.env);
                 r.Run? && Machine.Next(k, e).value.nextTid == r.value.kernel.nextTid
    ensures !e.Syscall? ==> Machine.Next(k, e).value.nextTid == k.nextTid
  {
    hide Dispatch, Arm, ReleaseDue, ReturnRunnable, SetNextRunnable;
  }

  lemma CreateStrands(k: Kernel, h: int, t: int, env: Env, r: int)
    requires Inv(k) && Current(k, h, t) && !k.core.tasks[t].idle && Stranded(k, r) && HandleCreate(k, h, t, env).Run?
    ensures Stranded(HandleCreate(k, h, t, env).value.kernel, r)
  {
    hide Inv, TrackersOk, StrandedIn, HandleCreate;
    CallerTracker(k, h, t);
    TrackerFacts(k);
    StrandedWaits(k, r);
    var made, q, v := CreateEffect(k, h, t, env);
    var l := HandleCreate(k, h, t, env).value.kernel;
    if made {
      AdoptStrands(k.trackers, Attached(k), r, k.nextTid, q, v);
      AdoptedAttached(k, l, q, v);
    } else {
      SameAttached(k, l);
    }
  }

  lemma StrandedWaits(k: Kernel, r: int)
    requires Stranded(k, r)
    ensures r in k.trackers && k.trackers[r].waiting && k.trackers[r].task != NIL
  {
  }

  lemma WaitStrands(k: Kernel, h: int, t: int, env: Env, r: int)
    requires Inv(k) && Current(k, h, t) && !k.core.tasks[t].idle && Stranded(k, r) && HandleWait(k, h, t, env).Run?
    requires ChildFound(k.trackers, k.core.tasks[t].tracker, Signed(k.core.tasks[t].context.x[10]), env.pick)
    ensures StrandedIn(HandleWait(k, h, t, env).value.kernel.trackers, Attached(k), r, k.nextTid)
    ensures Attached(HandleWait(k, h, t, env).value.kernel) == Attached(k)
  {
    hide Inv, TrackersOk, StrandedIn, Reap, CrashedOrphan, SetNextRunnable;
    CallerTracker(k, h, t);
    TrackerFacts(k);
    StrandedWaits(k, r);
    WaitFlags(k, h, t, env);
    var f, s, x, pick := k.trackers, k.core.tasks[t].tracker, k.core.tasks[t].context.x, env.pick;
    var l := HandleWait(k, h, t, env).value.kernel;
    if x[11] != 0 || x[12] != 0 || pick == NIL {
    } else if f[pick].task == NIL {
      ReapStrands(f, Attached(k), r, k.nextTid, pick);
      ReapKeepsForest(f, pick);
    } else {
      BlockStrands(f, Attached(k), r, k.nextTid, s, Signed(x[10]));
    }
    SameAttached(k, l);
  }

  lemma ExitStrands(k: Kernel, h: int, t: int, rv: nat, status: ExitStatus, env: Env, r: int)
    requires status != Alive && Inv(k) && Current(k, h, t) && !k.core.tasks[t].idle && Stranded(k, r)
    requires !ExitStops(k, t, status)
    ensures HandleExit(k, h, t, rv, status, env).Run?
    ensures var l := HandleExit(k, h, t, rv, status, env).value.kernel;
            StrandedIn(l.trackers, Attached(l), r, k.nextTid)
  {
    hide Inv, Dead, StrandedIn, Bury, SetNextRunnable, BuriedTrackers, CrashedOrphan;
    var m := SetTask(k.core, t, k.core.tasks[t].(state := Ended));
    var n := DeadAfterSwitch(k, h, t, env.sliceNow);
    SwitchFlags(m, h, env.sliceNow);
    SameAttached(k, n);
    DeadOwnsTracker(n, t);
    BuryStrands(n, t, rv, status, r);
    var l := BuryStep(n, t, rv, status);
    BuryFlags(n, t, rv, status);
    BuriedAttached(n, t, rv, status, l);
  }

  lemma DetachStrands(k: Kernel, h: int, t: int, r: int)
    requires Inv(k) && Current(k, h, t) && !k.core.tasks[t].idle && Stranded(k, r)
    ensures Stranded(HandleDetach(k, t).kernel, r)
  {
    hide Inv;
    CallerIsRunning(k, h, t);
    assert forall c :: c in Attached(HandleDetach(k, t).kernel) ==> c in Attached(k);
  }

  lemma CallStrands(k: Kernel, h: int, t: int, env: Env, r: int)
    requires Inv(k) && Current(k, h, t) && Stranded(k, r) && Dispatch(k, h, t, env).Run?
    requires var x := k.core.tasks[t].context.x;
             && !CallStops(k, t, x[17]) && (k.core.tasks[t].idle ==> x[17] == 0)
             && (x[17] == 3 ==> ChildFound(k.trackers, k.core.tasks[t].tracker, Signed(x[10]), env.pick))
    ensures Stranded(Dispatch(k, h, t, env).value.kernel, r)
  {
    hide Inv, Attached, StrandedIn, HandleCreate, HandleExit, HandleWait, ExitStops;
    TidsGrow(k, h, t, env);
    var x := k.core.tasks[t].context.x;
    match x[17]
    case 1 => CreateStrands(k, h, t, env, r);
    case 2 => ExitStrands(k, h, t, x[10], ExitedClean, env, r);
    case 3 => WaitStrands(k, h, t, env, r);
    case 4 => DetachStrands(k, h, t, r);
    case _ =>
      if x[17] > 12 {
        ExitStrands(k, h, t, 0, Crashed, env, r);
      } else {
        OtherCallsKeepTrackers(k, h, t, env);
        OtherCallsKeepFlags(k, h, t, env);
        SameAttached(k, Dispatch(k, h, t, env).value.kernel);
      }
  }

  /** No step of any hart ends a stranded wait. */
  lemma StepStrands(k: Kernel, e: Event, r: int)
    requires Inv(k) && Legal(k, e) && Stranded(k, r)
    ensures Machine.Next(k, e).Run? && Stranded(Machine.Next(k, e).value, r)
  {
    hide Inv, Machine.Next, StrandedIn, Attached;
    StepKeeps(k, e);
    TrackersAfterStep(k, e);
    FlagsAfterStep(k, e);
    TidsAfterStep(k, e);
    var n := Machine.Next(k, e).value;
    if e.Syscall? {
      var t := k.core.harts[e.hart].current;
      var l := EnterStep(k, e.hart, e.frame);
      SameAttached(k, l);
      CallStrands(l, e.hart, t, e.env, r);
      SameAttached(Dispatch(l, e.hart, t, e.env).value.kernel, n);
    } else {
      SameAttached(k, n);
    }
  }

  /** Whatever happens on any hart, a stranded parent stays blocked in its join for the rest of the run. */
  lemma {:induction false} StrandedForever(ks: seq<Kernel>, es: seq<Event>, a: nat, n: nat, r: int)
    requires Runs.IsRun(ks, es) && a <= n <= |es| && Stranded(ks[a], r)
    ensures Stranded(ks[n], r) && r in ks[n].trackers && JoinerOk(ks[n], r)
  {
    hide Runs.IsRun, Inv, Legal, Machine.Next, Stranded;
    JoinRunShape(ks, es);
    if a < n {
      StrandedForever(ks, es, a, n - 1, r);
      RunStep(ks, es, n - 1);
      StepStrands(ks[n - 1], es[n - 1], r);
    }
    RunsKeepInv(ks, es, n);
    StrandedIsBlocked(ks[n], r);
  }

  lemma StrandedIsBlocked(k: Kernel, r: int)
    requires Inv(k) && Stranded(k, r)
    ensures r in k.trackers && JoinerOk(k, r)
  {
    assert TrackerOk(k, r);
  }
}
