/** Sleep: never early, released by the first timer pass that finds the entry due. */
module Clock {
  import opened Base
  import opened IpcModel
  import opened Machine
  import opened Placement
  import opened Runs
  import opened Contexts

  // ---------------------------------------------------------------------------------------------
  // Durations

  /** Whether `ticks` is the least positive number of timer ticks that covers the duration. */
  predicate CoversExactly(ticks: nat, seconds: nat, nanoseconds: nat) {
    var duration := seconds * NANOSECONDS + nanoseconds;
    && ticks >= 1 && ticks * NANOSECONDS >= duration * FREQUENCY
    && (ticks > 1 ==> (ticks - 1) * NANOSECONDS < duration * FREQUENCY)
  }

  /**
   * The conversion is the exact ceiling of the duration in ticks, at least one; it is refused exactly
   * for a malformed nanosecond part or when no 64-bit tick count covers the duration. No intermediate
   * value leaves 64 bits.
   */
  lemma DurationIsExact(seconds: nat, nanoseconds: nat)
    ensures var ticks := DurationToTicks(seconds, nanoseconds);
            && ticks <= U64_MAX
            && (ticks != 0 ==> CoversExactly(ticks, seconds, nanoseconds))
            && (ticks == 0 <==> nanoseconds >= NANOSECONDS ||
                                (seconds * NANOSECONDS + nanoseconds) * FREQUENCY > U64_MAX * NANOSECONDS)
    ensures nanoseconds < NANOSECONDS ==> nanoseconds * FREQUENCY + NANOSECONDS - 1 <= U64_MAX
    ensures nanoseconds < NANOSECONDS && seconds <= U64_MAX / FREQUENCY ==> seconds * FREQUENCY <= U64_MAX
  {
  }

  // ---------------------------------------------------------------------------------------------
  // The delay queue

  /** Insertion is stable: the new entry goes behind every entry due no later and before every later one. */
  lemma {:induction false} InsertIsStable(tasks: seq<Task>, q: seq<int>, t: int, deadline: nat) returns (k: nat)
    requires Sorted(tasks, q) && forall i :: 0 <= i < |q| ==> 0 <= q[i] < |tasks|
    ensures k <= |q| && InsertSleeper(tasks, q, t, deadline) == q[..k] + [t] + q[k..]
    ensures forall i :: 0 <= i < |q| ==> (i < k <==> tasks[q[i]].deadline <= deadline)
  {
    if q == [] || tasks[q[0]].deadline > deadline {
      k := 0;
      assert forall i :: 0 <= i < |q| ==> Due(tasks, q[0]) <= Due(tasks, q[i]);
    } else {
      assert Sorted(tasks, q[1..]);
      var n := InsertIsStable(tasks, q[1..], t, deadline);
      k := n + 1;
      assert q == [q[0]] + q[1..];
      assert q[..k] == [q[0]] + q[1..][..n] && q[k..] == q[1..][n..];
      DueShift(tasks, tasks, q, k, deadline);
    }
  }

  /** One timer pass releases exactly the due entries, in queue order. */
  lemma {:induction false} ReleaseIsExact(c: Core, h: int, now: nat) returns (n: nat)
    requires HartIndex(c, h) && ReleaseDue(c, h, now).Run? && Sorted(c.tasks, c.sleepers[h]) && Distinct(c.sleepers[h])
    requires forall i :: 0 <= i < |c.sleepers[h]| ==> Slot(c, c.sleepers[h][i])
    ensures n <= |c.sleepers[h]|
    ensures forall i :: 0 <= i < |c.sleepers[h]| ==> (i < n <==> Due(c.tasks, c.sleepers[h][i]) <= now)
    ensures var d := ReleaseDue(c, h, now).value;
            && d.sleepers == c.sleepers[h := c.sleepers[h][n..]]
            && d.runQueue == c.runQueue + c.sleepers[h][..n]
    decreases |c.sleepers[h]|
  {
    var q := c.sleepers[h];
    if q == [] || c.tasks[q[0]].deadline > now {
      n := 0;
      assert forall i :: 0 <= i < |q| ==> Due(c.tasks, q[0]) <= Due(c.tasks, q[i]);
      assert c.sleepers[h := q[0..]] == c.sleepers;
    } else {
      assert q == [q[0]] + q[1..];
      var d := ReleaseHead(c, h);
      n := ReleaseIsExact(d, h, now);
      n := n + 1;
      assert q[..n] == [q[0]] + q[1..][..n - 1] && q[n..] == q[1..][n - 1..];
      assert c.sleepers[h := q[1..]][h := q[n..]] == c.sleepers[h := q[n..]];
      DueShift(c.tasks, d.tasks, q, n, now);
    }
  }

  /** Which entries are due, read off the tail of the queue. */
  lemma DueShift(tasks: seq<Task>, tasks': seq<Task>, q: seq<int>, n: nat, now: nat)
    requires 0 < n <= |q| && Due(tasks, q[0]) <= now && |tasks'| == |tasks|
    requires forall u :: 0 <= u < |tasks| ==> tasks'[u].deadline == tasks[u].deadline
    requires forall i :: 0 <= i < |q[1..]| ==> (i < n - 1 <==> Due(tasks', q[1..][i]) <= now)
    ensures forall i :: 0 <= i < |q| ==> (i < n <==> Due(tasks, q[i]) <= now)
  {
    forall i | 0 <= i < |q| ensures i < n <==> Due(tasks, q[i]) <= now {
      assert i > 0 ==> q[i] == q[1..][i - 1];
    }
  }

  lemma ReleaseHead(c: Core, h: int) returns (d: Core)
    requires HartIndex(c, h) && c.sleepers[h] != [] && Slot(c, c.sleepers[h][0])
    requires Sorted(c.tasks, c.sleepers[h]) && Distinct(c.sleepers[h])
    requires var t := c.sleepers[h][0];
             var v := c.tasks[t].(delayQueued := false, stateInfo := 0);
             AddTask(SetTask(c, t, v).(sleepers := c.sleepers[h := c.sleepers[h][1..]]), t).Run?
    ensures var t := c.sleepers[h][0];
            var v := c.tasks[t].(delayQueued := false, stateInfo := 0);
            AddTask(SetTask(c, t, v).(sleepers := c.sleepers[h := c.sleepers[h][1..]]), t) == Run(d)
    ensures HartIndex(d, h) && SameShape(c, d) && d.sleepers == c.sleepers[h := c.sleepers[h][1..]]
    ensures d.runQueue == c.runQueue + [c.sleepers[h][0]]
    ensures Sorted(d.tasks, d.sleepers[h]) && Distinct(d.sleepers[h])
    ensures forall u :: Slot(c, u) ==> d.tasks[u].deadline == c.tasks[u].deadline
  {
    var q := c.sleepers[h];
    var v := c.tasks[q[0]].(delayQueued := false, stateInfo := 0);
    d := AddTask(SetTask(c, q[0], v).(sleepers := c.sleepers[h := q[1..]]), q[0]).value;
    forall i, j | 0 <= i < j < |q[1..]|
      ensures q[1..][i] != q[1..][j] && Due(d.tasks, q[1..][i]) <= Due(d.tasks, q[1..][j])
    {
      assert Due(c.tasks, q[i + 1]) <= Due(c.tasks, q[j + 1]);
    }
  }

  /** The first tick after `now` at which something due at `deadline` can be served. */
  function NextTick(deadline: nat, now: nat): nat { if deadline <= now then now + 1 else deadline }

  /**
   * With the idle task current the timer is armed for the earliest future wake of the hart or the end of
   * the idle slice, whichever comes first; an overdue entry arms the next tick. The deadline saturates.
   */
  lemma IdleArmsForNextWake(c: Core, h: int, now: nat)
    requires HartIndex(c, h) && Slot(c, c.harts[h].current) && c.tasks[c.harts[h].current].idle && now <= U64_MAX
    requires Sorted(c.tasks, c.sleepers[h]) && forall i :: 0 <= i < |c.sleepers[h]| ==> Slot(c, c.sleepers[h][i])
    ensures Arm(c, h, now).Run?
    ensures var armed, q := Arm(c, h, now).value.harts[h].armed, c.sleepers[h];
            && now <= armed <= U64_MAX && armed <= now + IDLE_SLICE
            && (forall i :: 0 <= i < |q| ==> armed <= NextTick(Due(c.tasks, q[i]), now))
            && (armed == U64_MAX || armed == now + IDLE_SLICE ||
                exists i :: 0 <= i < |q| && armed == NextTick(Due(c.tasks, q[i]), now))
            && (now < U64_MAX ==> now < armed)
  {
    var q := c.sleepers[h];
    assert forall i :: 0 <= i < |q| ==> Due(c.tasks, q[0]) <= Due(c.tasks, q[i]);
  }

  /** A switch gives a user task a full slice, and the idle task one that ends with the earliest wake of its hart. */
  lemma SliceIsExact(c: Core, h: int, now: nat)
    requires HartIndex(c, h) && SetNextRunnable(c, h, now).Run?
    requires Sorted(c.tasks, c.sleepers[h]) && forall i :: 0 <= i < |c.sleepers[h]| ==> Slot(c, c.sleepers[h][i])
    ensures var d, q := SetNextRunnable(c, h, now).value.harts[h], c.sleepers[h];
            if c.runQueue != [] then d.current == c.runQueue[0] && d.slice == 100000
            else
              && d.current == c.harts[h].idle && 1 <= d.slice <= 1000000
              && (forall i :: 0 <= i < |q| ==> now + d.slice <= NextTick(Due(c.tasks, q[i]), now))
              && (d.slice == 1000000 || exists i :: 0 <= i < |q| && now + d.slice == NextTick(Due(c.tasks, q[i]), now))
  {
    var q := c.sleepers[h];
    assert forall i :: 0 <= i < |q| ==> Due(c.tasks, q[0]) <= Due(c.tasks, q[i]);
  }

  // ---------------------------------------------------------------------------------------------
  // Steps and runs

  ghost predicate Asleep(k: Kernel, h: int, u: int) {
    HartIndex(k.core, h) && u in k.core.sleepers[h]
  }

  lemma SleeperFacts(k: Kernel, h: int, u: int)
    requires Inv(k) && Asleep(k, h, u)
    ensures Live(k, u) && !k.core.tasks[u].idle && k.core.tasks[u].state == BlockedSleep && k.core.tasks[u].cpu == h
    ensures OffHart(k, u)
  {
    assert SleepersPlaced(k, h, {});
    assert forall g :: HartIndex(k.core, g) ==> HartPlaced(k, g, {}, NO_HART);
  }

  lemma DelayFacts(k: Kernel, h: int)
    requires Inv(k) && HartIndex(k.core, h)
    ensures Sorted(k.core.tasks, k.core.sleepers[h]) && Distinct(k.core.sleepers[h])
    ensures forall i :: 0 <= i < |k.core.sleepers[h]| ==> Slot(k.core, k.core.sleepers[h][i])
  {
    assert SleepersPlaced(k, h, {});
    assert forall i :: 0 <= i < |k.core.sleepers[h]| ==> k.core.sleepers[h][i] in k.core.sleepers[h];
  }

  lemma {:induction false} InsertKeepsEntries(tasks: seq<Task>, q: seq<int>, t: int, deadline: nat, u: int)
    ensures u in InsertSleeper(tasks, q, t, deadline) <==> u == t || u in q
    decreases q
  {
    if q != [] {
      assert q == [q[0]] + q[1..];
      InsertKeepsEntries(tasks, q[1..], t, deadline, u);
    }
  }

  lemma SwitchKeepsSleepers(c: Core, h: int, now: nat)
    requires HartIndex(c, h) && SetNextRunnable(c, h, now).Run?
    ensures SetNextRunnable(c, h, now).value.sleepers == c.sleepers
  {
  }

  lemma EndKeepsSleepers(k: Kernel, h: int, t: int, rv: nat, status: ExitStatus, now: nat)
    requires HartIndex(k.core, h) && Slot(k.core, t) && EndTask(k, h, t, rv, status, now).Run?
    ensures EndTask(k, h, t, rv, status, now).value.core.sleepers == k.core.sleepers
  {
    hide SetNextRunnable, RemoveTracker;
    SwitchKeepsSleepers(SetTask(k.core, t, k.core.tasks[t].(state := Ended)), h, now);
  }

  lemma OtherCallsKeepSleepers(k: Kernel, h: int, t: int, env: Env)
    requires HartIndex(k.core, h) && Slot(k.core, t) && Dispatch(k, h, t, env).Run?
    requires k.core.tasks[t].context.x[17] != 5
    ensures Dispatch(k, h, t, env).value.kernel.core.sleepers == k.core.sleepers
  {
    hide SetNextRunnable, EndTask, RemoveTracker, WakeAll;
    assert forall c: Core, now: nat {:trigger SetNextRunnable(c, h, now)} ::
        HartIndex(c, h) && SetNextRunnable(c, h, now).Run? ==>
          SetNextRunnable(c, h, now).value.sleepers == c.sleepers by {
      forall c: Core, now: nat | HartIndex(c, h) && SetNextRunnable(c, h, now).Run?
        ensures SetNextRunnable(c, h, now).value.sleepers == c.sleepers
      {
        SwitchKeepsSleepers(c, h, now);
      }
    }
    var x := k.core.tasks[t].context.x;
    if x[17] == 2 {
      EndKeepsSleepers(k, h, t, x[10], ExitedClean, env.sliceNow);
    } else if x[17] > 12 {
      EndKeepsSleepers(k, h, t, 0, Crashed, env.sliceNow);
    }
  }

  lemma SleepKeepsSleepers(k: Kernel, h: int, t: int, env: Env, g: int, u: int)
    requires HartIndex(k.core, h) && Slot(k.core, t) && HandleSleep(k, h, t, env).Run? && Asleep(k, g, u)
    ensures Asleep(HandleSleep(k, h, t, env).value.kernel, g, u)
  {
    hide DurationToTicks, InsertSleeper;
    var v := k.core.tasks[t];
    var ticks := DurationToTicks(v.context.x[10], v.context.x[11]);
    if HartIndex(k.core, v.cpu) {
      InsertKeepsEntries(SetTask(k.core, t, A0(v, 0)).tasks, k.core.sleepers[v.cpu], t, env.now + ticks, u);
    }
  }

  lemma CallKeepsSleepers(k: Kernel, h: int, t: int, env: Env, g: int, u: int)
    requires HartIndex(k.core, h) && Slot(k.core, t) && Dispatch(k, h, t, env).Run? && Asleep(k, g, u)
    ensures Asleep(Dispatch(k, h, t, env).value.kernel, g, u)
  {
    if k.core.tasks[t].context.x[17] == 5 {
      SleepKeepsSleepers(k, h, t, env, g, u);
    } else {
      OtherCallsKeepSleepers(k, h, t, env);
    }
  }

  /** The timer pass of `e` serves an entry of hart `h` that is due at `deadline`. */
  predicate Serves(e: Event, h: int, deadline: nat) {
    e.Timer? && e.hart == h && deadline <= e.env.now
  }

  /** Of a timer interrupt only the release pass changes the delay queues. */
  lemma TimerQueues(k: Kernel, e: Event, m: Core)
    requires e.Timer? && HartIndex(k.core, e.hart) && Slot(k.core, k.core.harts[e.hart].current)
    requires var t := k.core.harts[e.hart].current; m == SetTask(k.core, t, Save(k.core.tasks[t], e.frame))
    requires Machine.Next(k, e).Run?
    ensures ReleaseDue(m, e.hart, e.env.now).Run?
    ensures Machine.Next(k, e).value.core.sleepers == ReleaseDue(m, e.hart, e.env.now).value.sleepers
    ensures SameShape(k.core, Machine.Next(k, e).value.core)
  {
    hide ReleaseDue, SetNextRunnable;
    var c := ReleaseDue(m, e.hart, e.env.now).value;
    SwitchKeepsSleepers(ReturnRunnable(c, e.hart).value, e.hart, e.env.sliceNow);
  }

  lemma TimerSleepers(k: Kernel, e: Event, g: int, u: int)
    requires Inv(k) && Legal(k, e) && e.Timer? && Machine.Next(k, e).Run? && Slot(k.core, u)
    ensures Asleep(Machine.Next(k, e).value, g, u) <==> Asleep(k, g, u) && !Serves(e, g, k.core.tasks[u].deadline)
  {
    hide Inv, ReleaseDue, Machine.Next, Stops;
    var h := e.hart;
    var t := k.core.harts[h].current;
    var m := SetTask(k.core, t, Save(k.core.tasks[t], e.frame));
    TimerQueues(k, e, m);
    DelayFacts(k, h);
    assert forall v :: Due(m.tasks, v) == Due(k.core.tasks, v);
    var n := ReleaseIsExact(m, h, e.env.now);
    var q := k.core.sleepers[h];
    if u in q {
      var i :| 0 <= i < |q| && q[i] == u;
      assert i >= n ==> q[n..][i - n] == u;
    }
  }

  /** A sleeper stays asleep through a step if and only if the step is not a timer pass that finds it due. */
  lemma StepSleepers(k: Kernel, e: Event, l: Kernel, g: int, u: int)
    requires Inv(k) && Inv(l) && Legal(k, e) && Machine.Next(k, e) == Run(l) && Asleep(k, g, u)
    ensures Slot(k.core, u) && Live(l, u) && l.core.tasks[u].deadline == k.core.tasks[u].deadline
    ensures Asleep(l, g, u) <==> !Serves(e, g, k.core.tasks[u].deadline)
  {
    hide Inv, Dispatch, SetNextRunnable, ReleaseDue;
    SleeperFacts(k, g, u);
    StepOwes(k, e, u);
    StaysLive(k, l, u, WakeOf(k, e, u));
    match e
    case Start(h, env) => SwitchKeepsSleepers(k.core, h, env.sliceNow);
    case Timer(_, _, _) => TimerSleepers(k, e, g, u);
    case Syscall(h, frame, env) =>
      var t := k.core.harts[h].current;
      CallKeepsSleepers(k.(core := SetTask(k.core, t, Entered(k.core.tasks[t], frame))), h, t, env, g, u);
  }

  /** Over a run, a sleeper stays asleep until the first timer pass of its hart at or after its deadline. */
  lemma {:induction false} SleepsUntilDue(ks: seq<Kernel>, es: seq<Event>, m: nat, n: nat, h: int, u: int)
    requires Runs.IsRun(ks, es) && m <= n <= |es| && Asleep(ks[m], h, u) && Slot(ks[m].core, u)
    requires forall j :: m <= j < n ==> !Serves(es[j], h, ks[m].core.tasks[u].deadline)
    ensures Asleep(ks[n], h, u) && Slot(ks[n].core, u) && ks[n].core.tasks[u].deadline == ks[m].core.tasks[u].deadline
    decreases n
  {
    if m < n {
      hide Booted, Legal, Machine.Next;
      SleepsUntilDue(ks, es, m, n - 1, h, u);
      SleepStepInRun(ks, es, n - 1, h, u);
    }
  }

  lemma SleepStepInRun(ks: seq<Kernel>, es: seq<Event>, n: nat, h: int, u: int)
    requires Runs.IsRun(ks, es) && n < |es| && Asleep(ks[n], h, u)
    ensures Slot(ks[n].core, u) && Live(ks[n + 1], u)
    ensures ks[n + 1].core.tasks[u].deadline == ks[n].core.tasks[u].deadline
    ensures Asleep(ks[n + 1], h, u) <==> !Serves(es[n], h, ks[n].core.tasks[u].deadline)
  {
    hide Runs.IsRun, Inv, Legal, Machine.Next;
    RunStep(ks, es, n);
    StepSleepers(ks[n], es[n], ks[n + 1], h, u);
  }

  lemma SleepSaves(k: Kernel, e: Event, l: Kernel, u: int, ticks: nat)
    requires Inv(k) && Legal(k, e) && Machine.Next(k, e) == Run(l) && e.Syscall? && e.frame.x[17] == 5
    requires k.core.harts[e.hart].current == u && ticks == DurationToTicks(e.frame.x[10], e.frame.x[11])
    requires ticks != 0 && e.env.now + ticks <= U64_MAX
    ensures Asleep(l, e.hart, u) && Slot(l.core, u) && l.core.tasks[u].deadline == e.env.now + ticks
    ensures Slot(k.core, u) && l.core.tasks[u].context == A0(Entered(k.core.tasks[u], e.frame), 0).context
  {
    hide Inv, DurationToTicks, SetNextRunnable, InsertSleeper;
    var m := EnterStep(k, e.hart, e.frame);
    CallerIsRunning(m, e.hart, u);
    var v := m.core.tasks[u];
    assert v.context.x[17] == 5 && v.context.x[10] == e.frame.x[10] && v.context.x[11] == e.frame.x[11];
    var c := SetTask(m.core, u, A0(v, 0));
    InsertKeepsEntries(c.tasks, c.sleepers[e.hart], u, e.env.now + ticks, u);
    SwitchKeepsSleepers(DelayUntil(c, u, e.env.now + ticks), e.hart, e.env.sliceNow);
    SwitchKeepsTask(DelayUntil(c, u, e.env.now + ticks), e.hart, e.env.sliceNow, u);
  }

  lemma SwitchKeepsTask(c: Core, h: int, now: nat, u: int)
    requires HartIndex(c, h) && SetNextRunnable(c, h, now).Run? && Slot(c, u)
    ensures var w := SetNextRunnable(c, h, now).value.tasks[u];
            w.context == c.tasks[u].context && w.deadline == c.tasks[u].deadline
  {
  }

  /** A served sleeper is runnable again. */
  lemma ServedIsRunnable(k: Kernel, e: Event, l: Kernel, h: int, u: int)
    requires Inv(k) && Inv(l) && Legal(k, e) && Machine.Next(k, e) == Run(l) && Asleep(k, h, u) && Slot(k.core, u)
    requires Serves(e, h, k.core.tasks[u].deadline)
    ensures Live(l, u) && l.core.tasks[u].state in {Ready, Running}
    ensures l.core.tasks[u].context == k.core.tasks[u].context
  {
    hide Inv, Machine.Next, Legal;
    SleeperFacts(k, h, u);
    StepOwes(k, e, u);
    StaysLive(k, l, u, WakeOf(k, e, u));
    forall g | Asleep(l, g, u) ensures false {
      TimerSleepers(k, e, g, u);
      SleeperFacts(k, g, u);
    }
    AwakeStates(l, u);
  }

  lemma AwakeStates(k: Kernel, u: int)
    requires Inv(k) && Live(k, u) && !Contexts.Blocked(k.core.tasks[u].state) && forall g :: !Asleep(k, g, u)
    ensures k.core.tasks[u].state in {Ready, Running}
  {
    assert TaskPlaced(k, u, {}, NO_HART);
    assert !Asleep(k, k.core.tasks[u].cpu, u);
  }

  /**
   * Sleep over a run: an accepted sleep lasts until the first timer pass of its hart at or after the
   * deadline, at least the requested duration after the call, and then the task is runnable with a0 = 0.
   */
  lemma SleepIsNeverEarlyNorLost(ks: seq<Kernel>, es: seq<Event>, m: nat, n: nat, u: int, ticks: nat)
    requires Runs.IsRun(ks, es) && m < n < |es| && es[m].Syscall? && es[m].frame.x[17] == 5
    requires HartIndex(ks[m].core, es[m].hart) && ks[m].core.harts[es[m].hart].current == u
    requires ticks == DurationToTicks(es[m].frame.x[10], es[m].frame.x[11]) && ticks != 0
    requires es[m].env.now + ticks <= U64_MAX
    requires Serves(es[n], es[m].hart, es[m].env.now + ticks)
    requires forall j :: m < j < n ==> !Serves(es[j], es[m].hart, es[m].env.now + ticks)
    ensures forall j :: m < j <= n ==> Asleep(ks[j], es[m].hart, u)
    ensures Live(ks[n + 1], u) && ks[n + 1].core.tasks[u].state in {Ready, Running}
    ensures ks[n + 1].core.tasks[u].context.x[10] == 0
    ensures CoversExactly(ticks, es[m].frame.x[10], es[m].frame.x[11]) && es[n].env.now >= es[m].env.now + ticks
  {
    hide Runs.IsRun, Inv, Legal, Machine.Next, DurationToTicks, CoversExactly;
    DurationIsExact(es[m].frame.x[10], es[m].frame.x[11]);
    RunStep(ks, es, m);
    SleepSaves(ks[m], es[m], ks[m + 1], u, ticks);
    forall j | m < j <= n ensures Asleep(ks[j], es[m].hart, u) {
      SleepsUntilDue(ks, es, m + 1, j, es[m].hart, u);
    }
    SleepsUntilDue(ks, es, m + 1, n, es[m].hart, u);
    SleepContext(ks, es, m + 1, n, es[m].hart, u);
    RunStep(ks, es, n);
    ServedIsRunnable(ks[n], es[n], ks[n + 1], es[m].hart, u);
  }

  /** Nobody writes a sleeper's registers. */
  lemma SleepContext(ks: seq<Kernel>, es: seq<Event>, m: nat, n: nat, h: int, u: int)
    requires Runs.IsRun(ks, es) && m <= n <= |es| && Slot(ks[m].core, u)
    requires forall j :: m <= j <= n ==> Asleep(ks[j], h, u)
    ensures Slot(ks[n].core, u) && ks[n].core.tasks[u].context == ks[m].core.tasks[u].context
  {
    hide Booted, Legal, Machine.Next;
    forall j | m <= j <= n ensures Live(ks[j], u) && OffHart(ks[j], u) && ks[j].core.tasks[u].state == BlockedSleep {
      SleeperInRun(ks, es, j, h, u);
    }
    var i := WokenAtMostOnce(ks, es, m, n, u);
  }

  lemma SleeperInRun(ks: seq<Kernel>, es: seq<Event>, n: nat, h: int, u: int)
    requires Runs.IsRun(ks, es) && n <= |es| && Asleep(ks[n], h, u)
    ensures Live(ks[n], u) && OffHart(ks[n], u) && ks[n].core.tasks[u].state == BlockedSleep
  {
    hide Inv, Booted, Legal, Machine.Next;
    RunsKeepInv(ks, es, n);
    SleeperFacts(ks[n], h, u);
  }
}
