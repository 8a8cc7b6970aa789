/**
 * What a task sees of its system calls: where it resumes, what it finds in its registers, what reaches other tasks.
 * Everything is stated with the registers of the trap frames, before the call and at the next dispatch.
 */
module SystemCalls {
  import opened Base
  import opened IpcModel
  import opened Machine
  import opened Placement
  import opened Forest
  import opened IpcRefinement
  import opened Runs
  import opened IpcRuns
  import opened Contexts

  /** How a call ends for the caller: not yet, with a value in `a0`, or with a message. */
  datatype Answer = Pending | Value(a0: nat) | Delivery(message: Message)

  /** The context of a task whose call, made with the frame `f`, has ended like this. */
  ghost predicate Finds(f: Frame, satp: nat, a: Answer, c: Context) {
    && c.mepc == (f.mepc + 4) % TWO64 && c.mstatus == f.mstatus && c.satp == satp && c.x[0] == 0
    && (forall i :: 1 <= i < 32 && i != 10 && !(a.Delivery? && 11 <= i <= 15) ==> c.x[i] == f.x[i])
    && match a
       case Pending => c.x[10] == f.x[10]
       case Value(v) => c.x[10] == v
       case Delivery(m) =>
         c.x[10] == 0 && c.x[11] == m.w0 && c.x[12] == m.w1 && c.x[13] == m.w2 && c.x[14] == m.w3 && c.x[15] == m.sender
  }

  /** The frame with which the caller goes on at once. */
  ghost predicate FrameFinds(f: Frame, a: Answer, g: Frame) { Finds(f, 0, a, Context(g.x, g.mstatus, g.mepc, 0)) }

  /** The trap is a system call of a task that it does not end. */
  predicate Returns(k: Kernel, e: Event) {
    && e.Syscall? && HartIndex(k.core, e.hart) && Slot(k.core, k.core.harts[e.hart].current)
    && e.frame.x[17] != 2 && e.frame.x[17] <= 12
  }

  function CallerOf(k: Kernel, e: Event): int
    requires HartIndex(k.core, e.hart)
  {
    k.core.harts[e.hart].current
  }

  /** The handle names a live epoch. */
  ghost predicate Names(k: Kernel, raw: nat) { Usable(k.endpoints, raw % TWO32, raw / TWO32) }

  /** Room for one more task: a slot, a tracker, a stack. */
  ghost predicate HasRoom(k: Kernel, env: Env) {
    && (exists i :: 0 <= i < |k.used| && !k.used[i]) && env.stackOk
    && (exists r :: 0 <= r < k.trackerSlots && r !in k.trackers)
  }

  /** The answer of every call, by the caller's id and registers and the state it meets. */
  ghost function AnswerTo(k: Kernel, tid: nat, x: Regs, env: Env): Answer {
    match x[17]
    case 0 => Value(0)
    case 1 => Value(if !env.entryOk then Errno(95) else if !HasRoom(k, env) then Errno(12) else k.nextTid)
    case 3 =>
      if x[11] != 0 || x[12] != 0 then Value(Errno(95))
      else if env.pick !in k.trackers then Value(Errno(35))
      else if k.trackers[env.pick].task == NIL then Value(k.trackers[env.pick].key)
      else Pending
    case 4 => Value(0)
    case 5 =>
      var ticks := DurationToTicks(x[10], x[11]);
      Value(if ticks == 0 || env.now + ticks > U64_MAX then Errno(22) else 0)
    case 6 =>
      var i := FreeSlot(k.endpoints);
      Value(if i == |k.endpoints| then Errno(28) else FirstGeneration(k.endpoints[i]) * TWO32 + i)
    case 9 => Value(Errno(38))
    case 12 => Value(Errno(38))
    case number =>
      if !Names(k, x[10]) then Value(Errno(22)) else
      var p := k.endpoints[x[10] % TWO32];
      match number
      case 7 => Value(if p.owner != tid then Errno(13) else 0)
      case 8 => Value(if p.waiters == [] && |p.queue| >= k.limits.depth then Errno(11) else 0)
      case 10 => if p.queue == [] then Pending else Delivery(p.queue[0])
      case _ => if p.queue == [] then Value(Errno(11)) else Delivery(p.queue[0])
  }

  ghost function AnswerOf(k: Kernel, e: Event): Answer
    requires Returns(k, e)
  {
    AnswerTo(k, k.core.tasks[CallerOf(k, e)].tid, e.frame.x, e.env)
  }

  /** The message that a task sends: its id and `a1` to `a4`. */
  function Words(k: Kernel, e: Event): Message
    requires Returns(k, e)
  {
    Message(k.core.tasks[CallerOf(k, e)].tid, e.frame.x[11], e.frame.x[12], e.frame.x[13], e.frame.x[14])
  }

  /** The transition of the endpoint machine that a call is, by its number and the state it meets. */
  ghost function Effect(k: Kernel, e: Event): seq<Label>
    requires Returns(k, e)
  {
    var x, t := e.frame.x, CallerOf(k, e);
    var slot, tid := x[10] % TWO32, k.core.tasks[t].tid;
    if x[17] == 6 then
      var i := FreeSlot(k.endpoints);
      if i < |k.endpoints| then [Create(i, tid, FirstGeneration(k.endpoints[i]))] else []
    else if x[17] !in {7, 8, 10, 11} || !Names(k, x[10]) then []
    else
      var p := k.endpoints[slot];
      match x[17]
      case 7 => if p.owner == tid then [Destroy(slot)] else []
      case 8 =>
        if p.waiters != [] then [SendWake(slot, Words(k, e), p.waiters[0])]
        else if |p.queue| < k.limits.depth then [Send(slot, Words(k, e))] else []
      case 10 => if p.queue != [] then [Receive(slot, p.queue[0])] else [Block(slot, t)]
      case _ => if p.queue != [] then [Receive(slot, p.queue[0])] else []
  }

  /** The caller's context when the call is over, given the one it entered with. */
  function Put(c: Context, a: Answer): Context {
    match a
    case Pending => c
    case Value(v) => c.(x := c.x[10 := v])
    case Delivery(m) => c.(x := c.x[10 := 0][11 := m.w0][12 := m.w1][13 := m.w2][14 := m.w3][15 := m.sender])
  }

  lemma PutFinds(v: Task, f: Frame, a: Answer)
    ensures Finds(f, v.context.satp, a, Put(Entered(v, f).context, a))
  {
  }

  /** What of the invariant the endpoint calls use. */
  lemma LookupNames(k: Kernel, raw: nat)
    requires Inv(k)
    ensures Lookup(k.limits, k.endpoints, raw) == if Names(k, raw) then raw % TWO32 else NIL
    ensures Names(k, raw) ==>
              && k.endpoints[raw % TWO32].claimed && WellFormed(k.limits, |k.endpoints|, FromRaw(raw))
              && (k.endpoints[raw % TWO32].queue == [] || k.endpoints[raw % TWO32].waiters == [])
  {
    LookupIsUsable(k.limits, k.endpoints, raw);
  }

  // ---------------------------------------------------------------------------------------------
  // Labels

  /** The transition of every kernel step is the one its frame and the state name. */
  lemma LabelIsEffect(k: Kernel, e: Event)
    requires Inv(k) && Offered(k, e)
    ensures LabelOf(k, e) == if Returns(k, e) then Effect(k, e) else []
  {
    if e.Syscall? {
      var t := CallerOf(k, e);
      var l := k.(core := SetTask(k.core, t, Entered(k.core.tasks[t], e.frame)));
      EnteredRegisters(k.core.tasks[t], e.frame);
      LookupNames(k, e.frame.x[10]);
      hide Inv, Offered, Lookup, Entered, FreeSlot, Names;
      assert Returns(k, e) ==> MessageOf(l.core.tasks[t]) == Words(k, e);
    }
  }

  lemma EnteredRegisters(v: Task, f: Frame)
    ensures var x := Entered(v, f).context.x; forall i :: 1 <= i < 32 ==> x[i] == f.x[i]
    ensures Entered(v, f) == v.(context := Entered(v, f).context)
    ensures Entered(v, f).context.satp == v.context.satp
  {
  }

  // ---------------------------------------------------------------------------------------------
  // Answers

  /** The call left the caller with this answer, blocked exactly while it is pending. */
  ghost predicate Answers(k: Kernel, t: int, r: Outcome<Handled>, a: Answer) {
    && r.Run? && Slot(k.core, t) && Slot(r.value.kernel.core, t)
    && var v, w := k.core.tasks[t], r.value.kernel.core.tasks[t];
       && w.context == Put(v.context, a) && w.tid == v.tid && w.tracker == v.tracker
       && (a == Pending <==> Contexts.Blocked(w.state))
  }

  lemma SwitchPuts(c: Core, h: int, now: nat, t: int)
    requires HartIndex(c, h) && SetNextRunnable(c, h, now).Run? && Slot(c, t)
    requires Contexts.Blocked(c.tasks[t].state) ==> t != c.harts[h].idle && !c.tasks[t].queued
    requires forall i :: 0 <= i < |c.runQueue| ==> c.runQueue[i] != t || c.tasks[t].queued
    ensures var w := SetNextRunnable(c, h, now).value.tasks[t];
            && w.context == c.tasks[t].context && w.tid == c.tasks[t].tid && w.tracker == c.tasks[t].tracker
            && (Contexts.Blocked(w.state) <==> Contexts.Blocked(c.tasks[t].state))
  {
  }

  /** The caller is in no queue and is not its hart's idle task. */
  lemma CallerIsAlone(k: Kernel, h: int, t: int)
    requires Inv(k) && Current(k, h, t) && !k.core.tasks[t].idle
    ensures Unqueued(k.core.tasks[t]) && k.core.tasks[t].state == Running && k.core.tasks[t].cpu == h
    ensures t != k.core.harts[h].idle && t !in k.core.runQueue
    ensures forall e :: 0 <= e < |k.endpoints| ==> t !in k.endpoints[e].waiters
  {
    CurrentIsRunning(k, h, t);
    InNoQueue(k, {}, NO_HART, t);
  }

  lemma YieldAnswers(k: Kernel, h: int, t: int, env: Env)
    requires Inv(k) && Current(k, h, t) && HandleYield(k, h, t, env).Run?
    ensures Answers(k, t, HandleYield(k, h, t, env), Value(0))
  {
    CurrentIsRunning(k, h, t);
    assert TaskPlaced(k, t, {}, NO_HART) && HartPlaced(k, h, {}, NO_HART);
    assert !Contexts.Blocked(k.core.tasks[t].state);
  }

  lemma CreateAnswers(k: Kernel, h: int, t: int, env: Env)
    requires Inv(k) && Current(k, h, t) && !k.core.tasks[t].idle && HandleCreate(k, h, t, env).Run?
    requires k.core.tasks[t].context.x[17] == 1
    ensures Answers(k, t, HandleCreate(k, h, t, env), AnswerTo(k, k.core.tasks[t].tid, k.core.tasks[t].context.x, env))
  {
    CallerIsAlone(k, h, t);
    var i, r := FreeIndex(k.used), FreeTracker(k.trackers, k.trackerSlots, 0);
    assert HasRoom(k, env) <==> i < |k.used| && r < k.trackerSlots && env.stackOk;
    hide Inv, FreeIndex, FreeTracker, SpawnContext, HasRoom;
  }

  lemma WaitAnswers(k: Kernel, h: int, t: int, env: Env)
    requires Inv(k) && Current(k, h, t) && !k.core.tasks[t].idle && HandleWait(k, h, t, env).Run?
    requires k.core.tasks[t].context.x[17] == 3
    requires ChildFound(k.trackers, k.core.tasks[t].tracker, Signed(k.core.tasks[t].context.x[10]), env.pick)
    ensures Answers(k, t, HandleWait(k, h, t, env), AnswerTo(k, k.core.tasks[t].tid, k.core.tasks[t].context.x, env))
  {
    hide Inv, RemoveTracker, SetNextRunnable, ChildFound, HasRoom, Names, FreeSlot, DurationToTicks;
    CallerIsAlone(k, h, t);
    NoTrackerIsNil(k);
    FoundIsTracker(k.trackers, k.core.tasks[t].tracker, Signed(k.core.tasks[t].context.x[10]), env.pick);
    var v, tid := k.core.tasks[t], Signed(k.core.tasks[t].context.x[10]);
    var info := if tid < 0 then TWO64 + tid else tid;
    if info >= 0 {
      var c := SetTask(k.core, t, v.(state := BlockedJoin, stateInfo := info));
      if SetNextRunnable(c, h, env.sliceNow).Run? {
        SwitchPuts(c, h, env.sliceNow, t);
      }
    }
  }

  lemma FoundIsTracker(f: map<int, Tracker>, p: int, tid: int, pick: int)
    requires ChildFound(f, p, tid, pick) && NIL !in f
    ensures pick == NIL <==> pick !in f
  {
  }

  lemma NoTrackerIsNil(k: Kernel)
    requires Inv(k)
    ensures NIL !in k.trackers
  {
    assert forall r :: r in k.trackers ==> TrackerOk(k, r);
  }

  lemma SleepAnswers(k: Kernel, h: int, t: int, env: Env)
    requires Inv(k) && Current(k, h, t) && !k.core.tasks[t].idle && HandleSleep(k, h, t, env).Run?
    requires k.core.tasks[t].context.x[17] == 5
    ensures Answers(k, t, HandleSleep(k, h, t, env), AnswerTo(k, k.core.tasks[t].tid, k.core.tasks[t].context.x, env))
  {
    hide Inv, DurationToTicks, InsertSleeper, SetNextRunnable;
    CallerIsAlone(k, h, t);
    var v := k.core.tasks[t];
    var ticks := DurationToTicks(v.context.x[10], v.context.x[11]);
    var c := DelayUntil(SetTask(k.core, t, A0(v, 0)), t, env.now + ticks);
    if SetNextRunnable(c, h, env.sliceNow).Run? {
      SwitchPuts(c, h, env.sliceNow, t);
    }
  }

  lemma EndpointCreateAnswers(k: Kernel, h: int, t: int, env: Env)
    requires Inv(k) && Current(k, h, t) && !k.core.tasks[t].idle && k.core.tasks[t].context.x[17] == 6
    ensures Answers(k, t, Run(HandleEndpointCreate(k, t)),
                    AnswerTo(k, k.core.tasks[t].tid, k.core.tasks[t].context.x, env))
  {
    hide Inv, FreeSlot;
    CallerIsAlone(k, h, t);
  }

  lemma DestroyAnswers(k: Kernel, h: int, t: int, env: Env)
    requires Inv(k) && Current(k, h, t) && !k.core.tasks[t].idle && HandleEndpointDestroy(k, t).Run?
    requires k.core.tasks[t].context.x[17] == 7
    ensures Answers(k, t, HandleEndpointDestroy(k, t),
                    AnswerTo(k, k.core.tasks[t].tid, k.core.tasks[t].context.x, env))
  {
    hide Inv, WakeAll;
    CallerIsAlone(k, h, t);
    var raw := k.core.tasks[t].context.x[10];
    LookupNames(k, raw);
    if Names(k, raw) && WakeAll(k.core, k.endpoints[raw % TWO32].waiters).Run? {
      Untouched(k.core, k.endpoints[raw % TWO32].waiters, t);
    }
  }

  lemma SendAnswers(k: Kernel, h: int, t: int, env: Env)
    requires Inv(k) && Current(k, h, t) && !k.core.tasks[t].idle && HandleSend(k, t).Run?
    requires k.core.tasks[t].context.x[17] == 8
    ensures Answers(k, t, HandleSend(k, t), AnswerTo(k, k.core.tasks[t].tid, k.core.tasks[t].context.x, env))
  {
    hide Inv, Lookup;
    CallerIsAlone(k, h, t);
    LookupNames(k, k.core.tasks[t].context.x[10]);
  }

  lemma ReceiveAnswers(k: Kernel, h: int, t: int, env: Env)
    requires Inv(k) && Current(k, h, t) && !k.core.tasks[t].idle && HandleReceive(k, h, t, env).Run?
    requires k.core.tasks[t].context.x[17] == 10
    ensures Answers(k, t, HandleReceive(k, h, t, env), AnswerTo(k, k.core.tasks[t].tid, k.core.tasks[t].context.x, env))
  {
    hide Inv, Lookup, SetNextRunnable;
    CallerIsAlone(k, h, t);
    var v, raw := k.core.tasks[t], k.core.tasks[t].context.x[10];
    LookupNames(k, raw);
    var c := SetTask(k.core, t, v.(messageQueued := true, state := BlockedMessage, stateInfo := raw));
    if SetNextRunnable(c, h, env.sliceNow).Run? {
      SwitchPuts(c, h, env.sliceNow, t);
    }
  }

  lemma TryReceiveAnswers(k: Kernel, h: int, t: int, env: Env)
    requires Inv(k) && Current(k, h, t) && !k.core.tasks[t].idle && k.core.tasks[t].context.x[17] == 11
    ensures Answers(k, t, Run(HandleTryReceive(k, t)),
                    AnswerTo(k, k.core.tasks[t].tid, k.core.tasks[t].context.x, env))
  {
    hide Inv, Lookup;
    CallerIsAlone(k, h, t);
    LookupNames(k, k.core.tasks[t].context.x[10]);
  }

  lemma CallAnswers(k: Kernel, h: int, t: int, env: Env)
    requires Inv(k) && Current(k, h, t) && Dispatch(k, h, t, env).Run?
    requires var x := k.core.tasks[t].context.x;
             && x[17] != 2 && x[17] <= 12 && (k.core.tasks[t].idle ==> x[17] == 0)
             && (x[17] == 3 ==> ChildFound(k.trackers, k.core.tasks[t].tracker, Signed(x[10]), env.pick))
    ensures Answers(k, t, Dispatch(k, h, t, env), AnswerTo(k, k.core.tasks[t].tid, k.core.tasks[t].context.x, env))
  {
    if !k.core.tasks[t].idle {
      CallerIsAlone(k, h, t);
    }
    hide Inv, Names, HasRoom, ChildFound;
    match k.core.tasks[t].context.x[17]
    case 0 => YieldAnswers(k, h, t, env);
    case 1 => CreateAnswers(k, h, t, env);
    case 3 => WaitAnswers(k, h, t, env);
    case 5 => SleepAnswers(k, h, t, env);
    case 6 => EndpointCreateAnswers(k, h, t, env);
    case 7 => DestroyAnswers(k, h, t, env);
    case 8 => SendAnswers(k, h, t, env);
    case 10 => ReceiveAnswers(k, h, t, env);
    case 11 => TryReceiveAnswers(k, h, t, env);
    case _ =>
  }

  /** The step is the call, and perhaps the arming of the timer, which touches no task. */
  lemma SyscallKeepsTasks(k: Kernel, e: Event)
    requires e.Syscall? && HartIndex(k.core, e.hart) && Slot(k.core, CallerOf(k, e)) && Machine.Next(k, e).Run?
    ensures var t := CallerOf(k, e);
            var r := Dispatch(k.(core := SetTask(k.core, t, Entered(k.core.tasks[t], e.frame))), e.hart, t, e.env);
            && r.Run? && Machine.Next(k, e).value.core.tasks == r.value.kernel.core.tasks
            && Machine.Next(k, e).value.core.runQueue == r.value.kernel.core.runQueue
            && Machine.Next(k, e).value.trackers == r.value.kernel.trackers
            && Machine.Next(k, e).value.used == r.value.kernel.used
            && Machine.Next(k, e).value.nextTid == r.value.kernel.nextTid
  {
    hide Dispatch;
  }

  /** After a call that does not end its caller, its registers hold the answer and are otherwise the frame's. */
  lemma StepAnswers(k: Kernel, e: Event)
    requires Inv(k) && Legal(k, e) && Returns(k, e)
    ensures Machine.Next(k, e).Run? && Slot(Machine.Next(k, e).value.core, CallerOf(k, e))
    ensures var v, w := k.core.tasks[CallerOf(k, e)], Machine.Next(k, e).value.core.tasks[CallerOf(k, e)];
            && Finds(e.frame, v.context.satp, AnswerOf(k, e), w.context)
            && (AnswerOf(k, e) == Pending <==> Contexts.Blocked(w.state)) && w.tid == v.tid && w.tracker == v.tracker
  {
    hide Inv, Machine.Next, Dispatch, AnswerTo, Finds, Put, Entered, ChildFound;
    StepKeeps(k, e);
    var m := EnterStep(k, e.hart, e.frame);
    var t := CallerOf(k, e);
    SyscallKeepsTasks(k, e);
    EnteredRegisters(k.core.tasks[t], e.frame);
    CallAnswers(m, e.hart, t, e.env);
    SameAnswer(k, m, k.core.tasks[t].tid, e.frame.x, m.core.tasks[t].context.x, e.env);
    PutFinds(k.core.tasks[t], e.frame, AnswerOf(k, e));
  }

  /** Answers read no task and not register zero. */
  lemma SameAnswer(k: Kernel, m: Kernel, tid: nat, x: Regs, y: Regs, env: Env)
    requires m == k.(core := m.core) && forall i :: 1 <= i < 32 ==> x[i] == y[i]
    ensures AnswerTo(m, tid, y, env) == AnswerTo(k, tid, x, env)
  {
    hide DurationToTicks, FreeSlot;
    assert HasRoom(m, env) == HasRoom(k, env) && Names(m, x[10]) == Names(k, x[10]);
  }

  // ---------------------------------------------------------------------------------------------
  // Runs: the caller

  /** How a pending call ends when its caller is woken. */
  function AnswerBy(w: Wake): Answer {
    match w
    case NoWake => Pending
    case ByMessage(m) => Delivery(m)
    case ByDestroy => Value(Errno(43))
    case ByChild(tid) => Value(tid)
  }

  lemma WrittenFinds(f: Frame, satp: nat, c: Context, w: Wake)
    requires Finds(f, satp, Pending, c)
    ensures Finds(f, satp, AnswerBy(w), Written(c, w))
  {
  }

  lemma StaysUsed(k: Kernel, e: Event, l: Kernel)
    requires Inv(k) && Inv(l) && Legal(k, e) && Returns(k, e) && Machine.Next(k, e) == Run(l)
    ensures Live(l, CallerOf(k, e)) && Live(k, CallerOf(k, e))
  {
    hide Machine.Next;
    StepAnswers(k, e);
    CurrentIsRunning(k, e.hart, CallerOf(k, e));
    assert OwnsTracker(k, CallerOf(k, e));
  }

  /**
   * A task that makes a call resumes behind the `ecall`, with the registers it trapped with except for the answer:
   * the one known at the call, or, if that was pending, the one of the single wake since. `i` is that wake.
   */
  lemma CallerFinds(ks: seq<Kernel>, es: seq<Event>, m: nat, n: nat, u: int) returns (a: Answer, i: int)
    requires Runs.IsRun(ks, es) && m < n <= |es| && Returns(ks[m], es[m]) && CallerOf(ks[m], es[m]) == u
    requires forall j :: m < j < n ==> OffHart(ks[j], u)
    ensures Live(ks[m], u) && Live(ks[n], u)
    ensures Finds(es[m].frame, ks[m].core.tasks[u].context.satp, a, ks[n].core.tasks[u].context)
    ensures AnswerOf(ks[m], es[m]) != Pending ==> i == NIL && a == AnswerOf(ks[m], es[m])
    ensures AnswerOf(ks[m], es[m]) == Pending ==>
              if i == NIL then a == Pending else m < i < n && a == AnswerBy(WakeOf(ks[i], es[i], u))
    ensures forall j :: m < j < n ==> (WakeOf(ks[j], es[j], u) != NoWake <==> j == i)
    ensures !OffHart(ks[n], u) ==> a != Pending
  {
    hide Runs.IsRun, Inv, Machine.Next, WakeOf, Legal, AnswerOf, Finds, Written;
    RunStep(ks, es, m);
    StepAnswers(ks[m], es[m]);
    StaysUsed(ks[m], es[m], ks[m + 1]);
    i := WokenAtMostOnce(ks, es, m + 1, n, u);
    var satp := ks[m].core.tasks[u].context.satp;
    a := if i == NIL then AnswerOf(ks[m], es[m]) else AnswerBy(WakeOf(ks[i], es[i], u));
    if i != NIL {
      WrittenFinds(es[m].frame, satp, ks[m + 1].core.tasks[u].context, WakeOf(ks[i], es[i], u));
    }
    if !OffHart(ks[n], u) {
      RunsKeepInv(ks, es, n);
      OnHartIsAwake(ks[n], u);
    }
  }

  // ---------------------------------------------------------------------------------------------
  // Runs: messages, from the sender's registers to the receiver's

  /** The message in the registers of a task that has received one. */
  function InRegisters(v: Task): Message {
    var x := v.context.x;
    Message(x[15], x[11], x[12], x[13], x[14])
  }

  /** What a step adds to the messages sent to the current epoch of a slot. */
  ghost function SentMore(k: Kernel, e: Event, slot: nat, before: seq<Message>): seq<Message> {
    if !Returns(k, e) || Effect(k, e) == [] || Effect(k, e)[0].slot != slot then before else
    match Effect(k, e)[0]
    case Create(_, _, _) => []
    case Send(_, _) => before + [Words(k, e)]
    case SendWake(_, _, _) => before + [Words(k, e)]
    case _ => before
  }

  /** What a step to `l` adds to the messages found by receivers of the current epoch of a slot. */
  ghost function GotMore(k: Kernel, e: Event, l: Kernel, slot: nat, before: seq<Message>): seq<Message> {
    if !Returns(k, e) || Effect(k, e) == [] || Effect(k, e)[0].slot != slot then before else
    match Effect(k, e)[0]
    case Create(_, _, _) => []
    case Receive(_, _) =>
      if Slot(l.core, CallerOf(k, e)) then before + [InRegisters(l.core.tasks[CallerOf(k, e)])] else before
    case SendWake(_, _, u) => if Slot(l.core, u) then before + [InRegisters(l.core.tasks[u])] else before
    case _ => before
  }

  /** What was sent to the current epoch of a slot: ids and `a1` to `a4` of the senders, in sending order. */
  ghost function Sent(ks: seq<Kernel>, es: seq<Event>, n: nat, slot: nat): seq<Message>
    requires n <= |es| < |ks|
  {
    if n == 0 then [] else SentMore(ks[n - 1], es[n - 1], slot, Sent(ks, es, n - 1, slot))
  }

  /** What the receivers of the current epoch of a slot found in `a1` to `a5`, in the order they got it. */
  ghost function Got(ks: seq<Kernel>, es: seq<Event>, n: nat, slot: nat): seq<Message>
    requires n <= |es| < |ks|
  {
    if n == 0 then [] else GotMore(ks[n - 1], es[n - 1], ks[n], slot, Got(ks, es, n - 1, slot))
  }

  /** A receive leaves the message of its label in the caller's registers, a waking send in the waiter's. */
  lemma MessageLands(k: Kernel, e: Event, l: Kernel)
    requires Inv(k) && Legal(k, e) && Machine.Next(k, e) == Run(l) && Returns(k, e) && Effect(k, e) != []
    ensures match Effect(k, e)[0]
            case Receive(_, m) => Slot(l.core, CallerOf(k, e)) && InRegisters(l.core.tasks[CallerOf(k, e)]) == m
            case SendWake(_, m, u) => Slot(l.core, u) && InRegisters(l.core.tasks[u]) == m
            case _ => true
  {
    hide Inv, Legal, Machine.Next, Words;
    match Effect(k, e)[0]
    case Receive(_, _) => StepAnswers(k, e);
    case SendWake(slot, m, u) => WakeLands(k, e, l, slot, m, u);
    case _ =>
  }

  lemma WakeLands(k: Kernel, e: Event, l: Kernel, slot: nat, m: Message, u: int)
    requires Inv(k) && Legal(k, e) && Machine.Next(k, e) == Run(l) && Returns(k, e)
    requires Effect(k, e) == [SendWake(slot, m, u)]
    ensures Slot(l.core, u) && InRegisters(l.core.tasks[u]) == m
  {
    hide Inv, Legal, Machine.Next, Effect, LabelOf, WakeOf;
    LegalIsOffered(k, e);
    LabelIsEffect(k, e);
    WakesWaiter(k, e, slot, m, u);
    WakeOfLabel(k, e, slot, m, u);
    WaitersAreBlocked(k, slot, u);
    StepOwes(k, e, u);
  }

  lemma WakesWaiter(k: Kernel, e: Event, slot: nat, m: Message, u: int)
    requires Returns(k, e) && Effect(k, e) == [SendWake(slot, m, u)]
    ensures slot < |k.endpoints| && u in k.endpoints[slot].waiters
  {
    hide Words;
  }

  lemma WakeOfLabel(k: Kernel, e: Event, slot: nat, m: Message, u: int)
    requires LabelOf(k, e) == [SendWake(slot, m, u)]
    ensures WakeOf(k, e, u) == ByMessage(m)
  {
  }

  /** What a transition does to the two histories of a slot. */
  ghost predicate Recorded(labels: seq<Label>, slot: nat, sent: seq<Message>, got: seq<Message>, sent': seq<Message>,
                           got': seq<Message>)
  {
    if labels == [] || labels[0].slot != slot then sent' == sent && got' == got else
    match labels[0]
    case Create(_, _, _) => sent' == [] && got' == []
    case Send(_, m) => sent' == sent + [m] && got' == got
    case SendWake(_, m, _) => sent' == sent + [m] && got' == got + [m]
    case Receive(_, m) => sent' == sent && got' == got + [m]
    case _ => sent' == sent && got' == got
  }

  lemma SentStep(ks: seq<Kernel>, es: seq<Event>, n: nat, slot: nat)
    requires Runs.IsRun(ks, es) && 0 < n <= |es|
    ensures var more := LabelOf(ks[n - 1], es[n - 1]);
            && |more| <= 1 && Labels(ks, es, n) == Labels(ks, es, n - 1) + more
            && Recorded(more, slot, Sent(ks, es, n - 1, slot), Got(ks, es, n - 1, slot),
                        Sent(ks, es, n, slot), Got(ks, es, n, slot))
  {
    hide Runs.IsRun, Inv, Legal, Machine.Next, LabelOf, SentMore, GotMore, Recorded;
    RunStep(ks, es, n - 1);
    StepRecorded(ks[n - 1], es[n - 1], ks[n], slot, Sent(ks, es, n - 1, slot), Got(ks, es, n - 1, slot));
  }

  lemma StepRecorded(k: Kernel, e: Event, l: Kernel, slot: nat, sent: seq<Message>, got: seq<Message>)
    requires Inv(k) && Legal(k, e) && Machine.Next(k, e) == Run(l)
    ensures |LabelOf(k, e)| <= 1
    ensures Recorded(LabelOf(k, e), slot, sent, got, SentMore(k, e, slot, sent), GotMore(k, e, l, slot, got))
  {
    hide Inv, Legal, Machine.Next, LabelOf, Effect, Words, InRegisters;
    LegalIsOffered(k, e);
    LabelIsEffect(k, e);
    if Returns(k, e) {
      EffectMessage(k, e);
      if Effect(k, e) != [] {
        MessageLands(k, e, l);
      }
    }
  }

  lemma LegalIsOffered(k: Kernel, e: Event)
    requires Legal(k, e)
    ensures Offered(k, e)
  {
  }

  /** At most one transition, and what it sends are the caller's words. */
  lemma EffectMessage(k: Kernel, e: Event)
    requires Returns(k, e)
    ensures |Effect(k, e)| <= 1
    ensures Effect(k, e) != [] && (Effect(k, e)[0].Send? || Effect(k, e)[0].SendWake?) ==>
              Effect(k, e)[0].message == Words(k, e)
  {
    hide Words;
  }

  lemma OneMoreLabel(before: seq<Label>, more: seq<Label>, slot: nat)
    requires |more| <= 1
    ensures Recorded(more, slot, Accepted(before, slot), Delivered(before, slot),
                     Accepted(before + more, slot), Delivered(before + more, slot))
  {
    if more != [] {
      assert (before + more)[..|before|] == before;
    } else {
      assert before + more == before;
    }
  }

  lemma {:induction false} HistoriesAgree(ks: seq<Kernel>, es: seq<Event>, n: nat, slot: nat)
    requires Runs.IsRun(ks, es) && n <= |es|
    ensures Accepted(Labels(ks, es, n), slot) == Sent(ks, es, n, slot)
    ensures Delivered(Labels(ks, es, n), slot) == Got(ks, es, n, slot)
  {
    if n > 0 {
      hide Runs.IsRun, LabelOf, Sent, Got, Labels, Accepted, Delivered;
      HistoriesAgree(ks, es, n - 1, slot);
      SentStep(ks, es, n, slot);
      OneMoreLabel(Labels(ks, es, n - 1), LabelOf(ks[n - 1], es[n - 1]), slot);
    }
  }

  /**
   * End to end: over every run and within one epoch of an endpoint, the ids and `a1` to `a4` of the senders are, in
   * order, what the receivers found in `a5` and `a1` to `a4`, followed by the messages still queued.
   */
  lemma MessagesArriveAsSent(ks: seq<Kernel>, es: seq<Event>, slot: nat)
    requires Runs.IsRun(ks, es) && slot < |ks[|es|].endpoints| && ks[|es|].endpoints[slot].active
    ensures Sent(ks, es, |es|, slot) == Got(ks, es, |es|, slot) + ks[|es|].endpoints[slot].queue
  {
    hide Runs.IsRun, Sent, Got, Accepted, Delivered, Labels;
    KernelDeliveryIsFifoExactlyOnce(ks, es, slot);
    HistoriesAgree(ks, es, |es|, slot);
  }

  /**
   * A receiver that blocked is next dispatched behind its `ecall` with `a0` = 0, `a1` to `a4` of the frame of one send
   * to its endpoint and that sender's id in `a5`; or with `a0` = -43 because the endpoint was destroyed.
   */
  lemma BlockedReceiverGetsTheSendersWords(ks: seq<Kernel>, es: seq<Event>, m: nat, n: nat, slot: nat, u: int)
      returns (i: nat)
    requires Runs.IsRun(ks, es) && m < n <= |es| && LabelOf(ks[m], es[m]) == [Block(slot, u)]
    requires (forall j :: m < j < n ==> OffHart(ks[j], u)) && !OffHart(ks[n], u)
    ensures m < i < n && Returns(ks[m], es[m]) && Returns(ks[i], es[i]) && Live(ks[m], u) && Live(ks[n], u)
    ensures var f, g, c := es[m].frame, es[i].frame, ks[n].core.tasks[u].context;
            var satp := ks[m].core.tasks[u].context.satp;
            || (&& LabelOf(ks[i], es[i]) == [SendWake(slot, Words(ks[i], es[i]), u)]
                && Finds(f, satp, Delivery(Words(ks[i], es[i])), c)
                && c.x[11] == g.x[11] && c.x[12] == g.x[12] && c.x[13] == g.x[13] && c.x[14] == g.x[14]
                && c.x[15] == ks[i].core.tasks[CallerOf(ks[i], es[i])].tid)
            || (LabelOf(ks[i], es[i]) == [Destroy(slot)] && Finds(f, satp, Value(Errno(43)), c))
  {
    hide Runs.IsRun, Inv, Machine.Next, WakeOf, Legal, LabelOf, Written, Effect, AnswerOf;
    i := BlockedReceiverResumesOnce(ks, es, m, n, slot, u);
    RunStep(ks, es, m);
    RunStep(ks, es, i);
    LegalIsOffered(ks[m], es[m]);
    LegalIsOffered(ks[i], es[i]);
    LabelIsEffect(ks[m], es[m]);
    LabelIsEffect(ks[i], es[i]);
    BlockIsCallers(ks[m], es[m], slot, u);
    EffectMessage(ks[i], es[i]);
    var a, j := CallerFinds(ks, es, m, n, u);
    assert j == i;
    WakesAlike(ks[i], es[i], slot, u);
  }

  lemma BlockIsCallers(k: Kernel, e: Event, slot: nat, u: int)
    requires Returns(k, e) && Effect(k, e) == [Block(slot, u)]
    ensures CallerOf(k, e) == u && AnswerOf(k, e) == Pending
  {
  }

  lemma WakesAlike(k: Kernel, e: Event, slot: nat, u: int)
    requires WakeOf(k, e, u) != NoWake
    ensures forall m :: LabelOf(k, e) == [SendWake(slot, m, u)] ==> WakeOf(k, e, u) == ByMessage(m)
    ensures LabelOf(k, e) == [Destroy(slot)] ==> WakeOf(k, e, u) == ByDestroy
  {
  }

  // ---------------------------------------------------------------------------------------------
  // Runs: who may destroy an endpoint

  /** Every live epoch was created by a call, and belongs to the task that made it. */
  lemma {:induction false} CreatorOf(ks: seq<Kernel>, es: seq<Event>, n: nat, slot: nat) returns (m: nat)
    requires Runs.IsRun(ks, es) && n <= |es| && slot < |ks[n].endpoints| && ks[n].endpoints[slot].active
    ensures m < n && Returns(ks[m], es[m])
    ensures var p := ks[n].endpoints[slot];
            && Effect(ks[m], es[m]) == [Create(slot, p.owner, p.generation)]
            && p.owner == ks[m].core.tasks[CallerOf(ks[m], es[m])].tid
    decreases n
  {
    hide Inv, Legal, Machine.Next, LabelOf, Effect, Placed, TrackersOk;
    if n > 0 {
      var k, e := ks[n - 1], es[n - 1];
      RunStep(ks, es, n - 1);
      hide Runs.IsRun, Booted;
      LegalIsOffered(k, e);
      LabelIsEffect(k, e);
      StepRefines(k, e);
      if LabelOf(k, e) != [] && LabelOf(k, e)[0].Create? && LabelOf(k, e)[0].slot == slot {
        m := n - 1;
        CreateIsCallers(k, e);
      } else {
        m := CreatorOf(ks, es, n - 1, slot);
      }
    } else {
      assert false;
    }
  }

  lemma CreateIsCallers(k: Kernel, e: Event)
    requires Returns(k, e) && Effect(k, e) != [] && Effect(k, e)[0].Create?
    ensures |Effect(k, e)| == 1 && Effect(k, e)[0].owner == k.core.tasks[CallerOf(k, e)].tid
  {
  }

  /** An endpoint is destroyed only by the task that created that epoch of it. */
  lemma OnlyCreatorDestroys(ks: seq<Kernel>, es: seq<Event>, n: nat, slot: nat) returns (m: nat)
    requires Runs.IsRun(ks, es) && n < |es| && Returns(ks[n], es[n]) && Effect(ks[n], es[n]) == [Destroy(slot)]
    ensures slot < |ks[n].endpoints| && m < n && Returns(ks[m], es[m])
    ensures var tid := ks[n].core.tasks[CallerOf(ks[n], es[n])].tid;
            && Effect(ks[m], es[m]) == [Create(slot, tid, ks[n].endpoints[slot].generation)]
            && ks[m].core.tasks[CallerOf(ks[m], es[m])].tid == tid
  {
    hide Runs.IsRun;
    m := CreatorOf(ks, es, n, slot);
  }
}
