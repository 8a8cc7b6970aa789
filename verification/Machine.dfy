/**
 * The task executive as one machine over values: every trap of a hart is one step. Queues are
 * sequences of task slots; the flags, state letters and fail-closed checks are those of the code,
 * so a step can end in `Park`. Dereferencing a slot outside the table is also `Park`.
 */
module Machine {
  import opened Base
  import opened IpcModel

  // ---------------------------------------------------------------------------------------------
  // Data

  type Regs = x: seq<nat> | |x| == 32 witness seq(32, i => 0)

  datatype Context = Context(x: Regs, mstatus: nat, mepc: nat, satp: nat)

  datatype Frame = Frame(x: Regs, mstatus: nat, mepc: nat)

  /** `Blank` is the zero byte of a cleared slot; the other letters are those of `TaskState`. */
  datatype TaskState = Blank | Running | Ready | Ended | BlockedMessage | BlockedSleep | BlockedJoin

  datatype Task = Task(cpu: int, context: Context, tid: nat, state: TaskState, stateInfo: nat, tracker: int,
                       deadline: nat, delayQueued: bool, messageQueued: bool, detached: bool, idle: bool,
                       queued: bool)

  datatype Hart = Hart(current: int, idle: int, slice: nat, armed: nat)

  /** What the scheduler and the timer see. */
  datatype Core = Core(tasks: seq<Task>, runQueue: seq<int>, harts: seq<Hart>, sleepers: seq<seq<int>>)

  datatype ExitStatus = Alive | ExitedClean | Crashed

  datatype Tracker = Tracker(parent: int, key: nat, task: int, status: ExitStatus, returnValue: nat,
                             waiting: bool, waitTid: int)

  datatype Kernel = Kernel(core: Core, used: seq<bool>, endpoints: seq<Endpoint>, limits: Limits,
                           trackers: map<int, Tracker>, trackerSlots: nat, nextTid: nat)

  function ZeroRegs(): Regs { seq(32, i => 0) }

  const BLANK_CONTEXT := Context(ZeroRegs(), 0, 0, 0)
  const BLANK_TASK := Task(NIL, BLANK_CONTEXT, 0, Blank, 0, NIL, 0, false, false, false, false, false)

  const TASK_SLICE: nat := 100000
  const IDLE_SLICE: nat := 1000000
  const FREQUENCY: nat := 10000000
  const NANOSECONDS: nat := 1000000000

  predicate Slot(c: Core, t: int) { 0 <= t < |c.tasks| }

  predicate SameEndpoints(k: Kernel, l: Kernel) {
    l.endpoints == k.endpoints && l.limits == k.limits && SameShape(k.core, l.core)
  }

  predicate HartIndex(c: Core, h: int) { 0 <= h < |c.harts| && h < |c.sleepers| }

  /** Every step keeps the number of task slots, harts and delay queues. */
  predicate SameShape(c: Core, d: Core) {
    |c.tasks| == |d.tasks| && |c.harts| == |d.harts| && |c.sleepers| == |d.sleepers|
  }

  function SetTask(c: Core, t: int, v: Task): Core
    requires Slot(c, t)
  {
    c.(tasks := c.tasks[t := v])
  }

  function SetX(t: Task, index: nat, v: nat): Task
    requires index < 32
  {
    t.(context := t.context.(x := t.context.x[index := v]))
  }

  function A0(t: Task, v: nat): Task { SetX(t, 10, v) }

  // ---------------------------------------------------------------------------------------------
  // Scheduler

  /** The conditions under which `add_task` accepts a task. */
  predicate Addable(t: Task) {
    t.state != Ended && !t.idle && t.cpu != NIL && !t.delayQueued && !t.queued && !t.messageQueued
  }

  /** `RunQueue::insert` after its checks: READY is published together with membership. */
  function Enqueue(c: Core, t: int): Core
    requires Slot(c, t)
  {
    SetTask(c, t, c.tasks[t].(state := Ready, queued := true)).(runQueue := c.runQueue + [t])
  }

  function AddTask(c: Core, t: int): (r: Outcome<Core>)
    ensures r.Run? ==> SameShape(c, r.value)
  {
    if Slot(c, t) && Addable(c.tasks[t]) then Run(Enqueue(c, t)) else Park
  }

  function ReturnRunnable(c: Core, h: int): (r: Outcome<Core>)
    requires HartIndex(c, h)
    ensures r.Run? ==> SameShape(c, r.value)
  {
    var t := c.harts[h].current;
    if t == NIL then Run(c)
    else if !Slot(c, t) then Park
    else if c.tasks[t].idle then Run(c)
    else AddTask(c, t)
  }

  function SetCurrent(c: Core, h: int, t: int): (r: Outcome<Core>)
    requires HartIndex(c, h)
    ensures r.Run? ==> SameShape(c, r.value)
  {
    if !Slot(c, t) then Park else
    var v := c.tasks[t];
    if v.state == Ended || v.queued || v.delayQueued || v.messageQueued then Park
    else Run(SetTask(c, t, v.(cpu := h, state := Running)).(harts := c.harts[h := c.harts[h].(current := t)]))
  }

  /** `DelayQueue::ticks_until_next`. */
  function TicksUntilNext(tasks: seq<Task>, q: seq<int>, now: nat, maximum: nat): (ticks: nat)
    ensures maximum >= 1 ==> 1 <= ticks <= maximum
    ensures q != [] && 0 <= q[0] < |tasks| && now < tasks[q[0]].deadline ==> now + ticks <= tasks[q[0]].deadline
  {
    if q == [] || !(0 <= q[0] < |tasks|) then maximum
    else if tasks[q[0]].deadline <= now then 1
    else if tasks[q[0]].deadline - now < maximum then tasks[q[0]].deadline - now
    else maximum
  }

  /** `RunQueue::remove` of the head: unlink it, then insist that it was ready and nowhere else. */
  function Dequeue(c: Core): (r: Outcome<Core>)
    requires c.runQueue != []
    ensures r.Run? ==> SameShape(c, r.value)
  {
    var t := c.runQueue[0];
    if !Slot(c, t) then Park else
    var v := c.tasks[t].(queued := false);
    if v.state != Ready || v.delayQueued || v.messageQueued then Park
    else Run(SetTask(c, t, v).(runQueue := c.runQueue[1..]))
  }

  function SetNextRunnable(c: Core, h: int, now: nat): (r: Outcome<Core>)
    requires HartIndex(c, h)
    ensures r.Run? ==> SameShape(c, r.value)
  {
    if c.runQueue == [] then
      var slice := TicksUntilNext(c.tasks, c.sleepers[h], now, IDLE_SLICE);
      SetCurrent(c.(harts := c.harts[h := c.harts[h].(slice := slice)]), h, c.harts[h].idle)
    else
      var d :- Dequeue(c);
      SetCurrent(d.(harts := d.harts[h := d.harts[h].(slice := TASK_SLICE)]), h, c.runQueue[0])
  }

  // ---------------------------------------------------------------------------------------------
  // Time

  /** `duration_to_ticks`: 0 rejects the duration. */
  function DurationToTicks(seconds: nat, nanoseconds: nat): nat {
    if nanoseconds >= NANOSECONDS || seconds > U64_MAX / FREQUENCY then 0 else
    var secondsTicks := seconds * FREQUENCY;
    var nanosecondsTicks := (nanoseconds * FREQUENCY + NANOSECONDS - 1) / NANOSECONDS;
    if secondsTicks > U64_MAX - nanosecondsTicks then 0
    else if secondsTicks + nanosecondsTicks == 0 then 1 else secondsTicks + nanosecondsTicks
  }

  /** `DelayQueue::insert`: behind every entry due no later than the new one. */
  function InsertSleeper(tasks: seq<Task>, q: seq<int>, t: int, deadline: nat): seq<int> {
    if q == [] || !(0 <= q[0] < |tasks|) || tasks[q[0]].deadline > deadline then [t] + q
    else [q[0]] + InsertSleeper(tasks, q[1..], t, deadline)
  }

  /** `delay_task` once the deadline is known. */
  function DelayUntil(c: Core, t: int, deadline: nat): Core
    requires Slot(c, t) && HartIndex(c, c.tasks[t].cpu)
  {
    var h := c.tasks[t].cpu;
    var q := c.sleepers[h];
    var v := c.tasks[t].(state := BlockedSleep, stateInfo := deadline, deadline := deadline, delayQueued := true);
    SetTask(c, t, v).(sleepers := c.sleepers[h := InsertSleeper(c.tasks, q, t, deadline)])
  }

  /** `check_release_tasks`: wake every entry of the hart's delay queue that is due. */
  function ReleaseDue(c: Core, h: int, now: nat): (r: Outcome<Core>)
    requires HartIndex(c, h)
    ensures r.Run? ==> SameShape(c, r.value)
    decreases |c.sleepers[h]|
  {
    var q := c.sleepers[h];
    if q == [] then Run(c)
    else if !Slot(c, q[0]) then Park
    else if c.tasks[q[0]].deadline > now then Run(c)
    else
      var v := c.tasks[q[0]].(delayQueued := false, stateInfo := 0);
      var d :- AddTask(SetTask(c, q[0], v).(sleepers := c.sleepers[h := q[1..]]), q[0]);
      ReleaseDue(d, h, now)
  }

  /** `arm_current_timeslice`: the absolute deadline programmed for the hart. */
  function Arm(c: Core, h: int, now: nat): (r: Outcome<Core>)
    requires HartIndex(c, h)
    ensures r.Run? ==> SameShape(c, r.value)
  {
    var t := c.harts[h].current;
    if t != NIL && !Slot(c, t) then Park else
    var ticks := if t != NIL && c.tasks[t].idle then TicksUntilNext(c.tasks, c.sleepers[h], now, IDLE_SLICE)
                 else c.harts[h].slice;
    var ticks' := if ticks == 0 then 1 else ticks;
    var deadline := if now + ticks' > U64_MAX then U64_MAX else now + ticks';
    Run(c.(harts := c.harts[h := c.harts[h].(armed := deadline)]))
  }

  // ---------------------------------------------------------------------------------------------
  // Endpoints

  datatype Handle = Handle(index: nat, generation: nat) {
    function Raw(): nat { generation * TWO32 + index }
  }

  function FromRaw(raw: nat): Handle { Handle(raw % TWO32, raw / TWO32) }

  predicate WellFormed(lim: Limits, slots: nat, h: Handle) {
    h.index < slots && h.generation != 0 && h.generation <= lim.ceiling
  }

  /** The endpoint a handle denotes, or `NIL` when `send`, `try_recv` and `recv` answer -EINVAL. */
  function Lookup(lim: Limits, eps: seq<Endpoint>, raw: nat): (slot: int)
    ensures slot == NIL || (0 <= slot < |eps| && slot == raw % TWO32 && eps[slot].active)
  {
    var h := FromRaw(raw);
    if WellFormed(lim, |eps|, h) && eps[h.index].active && eps[h.index].generation == h.generation then h.index
    else NIL
  }

  /** The value of a system call on the endpoint table: new state and `a0`. */
  datatype Reply = Reply(core: Core, endpoints: seq<Endpoint>, a0: nat)

  function Receipt(t: Task, m: Message): Task {
    var x := t.context.x[10 := 0][11 := m.w0][12 := m.w1][13 := m.w2][14 := m.w3][15 := m.sender];
    t.(context := t.context.(x := x))
  }

  function CreateEndpoint(eps: seq<Endpoint>, owner: nat): (seq<Endpoint>, nat) {
    var i := FreeSlot(eps);
    if i == |eps| then (eps, Errno(28))
    else (eps[i := Opened(eps[i], owner)], Handle(i, FirstGeneration(eps[i])).Raw())
  }

  /** A waiter just popped from its endpoint: out of the FIFO, told why, not yet published. */
  function Unlinked(t: Task): Task { t.(messageQueued := false, stateInfo := 0) }

  /** The wake loop of `destroy_endpoint`. */
  function WakeAll(c: Core, waiters: seq<int>): (r: Outcome<Core>)
    ensures r.Run? ==> SameShape(c, r.value) && r.value.sleepers == c.sleepers && r.value.harts == c.harts
    decreases waiters
  {
    if waiters == [] then Run(c)
    else if !Slot(c, waiters[0]) then Park
    else
      var v := A0(Unlinked(c.tasks[waiters[0]]), Errno(43));
      var d :- AddTask(SetTask(c, waiters[0], v), waiters[0]);
      WakeAll(d, waiters[1..])
  }

  function DestroyEndpoint(lim: Limits, c: Core, eps: seq<Endpoint>, caller: nat, raw: nat): (result: Outcome<Reply>)
    ensures result.Run? ==> SameShape(c, result.value.core)
  {
    var h := FromRaw(raw);
    if !WellFormed(lim, |eps|, h) then Run(Reply(c, eps, Errno(22))) else
    var e := eps[h.index];
    if !e.claimed || !e.active || e.generation != h.generation then Run(Reply(c, eps, Errno(22)))
    else if e.owner != caller then Run(Reply(c, eps, Errno(13)))
    else
      var d :- WakeAll(c, e.waiters);
      Run(Reply(d, eps[h.index := Closed(e, lim.ceiling)], 0))
  }

  function SendMessage(lim: Limits, c: Core, eps: seq<Endpoint>, raw: nat, m: Message): (result: Outcome<Reply>)
    ensures result.Run? ==> SameShape(c, result.value.core)
  {
    var i := Lookup(lim, eps, raw);
    if i == NIL then Run(Reply(c, eps, Errno(22))) else
    var e := eps[i];
    if e.waiters != [] && e.queue != [] then Park
    else if e.waiters != [] then
      var r := e.waiters[0];
      if !Slot(c, r) then Park else
      var d :- AddTask(SetTask(c, r, Receipt(Unlinked(c.tasks[r]), m)), r);
      Run(Reply(d, eps[i := e.(waiters := e.waiters[1..])], 0))
    else if |e.queue| >= lim.depth then Run(Reply(c, eps, Errno(11)))
    else Run(Reply(c, eps[i := e.(queue := e.queue + [m])], 0))
  }

  /** `try_recv`, and the registers `try_handle` writes for it. */
  function TryReceive(lim: Limits, c: Core, eps: seq<Endpoint>, t: int, raw: nat): (Core, seq<Endpoint>)
    requires Slot(c, t)
  {
    var i := Lookup(lim, eps, raw);
    if i == NIL then (SetTask(c, t, A0(c.tasks[t], Errno(22))), eps)
    else if eps[i].queue == [] then (SetTask(c, t, A0(c.tasks[t], Errno(11))), eps)
    else (SetTask(c, t, Receipt(c.tasks[t], eps[i].queue[0])), eps[i := eps[i].(queue := eps[i].queue[1..])])
  }

  /** `recv`: deliver, reject, or block the caller and switch the hart away from it. */
  function ReceiveMessage(lim: Limits, c: Core, eps: seq<Endpoint>, h: int, t: int, raw: nat, now: nat)
    : (result: Outcome<(Core, seq<Endpoint>, bool)>)
    requires HartIndex(c, h) && Slot(c, t)
    ensures result.Run? ==> SameShape(c, result.value.0)
  {
    if c.tasks[t].messageQueued then Park else
    var i := Lookup(lim, eps, raw);
    if i == NIL then Run((SetTask(c, t, A0(c.tasks[t], Errno(22))), eps, false)) else
    var e := eps[i];
    if e.waiters != [] && e.queue != [] then Park
    else if e.queue != [] then
      Run((SetTask(c, t, Receipt(c.tasks[t], e.queue[0])), eps[i := e.(queue := e.queue[1..])], false))
    else
      var v := c.tasks[t].(messageQueued := true, state := BlockedMessage, stateInfo := raw);
      var d :- SetNextRunnable(SetTask(c, t, v), h, now);
      Run((d, eps[i := e.(waiters := e.waiters + [t])], true))
  }

  // ---------------------------------------------------------------------------------------------
  // Task manager

  /**
   * Whether `remove_tracker_locked(t)` frees `d`: the target, and when the target hangs from the
   * kernel also every completed tracker whose chain of ancestors up to the target is completed.
   */
  predicate Doomed(f: map<int, Tracker>, t: int, d: int)
    decreases if d in f then f[d].key else 0
  {
    d == t ||
    (t in f && f[t].parent == NIL && d in f && f[d].task == NIL && f[d].parent in f &&
     f[f[d].parent].key < f[d].key && Doomed(f, t, f[d].parent))
  }

  /** The forest after `remove_tracker_locked(t)`; sibling order is not part of this view. */
  function Reap(f: map<int, Tracker>, t: int): map<int, Tracker>
    requires t in f
  {
    map d | d in f && !Doomed(f, t, d) ::
      if Doomed(f, t, f[d].parent) then f[d].(parent := f[t].parent) else f[d]
  }

  /** A crashed orphan stops the kernel instead of being forgotten. */
  predicate CrashedOrphan(f: map<int, Tracker>, t: int) {
    exists d :: d in f && d != t && Doomed(f, t, d) && f[d].status == Crashed
  }

  function RemoveTracker(f: map<int, Tracker>, t: int): Outcome<map<int, Tracker>>
    requires t in f
  {
    if CrashedOrphan(f, t) then Park else Run(Reap(f, t))
  }

  predicate Matches(waitTid: int, key: nat) { waitTid < 0 || waitTid == key }

  predicate IsChild(f: map<int, Tracker>, parent: int, c: int) { c in f && f[c].parent == parent }

  /** What `find_child_locked` may return: the sibling order decides among the candidates. */
  ghost predicate ChildFound(f: map<int, Tracker>, parent: int, tid: int, pick: int) {
    if pick == NIL then forall c :: IsChild(f, parent, c) ==> tid >= 0 && f[c].key != tid
    else
      && IsChild(f, parent, pick)
      && (tid >= 0 ==> f[pick].key == tid)
      && (tid < 0 && f[pick].task != NIL ==> forall c :: IsChild(f, parent, c) ==> f[c].task != NIL)
  }

  /** The lowest free slot of a used table, or its size. */
  function FreeIndex(used: seq<bool>): (i: nat)
    ensures i <= |used| && (i < |used| ==> !used[i])
    ensures forall j :: 0 <= j < i ==> used[j]
  {
    if used == [] || !used[0] then 0 else
    var rest := FreeIndex(used[1..]);
    assert forall j :: 0 < j < 1 + rest ==> used[j] == used[1..][j - 1];
    1 + rest
  }

  function FreeTracker(f: map<int, Tracker>, slots: nat, from: nat): (i: nat)
    requires from <= slots
    ensures from <= i <= slots && (i < slots ==> i !in f)
    ensures forall j :: from <= j < i ==> j in f
    decreases slots - from
  {
    if from == slots || from !in f then from else FreeTracker(f, slots, from + 1)
  }

  /** Where the stacks and the return stub of user tasks are, and the status register when a task is prepared. */
  datatype Image = Image(stacks: nat, stub: nat, mstatus: nat)

  /** What `create` is asked for, and whether the child's stack can be mapped. */
  datatype Spawn = Spawn(entry: nat, argument: nat, stackOk: bool, image: Image)

  const STACK_SIZE: nat := 4096

  /** Previous privilege user, no borrowed translation, interrupts on after `mret`; the other bits stay. */
  function UserStatus(m: nat): nat {
    m - m / 0x800 % 4 * 0x800 - m / 0x2_0000 % 2 * 0x2_0000 + (1 - m / 0x80 % 2) * 0x80
  }

  /** `initialize_user`. */
  function UserContext(entry: nat, argument: nat, stackTop: nat, stub: nat, mstatus: nat, satp: nat): Context {
    Context(ZeroRegs()[1 := stub][2 := stackTop][10 := argument], UserStatus(mstatus), entry, satp)
  }

  /** The context of the child in slot `i`, in the address space of its creator. */
  function SpawnContext(s: Spawn, i: nat, satp: nat): Context {
    UserContext(s.entry, s.argument, s.image.stacks + i * STACK_SIZE + STACK_SIZE, s.image.stub, s.image.mstatus, satp)
  }

  function NewTask(h: int, context: Context, tid: nat, tracker: int): Task {
    Task(h, context, tid, Ready, 0, tracker, 0, false, false, false, false, false)
  }

  /** `create_task` followed by `add_task`; `a0` of the caller is the child's id or -ENOMEM. */
  function CreateTask(k: Kernel, h: int, t: int, s: Spawn): (r: Outcome<Kernel>)
    requires HartIndex(k.core, h) && Slot(k.core, t)
    ensures r.Run? ==> SameEndpoints(k, r.value)
  {
    var i, r := FreeIndex(k.used), FreeTracker(k.trackers, k.trackerSlots, 0);
    if i >= |k.used| || r >= k.trackerSlots || !s.stackOk || !Slot(k.core, i) then
      Run(k.(core := SetTask(k.core, t, A0(k.core.tasks[t], Errno(12)))))
    else
      var child := NewTask(h, SpawnContext(s, i, k.core.tasks[t].context.satp), k.nextTid, r);
      var tracker := Tracker(k.core.tasks[t].tracker, k.nextTid, i, Alive, 0, false, 0);
      var c :- AddTask(SetTask(k.core, i, child), i);
      Run(k.(core := SetTask(c, t, A0(c.tasks[t], k.nextTid)), used := k.used[i := true],
             trackers := k.trackers[r := tracker], nextTid := k.nextTid + 1))
  }

  function ReleaseTask(k: Kernel, t: int): (r: Outcome<Kernel>)
    ensures r.Run? ==> SameEndpoints(k, r.value)
  {
    if !Slot(k.core, t) || t >= |k.used| then Park else
    var v := k.core.tasks[t];
    if v.queued || v.delayQueued || v.messageQueued then Park
    else Run(k.(core := SetTask(k.core, t, BLANK_TASK), used := k.used[t := false]))
  }

  /** The part of `end_task` under the task-manager lock: report to the parent, reap, free. */
  function Bury(k: Kernel, t: int, returnValue: nat, status: ExitStatus): (result: Outcome<Kernel>)
    ensures result.Run? ==> SameEndpoints(k, result.value)
  {
    if !Slot(k.core, t) || k.core.tasks[t].tracker !in k.trackers then Park else
    var v := k.core.tasks[t];
    var r := v.tracker;
    var f := k.trackers[r := k.trackers[r].(status := status, returnValue := returnValue, task := NIL)];
    var p := f[r].parent;
    if v.detached then
      if status == Crashed then Park else
      var g :- RemoveTracker(f, r);
      ReleaseTask(k.(trackers := g), t)
    else if p != NIL && p !in f then Park
    else if p != NIL && f[p].waiting then
      if Matches(f[p].waitTid, v.tid) then
        var w := f[p].task;
        if !Slot(k.core, w) then Park else
        var g :- RemoveTracker(f[p := f[p].(waiting := false)], r);
        var c :- AddTask(SetTask(k.core, w, A0(k.core.tasks[w], v.tid)), w);
        ReleaseTask(k.(core := c, trackers := g), t)
      else ReleaseTask(k.(trackers := f), t)
    else if p == NIL then
      if status == Crashed then Park else
      var g :- RemoveTracker(f, r);
      ReleaseTask(k.(trackers := g), t)
    else ReleaseTask(k.(trackers := f), t)
  }

  /** `end_task` of the current task: the hart moves on first. */
  function EndTask(k: Kernel, h: int, t: int, returnValue: nat, status: ExitStatus, now: nat): (r: Outcome<Kernel>)
    requires HartIndex(k.core, h) && Slot(k.core, t)
    ensures r.Run? ==> SameEndpoints(k, r.value)
  {
    var c :- SetNextRunnable(SetTask(k.core, t, k.core.tasks[t].(state := Ended)), h, now);
    Bury(k.(core := c), t, returnValue, status)
  }

  /** The accepted path of `sleep`: queue the caller until the deadline and switch the hart away. */
  function Doze(c: Core, h: int, t: int, deadline: nat, now: nat): (result: Outcome<Core>)
    requires HartIndex(c, h) && Slot(c, t) && HartIndex(c, c.tasks[t].cpu)
    ensures result.Run? ==> SameShape(c, result.value)
  {
    SetNextRunnable(DelayUntil(SetTask(c, t, A0(c.tasks[t], 0)), t, deadline), h, now)
  }

  /** `sleep`: `a0` is cleared first and set to -EINVAL when the delay is refused. */
  function Sleep(c: Core, h: int, t: int, ticks: nat, now: nat, sliceNow: nat): (result: Outcome<(Core, bool)>)
    requires HartIndex(c, h) && Slot(c, t)
    ensures result.Run? ==> SameShape(c, result.value.0)
  {
    var v := c.tasks[t];
    if v.cpu == NIL || ticks == 0 || now + ticks > U64_MAX then
      Run((SetTask(c, t, A0(v, Errno(22))), false))
    else if !HartIndex(c, v.cpu) then Park
    else if v.delayQueued || v.queued then
      Run((SetTask(c, t, A0(v, Errno(22)).(state := Running, stateInfo := 0)), false))
    else
      var d :- Doze(c, h, t, now + ticks, sliceNow);
      Run((d, true))
  }

  // ---------------------------------------------------------------------------------------------
  // Traps

  /**
   * What a step takes from outside: the clock at each read, the checks on a new task's entry point and stack, the
   * child found.
   */
  datatype Env = Env(now: nat, sliceNow: nat, armNow: nat, entryOk: bool, stackOk: bool, image: Image, pick: int)

  datatype Event =
    | Start(hart: int, env: Env)
    | Syscall(hart: int, frame: Frame, env: Env)
    | Timer(hart: int, frame: Frame, env: Env)

  /** `save_current_context`. The satp register still holds what the last dispatch wrote. */
  function Save(t: Task, f: Frame): Task {
    t.(context := Context(f.x[0 := 0], f.mstatus, f.mepc, t.context.satp))
  }

  /** `int64_t` reading of a register. */
  function Signed(v: nat): int { if v < TWO64 / 2 then v else v - TWO64 }

  /** What a system call leaves behind, and whether the hart was switched to another task. */
  datatype Handled = Handled(kernel: Kernel, rescheduled: bool)

  function Returned(k: Kernel, t: int, a0: nat): Handled
    requires Slot(k.core, t)
  {
    Handled(k.(core := SetTask(k.core, t, A0(k.core.tasks[t], a0))), false)
  }

  function HandleYield(k: Kernel, h: int, t: int, env: Env): (result: Outcome<Handled>)
    requires HartIndex(k.core, h) && Slot(k.core, t)
    ensures result.Run? ==> SameShape(k.core, result.value.kernel.core)
  {
    var c :- ReturnRunnable(SetTask(k.core, t, A0(k.core.tasks[t], 0)), h);
    var d :- SetNextRunnable(c, h, env.sliceNow);
    Run(Handled(k.(core := d), true))
  }

  function HandleCreate(k: Kernel, h: int, t: int, env: Env): (result: Outcome<Handled>)
    requires HartIndex(k.core, h) && Slot(k.core, t)
    ensures result.Run? ==> SameShape(k.core, result.value.kernel.core)
  {
    if !env.entryOk then Run(Returned(k, t, Errno(95))) else
    var x := k.core.tasks[t].context.x;
    var l :- CreateTask(k, h, t, Spawn(x[10], x[11], env.stackOk, env.image));
    Run(Handled(l, false))
  }

  /** The caller ends: by its own call, or as crashed for an undefined system call number. */
  function HandleExit(k: Kernel, h: int, t: int, returnValue: nat, status: ExitStatus,
                      env: Env): (result: Outcome<Handled>)
    requires HartIndex(k.core, h) && Slot(k.core, t)
    ensures result.Run? ==> SameShape(k.core, result.value.kernel.core)
  {
    var l :- EndTask(k, h, t, returnValue, status, env.sliceNow);
    Run(Handled(l, true))
  }

  /** `wait_task`; `pick` is the child found. */
  function WaitTask(k: Kernel, h: int, t: int, tid: int, pick: int, now: nat): (result: Outcome<Handled>)
    requires HartIndex(k.core, h) && Slot(k.core, t)
    ensures result.Run? ==> SameEndpoints(k, result.value.kernel)
  {
    var v := k.core.tasks[t];
    if v.tracker !in k.trackers || (pick != NIL && pick !in k.trackers) then Park
    else if pick == NIL then Run(Returned(k, t, Errno(35)))
    else if k.trackers[pick].task == NIL then
      var g :- RemoveTracker(k.trackers, pick);
      Run(Returned(k.(trackers := g), t, k.trackers[pick].key))
    else
      var r := k.trackers[v.tracker].(waiting := true, waitTid := tid);
      var info := if tid < 0 then TWO64 + tid else tid;
      if info < 0 then Park else
      var c :- SetNextRunnable(SetTask(k.core, t, v.(state := BlockedJoin, stateInfo := info)), h, now);
      Run(Handled(k.(core := c, trackers := k.trackers[v.tracker := r]), true))
  }

  function HandleWait(k: Kernel, h: int, t: int, env: Env): (result: Outcome<Handled>)
    requires HartIndex(k.core, h) && Slot(k.core, t)
    ensures result.Run? ==> SameShape(k.core, result.value.kernel.core)
  {
    var x := k.core.tasks[t].context.x;
    if x[11] != 0 || x[12] != 0 then Run(Returned(k, t, Errno(95)))
    else WaitTask(k, h, t, Signed(x[10]), env.pick, env.sliceNow)
  }

  function HandleDetach(k: Kernel, t: int): Handled
    requires Slot(k.core, t)
  {
    var v := k.core.tasks[t];
    if v.state == Ended then Returned(k, t, 1)
    else Handled(k.(core := SetTask(k.core, t, A0(v, 0).(detached := true))), false)
  }

  function HandleSleep(k: Kernel, h: int, t: int, env: Env): (result: Outcome<Handled>)
    requires HartIndex(k.core, h) && Slot(k.core, t)
    ensures result.Run? ==> SameShape(k.core, result.value.kernel.core)
  {
    var x := k.core.tasks[t].context.x;
    var r :- Sleep(k.core, h, t, DurationToTicks(x[10], x[11]), env.now, env.sliceNow);
    Run(Handled(k.(core := r.0), r.1))
  }

  function HandleEndpointCreate(k: Kernel, t: int): Handled
    requires Slot(k.core, t)
  {
    var (eps, a0) := CreateEndpoint(k.endpoints, k.core.tasks[t].tid);
    Returned(k.(endpoints := eps), t, a0)
  }

  function Answered(k: Kernel, t: int, r: Reply): Outcome<Handled> {
    if !Slot(r.core, t) then Park else Run(Returned(k.(core := r.core, endpoints := r.endpoints), t, r.a0))
  }

  function HandleEndpointDestroy(k: Kernel, t: int): (result: Outcome<Handled>)
    requires Slot(k.core, t)
    ensures result.Run? ==> SameShape(k.core, result.value.kernel.core)
  {
    var v := k.core.tasks[t];
    var r :- DestroyEndpoint(k.limits, k.core, k.endpoints, v.tid, v.context.x[10]);
    Answered(k, t, r)
  }

  function MessageOf(v: Task): Message {
    Message(v.tid, v.context.x[11], v.context.x[12], v.context.x[13], v.context.x[14])
  }

  function HandleSend(k: Kernel, t: int): (result: Outcome<Handled>)
    requires Slot(k.core, t)
    ensures result.Run? ==> SameShape(k.core, result.value.kernel.core)
  {
    var v := k.core.tasks[t];
    var r :- SendMessage(k.limits, k.core, k.endpoints, v.context.x[10], MessageOf(v));
    Answered(k, t, r)
  }

  function HandleReceive(k: Kernel, h: int, t: int, env: Env): (result: Outcome<Handled>)
    requires HartIndex(k.core, h) && Slot(k.core, t)
    ensures result.Run? ==> SameShape(k.core, result.value.kernel.core)
  {
    var r :- ReceiveMessage(k.limits, k.core, k.endpoints, h, t, k.core.tasks[t].context.x[10], env.sliceNow);
    Run(Handled(k.(core := r.0, endpoints := r.1), r.2))
  }

  function HandleTryReceive(k: Kernel, t: int): Handled
    requires Slot(k.core, t)
  {
    var (c, eps) := TryReceive(k.limits, k.core, k.endpoints, t, k.core.tasks[t].context.x[10]);
    Handled(k.(core := c, endpoints := eps), false)
  }

  /** The switch of `try_handle`. */
  function Dispatch(k: Kernel, h: int, t: int, env: Env): (result: Outcome<Handled>)
    requires HartIndex(k.core, h) && Slot(k.core, t)
    ensures result.Run? ==> SameShape(k.core, result.value.kernel.core)
  {
    var x := k.core.tasks[t].context.x;
    match x[17]
    case 0 => HandleYield(k, h, t, env)
    case 1 => HandleCreate(k, h, t, env)
    case 2 => HandleExit(k, h, t, x[10], ExitedClean, env)
    case 3 => HandleWait(k, h, t, env)
    case 4 => Run(HandleDetach(k, t))
    case 5 => HandleSleep(k, h, t, env)
    case 6 => Run(HandleEndpointCreate(k, t))
    case 7 => HandleEndpointDestroy(k, t)
    case 8 => HandleSend(k, t)
    case 9 => Run(Returned(k, t, Errno(38)))
    case 10 => HandleReceive(k, h, t, env)
    case 11 => Run(HandleTryReceive(k, t))
    case 12 => Run(Returned(k, t, Errno(38)))
    case _ => HandleExit(k, h, t, 0, Crashed, env)
  }

  function Armed(k: Kernel, h: int, now: nat): Outcome<Kernel> {
    if !HartIndex(k.core, h) then Park else
    var c :- Arm(k.core, h, now);
    Run(k.(core := c))
  }

  /** The caller after trap entry: registers saved, `mepc` past the `ecall`. */
  function Entered(v: Task, f: Frame): Task {
    var w := Save(v, f);
    w.(context := w.context.(mepc := (w.context.mepc + 4) % TWO64))
  }

  function SyscallStep(k: Kernel, h: int, frame: Frame, env: Env): Outcome<Kernel>
    requires HartIndex(k.core, h) && Slot(k.core, k.core.harts[h].current)
  {
    var t := k.core.harts[h].current;
    var r :- Dispatch(k.(core := SetTask(k.core, t, Entered(k.core.tasks[t], frame))), h, t, env);
    if r.rescheduled then Armed(r.kernel, h, env.armNow) else Run(r.kernel)
  }

  /** `handle_timer_interrupt`. */
  function TimerStep(k: Kernel, h: int, frame: Frame, env: Env): Outcome<Kernel>
    requires HartIndex(k.core, h) && Slot(k.core, k.core.harts[h].current)
  {
    var t := k.core.harts[h].current;
    var c1 :- ReleaseDue(SetTask(k.core, t, Save(k.core.tasks[t], frame)), h, env.now);
    var c2 :- ReturnRunnable(c1, h);
    var c3 :- SetNextRunnable(c2, h, env.sliceNow);
    Armed(k.(core := c3), h, env.armNow)
  }

  /** The first dispatch of a secondary hart. */
  function StartStep(k: Kernel, h: int, env: Env): Outcome<Kernel>
    requires HartIndex(k.core, h)
  {
    var c :- SetNextRunnable(k.core, h, env.sliceNow);
    Armed(k.(core := c), h, env.armNow)
  }

  function Next(k: Kernel, e: Event): Outcome<Kernel> {
    if !HartIndex(k.core, e.hart) then Park
    else if e.Start? then StartStep(k, e.hart, e.env)
    else if !Slot(k.core, k.core.harts[e.hart].current) then Park
    else if e.Syscall? then SyscallStep(k, e.hart, e.frame, e.env)
    else TimerStep(k, e.hart, e.frame, e.env)
  }
}
