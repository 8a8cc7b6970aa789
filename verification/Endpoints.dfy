/**
 * The endpoint table in place: slot flags, per-endpoint records, ring buffers of pending messages and
 * FIFOs of blocked receivers threaded through the tasks. Every method computes the step of the value
 * machine of the same name, on the endpoints and on the executive behind them.
 */
module Endpoints {
  import opened Base
  import opened IpcModel
  import opened Lists
  import opened Machine
  import opened Executive

  datatype Record = Record(active: bool, retired: bool, generation: nat, owner: nat, head: nat, count: nat,
                           waitingHead: int, waitingTail: int, waitingCount: nat)

  const NO_MESSAGE := Message(0, 0, 0, 0, 0)

  /** The record and the allocation flag of a slot, and the endpoint they stand for. */
  ghost predicate SlotOk(claimed: bool, r: Record, e: Endpoint, depth: nat) {
    && claimed == e.claimed && r.active == e.active && r.retired == e.retired
    && r.generation == e.generation && r.owner == e.owner
    && r.count == |e.queue| <= depth && (depth > 0 ==> r.head < depth)
    && r.waitingHead == First(e.waiters) && r.waitingTail == Last(e.waiters) && r.waitingCount == |e.waiters|
  }

  ghost predicate TableOk(claimed: seq<bool>, records: seq<Record>, table: seq<Endpoint>, depth: nat) {
    && |claimed| == |table| && |records| == |table|
    && forall i {:trigger table[i]} {:trigger records[i]} :: 0 <= i < |table| ==>
          SlotOk(claimed[i], records[i], table[i], depth)
  }

  function Waiters(table: seq<Endpoint>): (qs: seq<seq<int>>)
    ensures |qs| == |table| && forall i :: 0 <= i < |table| ==> qs[i] == table[i].waiters
  {
    if table == [] then [] else [table[0].waiters] + Waiters(table[1..])
  }

  /** The waiting FIFOs are threaded through the message links, and only queued tasks are in them. */
  ghost predicate WaitOk(tasks: seq<Task>, previous: seq<int>, next: seq<int>, table: seq<Endpoint>) {
    && |previous| == |tasks| && |next| == |tasks| && Threads(previous, next, Waiters(table))
    && forall i, j :: 0 <= i < |table| && 0 <= j < |table[i].waiters| ==>
         0 <= table[i].waiters[j] < |tasks| && tasks[table[i].waiters[j]].messageQueued
  }

  lemma WaitersUpdate(table: seq<Endpoint>, i: int, e: Endpoint)
    requires 0 <= i < |table|
    ensures Waiters(table[i := e]) == Waiters(table)[i := e.waiters]
  {
  }

  lemma AppendWaiter(tasks: seq<Task>, mp: seq<int>, mn: seq<int>, table: seq<Endpoint>, i: int, t: int, w: Task)
    requires WaitOk(tasks, mp, mn, table) && 0 <= i < |table| && 0 <= t < |tasks| && !tasks[t].messageQueued
    requires w.messageQueued
    ensures var q := table[i].waiters;
            && -1 <= Last(q) < |mn| && Last(q) != t
            && WaitOk(tasks[t := w], Spliced(mp, NIL, t, Last(q)), Spliced(mn, Last(q), t, NIL),
                      table[i := table[i].(waiters := q + [t])])
  {
    hide Threads, Spliced;
    var q := table[i].waiters;
    var qs := Waiters(table);
    assert qs[i] == q;
    assert InNone(qs, t);
    SpliceThreads(mp, mn, qs, i, |q|, t);
    assert Inserted(q, |q|, t) == q + [t];
    WaitersUpdate(table, i, table[i].(waiters := q + [t]));
    hide Waiters, Inserted, InNone;
  }

  lemma PopWaiter(tasks: seq<Task>, mp: seq<int>, mn: seq<int>, table: seq<Endpoint>, i: int, w: Task)
    requires WaitOk(tasks, mp, mn, table) && 0 <= i < |table| && table[i].waiters != []
    ensures var q := table[i].waiters;
            && 0 <= q[0] < |mn| && mn[q[0]] == First(q[1..]) && -1 <= mn[q[0]] < |mn| && q[0] < |tasks|
            && var n := mn[q[0]];
               WaitOk(tasks[q[0] := w], Detached(mp, n, q[0]), mn[q[0] := NIL],
                      table[i := table[i].(waiters := q[1..])])
  {
    var q := table[i].waiters;
    var qs := Waiters(table);
    assert qs[i] == q;
    PopThreads(mp, mn, qs, i);
    PoppedIsGone(mp, mn, qs, i);
    WaitersUpdate(table, i, table[i].(waiters := q[1..]));
    var table' := table[i := table[i].(waiters := q[1..])];
    forall a, b | 0 <= a < |table'| && 0 <= b < |table'[a].waiters| 
      ensures 0 <= table'[a].waiters[b] < |tasks| && tasks[q[0] := w][table'[a].waiters[b]].messageQueued
    {
      assert Waiters(table')[a][b] != q[0];
    }
    hide Threads;
  }

  /** The waiting FIFOs depend on the message flags only. */
  lemma TouchWaiters(tasks: seq<Task>, tasks': seq<Task>, mp: seq<int>, mn: seq<int>, table: seq<Endpoint>)
    requires WaitOk(tasks, mp, mn, table) && |tasks'| == |tasks|
    requires forall u :: 0 <= u < |tasks| ==> tasks'[u].messageQueued == tasks[u].messageQueued
    ensures WaitOk(tasks', mp, mn, table)
  {
  }

  // ---------------------------------------------------------------------------------------------
  // Ring buffers

  /** The ring position of the `k`-th pending message. */
  function RingIndex(head: nat, k: nat, depth: nat): (r: nat)
    requires head < depth && k <= depth
    ensures r < depth
  {
    if head + k < depth then head + k else head + k - depth
  }

  lemma ModWraps(n: nat, depth: nat)
    requires 0 < depth && n < depth + depth
    ensures n % depth == if n < depth then n else n - depth
  {
    var q := n / depth;
    assert n == depth * q + n % depth;
    assert depth * q < depth * 2;
  }

  lemma TableUpdate(claimed: seq<bool>, records: seq<Record>, table: seq<Endpoint>, depth: nat, i: int, c: bool,
                    r: Record,
                    e: Endpoint)
    requires TableOk(claimed, records, table, depth) && 0 <= i < |table| && SlotOk(c, r, e, depth)
    ensures TableOk(claimed[i := c], records[i := r], table[i := e], depth)
  {
  }

  /** The record after its first waiter is gone. */
  lemma RecordUpdate(claimed: seq<bool>, records: seq<Record>, table: seq<Endpoint>, depth: nat, i: int, r: Record,
                     e: Endpoint)
    requires TableOk(claimed, records, table, depth) && 0 <= i < |table| && SlotOk(claimed[i], r, e, depth)
    ensures TableOk(claimed, records[i := r], table[i := e], depth)
  {
  }

  lemma PushedSlot(c: bool, r: Record, e: Endpoint, depth: nat, t: int)
    requires SlotOk(c, r, e, depth) && (Last(e.waiters) == NIL <==> e.waiters == [])
    ensures SlotOk(c, r.(waitingHead := if r.waitingTail == NIL then t else r.waitingHead, waitingTail := t,
                         waitingCount := r.waitingCount + 1),
                   e.(waiters := e.waiters + [t]), depth)
  {
  }

  lemma PoppedSlot(c: bool, r: Record, e: Endpoint, depth: nat)
    requires SlotOk(c, r, e, depth) && e.waiters != []
    requires First(e.waiters[1..]) == NIL <==> e.waiters[1..] == []
    ensures var n := First(e.waiters[1..]);
            r.waitingCount > 0 &&
            SlotOk(c, r.(waitingHead := n, waitingTail := if n == NIL then NIL else r.waitingTail,
                         waitingCount := r.waitingCount - 1),
                   e.(waiters := e.waiters[1..]), depth)
  {
  }

  lemma SlotFacts(claimed: seq<bool>, records: seq<Record>, table: seq<Endpoint>, depth: nat, i: int)
    requires TableOk(claimed, records, table, depth) && 0 <= i < |records|
    ensures |claimed| == |records| == |table| && SlotOk(claimed[i], records[i], table[i], depth)
    ensures records[i].waitingHead == First(table[i].waiters) && records[i].waitingTail == Last(table[i].waiters)
    ensures records[i].waitingCount == |table[i].waiters|
  {
  }

  lemma WaitFacts(tasks: seq<Task>, mp: seq<int>, mn: seq<int>, table: seq<Endpoint>, i: int)
    requires WaitOk(tasks, mp, mn, table) && 0 <= i < |table|
    ensures |mp| == |tasks| && |mn| == |tasks|
    ensures var q := table[i].waiters;
            && -1 <= First(q) < |tasks| && -1 <= Last(q) < |tasks|
            && (First(q) == NIL <==> q == []) && (Last(q) == NIL <==> q == [])
            && (q != [] ==> (First(q[1..]) == NIL <==> q[1..] == []))
  {
  }

  /** An endpoint whose waiters are dropped or kept leaves the FIFOs in order. */
  lemma ReplaceEndpoint(tasks: seq<Task>, mp: seq<int>, mn: seq<int>, table: seq<Endpoint>, i: int, e: Endpoint)
    requires WaitOk(tasks, mp, mn, table) && 0 <= i < |table| && (e.waiters == [] || e.waiters == table[i].waiters)
    ensures WaitOk(tasks, mp, mn, table[i := e])
  {
    hide Threads;
    WaitersUpdate(table, i, e);
    DropThreads(mp, mn, Waiters(table), i);
    assert Waiters(table)[i := table[i].waiters] == Waiters(table);
  }

  /** What a popped waiter is told. */
  datatype WakeResult = WithMessage(message: Message) | EndpointGone

  function Told(t: Task, r: WakeResult): Task {
    match r
    case WithMessage(m) => Receipt(t, m)
    case EndpointGone => A0(t, Errno(43))
  }

  lemma SetTwice(c: Core, t: int, v: Task, w: Task)
    requires Slot(c, t)
    ensures SetTask(SetTask(c, t, v), t, w) == SetTask(c, t, w)
  {
  }

  lemma SwitchKeepsMessageFlags(c: Core, h: int, now: nat)
    requires HartIndex(c, h) && SetNextRunnable(c, h, now).Run?
    ensures var d := SetNextRunnable(c, h, now).value;
            |d.tasks| == |c.tasks| && forall u :: 0 <= u < |c.tasks| ==>
                  d.tasks[u].messageQueued == c.tasks[u].messageQueued
  {
  }

  ghost predicate SameMessageFlags(c: Core, d: Core) {
    |d.tasks| == |c.tasks| && forall u :: 0 <= u < |c.tasks| ==> d.tasks[u].messageQueued == c.tasks[u].messageQueued
  }

  lemma {:induction false} ReleaseKeepsMessageFlags(c: Core, h: int, now: nat)
    requires HartIndex(c, h) && ReleaseDue(c, h, now).Run?
    ensures SameMessageFlags(c, ReleaseDue(c, h, now).value)
    decreases |c.sleepers[h]|
  {
    var q := c.sleepers[h];
    if q != [] && c.tasks[q[0]].deadline <= now {
      var v := c.tasks[q[0]].(delayQueued := false, stateInfo := 0);
      var d := Machine.AddTask(SetTask(c, q[0], v).(sleepers := c.sleepers[h := q[1..]]), q[0]).value;
      ReleaseKeepsMessageFlags(d, h, now);
    }
  }

  lemma SleepKeepsMessageFlags(c: Core, h: int, t: int, ticks: nat, now: nat, sliceNow: nat)
    requires HartIndex(c, h) && Slot(c, t) && Machine.Sleep(c, h, t, ticks, now, sliceNow).Run?
    ensures SameMessageFlags(c, Machine.Sleep(c, h, t, ticks, now, sliceNow).value.0)
  {
    hide SetNextRunnable, InsertSleeper;
    var v := c.tasks[t];
    if HartIndex(c, v.cpu) {
      var d := DelayUntil(SetTask(c, t, A0(v, 0)), t, now + ticks);
      if SetNextRunnable(d, h, sliceNow).Run? {
        SwitchKeepsMessageFlags(d, h, sliceNow);
      }
    }
  }

  /** A table without endpoints, and lists without waiters. */
  lemma EmptyTables(claimed: seq<bool>, records: seq<Record>, table: seq<Endpoint>, depth: nat,
                    tasks: seq<Task>, previous: seq<int>, next: seq<int>)
    requires claimed == seq(|table|, i => false) && table == seq(|table|, i => UNUSED)
    requires records == seq(|table|, i => Record(false, false, 0, 0, 0, 0, NIL, NIL, 0))
    requires |previous| == |next| == |tasks|
    ensures TableOk(claimed, records, table, depth) && WaitOk(tasks, previous, next, table)
  {
    assert Threads(previous, next, Waiters(table));
  }

  class EndpointManager {
    const exec: Executive
    const ceiling: nat
    const claimed: array<bool>
    const records: array<Record>
    const rings: array2<Message>
    const messagePrevious: array<int>
    const messageNext: array<int>
    ghost var table: seq<Endpoint>

    ghost function Limits(): IpcModel.Limits { IpcModel.Limits(rings.Length1, ceiling) }

    /** The ring of a slot holds the messages of `q`, oldest first. */
    ghost predicate RingOk(i: int, head: nat, q: seq<Message>)
      reads rings
    {
      && 0 <= i < rings.Length0 && |q| <= rings.Length1 && (q != [] ==> head < rings.Length1)
      && forall k {:trigger q[k]} :: 0 <= k < |q| ==> rings[i, RingIndex(head, k, rings.Length1)] == q[k]
    }

    ghost predicate RingsOk(rs: seq<Record>, eps: seq<Endpoint>)
      reads rings
    {
      && rings.Length0 == |rs| == |eps|
      && forall i {:trigger rs[i]} {:trigger eps[i]} :: 0 <= i < |eps| ==> RingOk(i, rs[i].head, eps[i].queue)
    }

    /** Only the heads of the rings and the pending messages matter to the rings. */
    lemma RingsTouch(rs: seq<Record>, eps: seq<Endpoint>, i: int, r: Record, e: Endpoint)
      requires RingsOk(rs, eps) && 0 <= i < |eps|
      requires (e.queue == [] || (r.head == rs[i].head && e.queue == eps[i].queue))
      ensures RingsOk(rs[i := r], eps[i := e])
    {
      assert RingOk(i, rs[i].head, eps[i].queue);
    }

    ghost predicate Valid()
      reads this, claimed, records, rings, messagePrevious, messageNext
      reads exec, exec.tasks, exec.previous, exec.next, exec.harts, exec.delayHeads, exec.delayPrevious, exec.delayNext
    {
      && exec.Valid() && messagePrevious != messageNext
      && messagePrevious != exec.previous && messagePrevious != exec.next && messagePrevious != exec.delayHeads
      && messagePrevious != exec.delayPrevious && messagePrevious != exec.delayNext
      && messageNext != exec.previous && messageNext != exec.next && messageNext != exec.delayHeads
      && messageNext != exec.delayPrevious && messageNext != exec.delayNext
      && TableOk(claimed[..], records[..], table, rings.Length1) && RingsOk(records[..], table)
      && WaitOk(exec.tasks[..], messagePrevious[..], messageNext[..], table)
    }

    constructor (executive: Executive, slots: nat, depth: nat, maxGeneration: nat)
      requires executive.Valid()
      ensures Valid() && exec == executive && |table| == slots && Initial(table)
      ensures Limits() == IpcModel.Limits(depth, maxGeneration)
      ensures fresh(claimed) && fresh(records) && fresh(rings) && fresh(messagePrevious) && fresh(messageNext)
    {
      hide Executive.Valid, TableOk, WaitOk;
      exec := executive;
      ceiling := maxGeneration;
      claimed := new bool[slots](i => false);
      records := new Record[slots](i => Record(false, false, 0, 0, 0, 0, NIL, NIL, 0));
      rings := new Message[slots, depth]((i, k) => NO_MESSAGE);
      messagePrevious := new int[executive.tasks.Length](i => NIL);
      messageNext := new int[executive.tasks.Length](i => NIL);
      table := seq(slots, i => UNUSED);
      new;
      assert claimed[..] == seq(slots, i => false);
      assert records[..] == seq(slots, i => Record(false, false, 0, 0, 0, 0, NIL, NIL, 0));
      EmptyTables(claimed[..], records[..], table, depth, exec.tasks[..], messagePrevious[..], messageNext[..]);
    }

    /** Clears the ring of slot `i`, which then stands for any endpoint without pending messages. */
    method ClearQueue(i: int, ghost rs: seq<Record>, ghost eps: seq<Endpoint>, ghost r: Record, ghost e: Endpoint)
      requires 0 <= i < |rs| && RingsOk(rs, eps) && e.queue == []
      modifies rings
      ensures RingsOk(rs[i := r], eps[i := e])
      ensures forall b :: 0 <= b < rings.Length1 ==> rings[i, b] == NO_MESSAGE
    {
      var k := 0;
      while k < rings.Length1
        invariant 0 <= k <= rings.Length1
        invariant forall a, b :: 0 <= a < rings.Length0 && 0 <= b < rings.Length1 ==>
                    rings[a, b] == if a == i && b < k then NO_MESSAGE else old(rings[a, b])
      {
        rings[i, k] := NO_MESSAGE;
        k := k + 1;
      }
      forall j | 0 <= j < |eps| && j != i ensures RingOk(j, rs[j].head, eps[j].queue) {
        assert old(RingOk(j, rs[j].head, eps[j].queue));
      }
    }

    /** A new epoch in the lowest free slot; the answer is the handle or -ENOSPC. */
    method CreateEndpoint(owner: nat) returns (a0: nat)
      requires Valid()
      modifies this`table, claimed, records, rings
      ensures Valid() && (table, a0) == Machine.CreateEndpoint(old(table), owner)
    {
      var i := 0;
      while i < records.Length
        invariant 0 <= i <= records.Length
        invariant forall j :: 0 <= j < i ==> table[j].claimed || table[j].retired
      {
        assert SlotOk(claimed[..][i], records[..][i], table[i], rings.Length1);
        if !claimed[i] && !records[i].retired {
          OpenSlot(i, owner);
          assert FreeSlot(old(table)) == i;
          return Handle(i, records[i].generation).Raw();
        }
        i := i + 1;
      }
      assert FreeSlot(table) == |table|;
      a0 := Errno(28);
    }

    method OpenSlot(i: int, owner: nat)
      requires Valid() && 0 <= i < records.Length
      modifies this`table, claimed, records, rings
      ensures Valid() && table == old(table)[i := Opened(old(table)[i], owner)]
      ensures records[i].generation == FirstGeneration(old(table)[i])
    {
      hide TableOk, WaitOk, RingsOk, Executive.Valid;
      SlotFacts(claimed[..], records[..], table, rings.Length1, i);
      ghost var e := Opened(table[i], owner);
      var generation := if records[i].generation == 0 then 1 else records[i].generation;
      var r := Record(true, false, generation, owner, 0, 0, NIL, NIL, 0);
      TableUpdate(claimed[..], records[..], table, rings.Length1, i, true, r, e);
      ReplaceEndpoint(exec.tasks[..], messagePrevious[..], messageNext[..], table, i, e);
      ClearQueue(i, records[..], table, r, e);
      claimed[i] := true;
      records[i] := r;
      table := table[i := e];
      assert claimed[..] == old(claimed[..])[i := true];
      assert records[..] == old(records[..])[i := r];
    }

    /** Appends the task `t` to the waiting FIFO of endpoint `i`. */
    method WaiterPush(i: int, t: int)
      requires Valid() && 0 <= i < records.Length && 0 <= t < exec.tasks.Length && !exec.tasks[t].messageQueued
      modifies this`table, records, messagePrevious, messageNext, exec.tasks
      ensures Valid()
      ensures i < |old(table)| && table == old(table)[i := old(table)[i].(waiters := old(table)[i].waiters + [t])]
      ensures exec.Core() == SetTask(old(exec.Core()), t, old(exec.tasks[t]).(messageQueued := true))
    {
      hide TableOk, WaitOk, RingsOk, SlotOk, Executive.Valid, Spliced;
      SlotFacts(claimed[..], records[..], table, rings.Length1, i);
      WaitFacts(exec.tasks[..], messagePrevious[..], messageNext[..], table, i);
      var r := records[i];
      ghost var e := table[i].(waiters := table[i].waiters + [t]);
      AppendWaiter(exec.tasks[..], messagePrevious[..], messageNext[..], table, i, t,
                   exec.tasks[t].(messageQueued := true));

      Link(messagePrevious, messageNext, r.waitingTail, NIL, t);
      r := r.(waitingHead := if r.waitingTail == NIL then t else r.waitingHead, waitingTail := t,
              waitingCount := r.waitingCount + 1);
      PushedSlot(claimed[i], records[i], table[i], rings.Length1, t);
      RingsTouch(records[..], table, i, r, e);
      RecordUpdate(claimed[..], records[..], table, rings.Length1, i, r, e);
      records[i] := r;
      table := table[i := e];
      assert records[..] == old(records[..])[i := r];
      exec.WriteTask(t, exec.tasks[t].(messageQueued := true));
    }

    /** Unlinks the first waiter of endpoint `i`, or returns `NIL`. */
    method WaiterPop(i: int) returns (t: int)
      requires Valid() && 0 <= i < records.Length
      modifies this`table, records, messagePrevious, messageNext, exec.tasks
      ensures Valid() && i < |old(table)|
      ensures t == NIL <==> old(table)[i].waiters == []
      ensures t == NIL ==> table == old(table) && exec.Core() == old(exec.Core())
      ensures t != NIL ==>
                && t == old(table)[i].waiters[0] && 0 <= t < exec.tasks.Length
                && table == old(table)[i := old(table)[i].(waiters := old(table)[i].waiters[1..])]
                && exec.Core() == SetTask(old(exec.Core()), t, old(exec.Core()).tasks[t].(messageQueued := false))
    {
      hide TableOk, WaitOk, Executive.Valid;
      SlotFacts(claimed[..], records[..], table, rings.Length1, i);
      WaitFacts(exec.tasks[..], messagePrevious[..], messageNext[..], table, i);
      t := records[i].waitingHead;
      if t != NIL {
        UnlinkWaiter(i);
      }
    }

    method UnlinkWaiter(i: int)
      requires Valid() && 0 <= i < records.Length && i < |table| && table[i].waiters != []
      requires 0 <= table[i].waiters[0] < exec.tasks.Length
      modifies this`table, records, messagePrevious, messageNext, exec.tasks
      ensures Valid()
      ensures table == old(table)[i := old(table)[i].(waiters := old(table)[i].waiters[1..])]
      ensures var t := old(table)[i].waiters[0];
              exec.Core() == SetTask(old(exec.Core()), t, old(exec.Core()).tasks[t].(messageQueued := false))
    {
      hide TableOk, WaitOk, RingsOk, SlotOk, Executive.Valid, Detached;
      SlotFacts(claimed[..], records[..], table, rings.Length1, i);
      WaitFacts(exec.tasks[..], messagePrevious[..], messageNext[..], table, i);
      var t, r := records[i].waitingHead, records[i];
      ghost var e := table[i].(waiters := table[i].waiters[1..]);
      PopWaiter(exec.tasks[..], messagePrevious[..], messageNext[..], table, i, exec.tasks[t].(messageQueued := false));

      var first := UnlinkFirst(messagePrevious, messageNext, t);
      r := r.(waitingHead := first, waitingTail := if first == NIL then NIL else r.waitingTail,
              waitingCount := r.waitingCount - 1);
      PoppedSlot(claimed[i], records[i], table[i], rings.Length1);
      RingsTouch(records[..], table, i, r, e);
      RecordUpdate(claimed[..], records[..], table, rings.Length1, i, r, e);
      records[i] := r;
      table := table[i := e];
      assert records[..] == old(records[..])[i := r];
      exec.WriteTask(t, exec.tasks[t].(messageQueued := false));
    }

    /** Writes one ring position of slot `i`. */
    method RingWrite(i: int, k: nat, m: Message, ghost rs: seq<Record>, ghost eps: seq<Endpoint>, ghost r: Record,
                     ghost e: Endpoint)
      requires 0 <= i < |rs| && k < rings.Length1 && RingsOk(rs, eps)
      requires |e.queue| <= rings.Length1 && (e.queue != [] ==> r.head < rings.Length1)
      requires forall n {:trigger e.queue[n]} :: 0 <= n < |e.queue| ==>
                 e.queue[n] == if RingIndex(r.head, n, rings.Length1) == k then m
                   else rings[i, RingIndex(r.head, n, rings.Length1)]
      modifies rings
      ensures RingsOk(rs[i := r], eps[i := e])
    {
      rings[i, k] := m;
      forall j | 0 <= j < |eps| && j != i ensures RingOk(j, rs[j].head, eps[j].queue) {
        assert old(RingOk(j, rs[j].head, eps[j].queue));
      }
      assert RingOk(i, r.head, e.queue);
    }

    /** Appends a message behind the pending ones. */
    method RingPush(i: int, m: Message)
      requires Valid() && 0 <= i < records.Length && i < |table| && |table[i].queue| < rings.Length1
      modifies this`table, records, rings
      ensures Valid() && table == old(table)[i := old(table)[i].(queue := old(table)[i].queue + [m])]
    {
      hide TableOk, WaitOk, Executive.Valid;
      SlotFacts(claimed[..], records[..], table, rings.Length1, i);
      assert RingOk(i, records[..][i].head, table[i].queue);
      hide RingsOk;
      var r := records[i];
      ModWraps(r.head + r.count, rings.Length1);
      ghost var e := table[i].(queue := table[i].queue + [m]);
      var k := (r.head + r.count) % rings.Length1;
      r := r.(count := r.count + 1);
      RecordUpdate(claimed[..], records[..], table, rings.Length1, i, r, e);
      ReplaceEndpoint(exec.tasks[..], messagePrevious[..], messageNext[..], table, i, e);
      RingWrite(i, k, m, records[..], table, r, e);
      records[i] := r;
      table := table[i := e];
      assert records[..] == old(records[..])[i := r];
    }

    /** Takes the oldest pending message and clears its ring position. */
    method RingPop(i: int) returns (m: Message)
      requires Valid() && 0 <= i < records.Length && i < |table| && table[i].queue != []
      modifies this`table, records, rings
      ensures Valid() && table == old(table)[i := old(table)[i].(queue := old(table)[i].queue[1..])]
      ensures m == old(table)[i].queue[0]
    {
      hide TableOk, WaitOk, Executive.Valid;
      SlotFacts(claimed[..], records[..], table, rings.Length1, i);
      assert RingOk(i, records[..][i].head, table[i].queue);
      hide RingsOk;
      var r := records[i];
      ModWraps(r.head + 1, rings.Length1);
      ghost var q := table[i].queue;
      ghost var e := table[i].(queue := q[1..]);
      m := rings[i, r.head];
      assert m == q[0];
      var k := r.head;
      r := r.(head := (r.head + 1) % rings.Length1, count := r.count - 1);
      forall n | 0 <= n < |e.queue|
        ensures RingIndex(r.head, n, rings.Length1) != k && rings[i, RingIndex(r.head, n, rings.Length1)] == e.queue[n]
      {
        assert e.queue[n] == q[n + 1];
      }
      RecordUpdate(claimed[..], records[..], table, rings.Length1, i, r, e);
      ReplaceEndpoint(exec.tasks[..], messagePrevious[..], messageNext[..], table, i, e);
      RingWrite(i, k, NO_MESSAGE, records[..], table, r, e);
      records[i] := r;
      table := table[i := e];
      assert records[..] == old(records[..])[i := r];
    }

    // -------------------------------------------------------------------------------------------
    // Calls

    /** The slot of a live handle, or `NIL`. */
    method Find(raw: nat) returns (i: int)
      requires Valid()
      ensures i == Lookup(Limits(), table, raw) && -1 <= i < records.Length == |table|
    {
      hide WaitOk, RingsOk, Executive.Valid;
      var h := FromRaw(raw);
      if h.index < records.Length && h.generation != 0 && h.generation <= ceiling {
        SlotFacts(claimed[..], records[..], table, rings.Length1, h.index);
        if records[h.index].active && records[h.index].generation == h.generation {
          return h.index;
        }
      }
      i := NIL;
    }

    /** Rewrites the task `t`, which is in no waiting FIFO, and publishes it. */
    method Publish(t: int, w: Task) returns (ok: bool)
      requires Valid() && 0 <= t < exec.tasks.Length && w.messageQueued == exec.tasks[t].messageQueued
      requires w.queued == exec.tasks[t].queued && w.delayQueued == exec.tasks[t].delayQueued
      modifies exec`head, exec`tail, exec`size, exec`runQueue, exec.tasks, exec.previous, exec.next
      ensures Valid()
      ensures match Machine.AddTask(SetTask(old(exec.Core()), t, w), t)
              case Park => !ok
              case Run(c) => ok && exec.Core() == c
    {
      hide TableOk, WaitOk, RingsOk, Executive.Valid;
      exec.WriteTask(t, w);
      ok := exec.AddTask(t);
      TouchWaiters(old(exec.tasks[..]), exec.tasks[..], messagePrevious[..], messageNext[..], table) by {
        assert exec.Core().tasks == exec.tasks[..] && old(exec.Core()).tasks == old(exec.tasks[..]);
      }
    }

    /** Rewrites a task whose queue flags stay. */
    method WriteTask(t: int, w: Task)
      requires Valid() && 0 <= t < exec.tasks.Length && w.messageQueued == exec.tasks[t].messageQueued
      requires w.queued == exec.tasks[t].queued && w.delayQueued == exec.tasks[t].delayQueued
      modifies exec.tasks
      ensures Valid() && exec.Core() == SetTask(old(exec.Core()), t, w)
    {
      hide TableOk, WaitOk, RingsOk, Executive.Valid;
      exec.WriteTask(t, w);
      TouchWaiters(old(exec.tasks[..]), exec.tasks[..], messagePrevious[..], messageNext[..], table) by {
        assert exec.Core().tasks == exec.tasks[..] && old(exec.Core()).tasks == old(exec.tasks[..]);
      }
    }

    /** Pops the first waiter of endpoint `i`, writes its registers and publishes it. */
    method WakeFirst(i: int, result: WakeResult) returns (ok: bool)
      requires Valid() && 0 <= i < records.Length && i < |table| && table[i].waiters != []
      modifies this`table, records, messagePrevious, messageNext
      modifies exec`head, exec`tail, exec`size, exec`runQueue, exec.tasks, exec.previous, exec.next
      ensures Valid()
      ensures table == old(table)[i := old(table)[i].(waiters := old(table)[i].waiters[1..])]
      ensures var c, t := old(exec.Core()), old(table)[i].waiters[0];
              Slot(c, t) &&
              match Machine.AddTask(SetTask(c, t, Told(Unlinked(c.tasks[t]), result)), t)
              case Park => !ok
              case Run(d) => ok && exec.Core() == d
    {
      hide Valid, Machine.AddTask;
      ghost var c := exec.Core();
      var t := WaiterPop(i);
      ghost var v := c.tasks[t].(messageQueued := false);
      assert exec.tasks[t] == exec.Core().tasks[t] == v;
      var w := Told(exec.tasks[t].(stateInfo := 0), result);
      SetTwice(c, t, v, w);
      ok := Publish(t, w);
    }

    method Send(raw: nat, m: Message) returns (a0: nat, parked: bool)
      requires Valid()
      modifies this`table, records, rings, messagePrevious, messageNext
      modifies exec`head, exec`tail, exec`size, exec`runQueue, exec.tasks, exec.previous, exec.next
      ensures !parked ==> Valid()
      ensures match SendMessage(Limits(), old(exec.Core()), old(table), raw, m)
              case Park => parked
              case Run(r) => !parked && exec.Core() == r.core && table == r.endpoints && a0 == r.a0
    {
      hide Valid, Machine.AddTask, Lookup;
      a0, parked := 0, false;
      var i := Find(raw);
      if i == NIL {
        return Errno(22), false;
      }
      RecordFacts(i);
      if records[i].waitingCount > 0 && records[i].count > 0 {
        return 0, true;
      }
      if records[i].waitingCount > 0 {
        var ok := WakeFirst(i, WithMessage(m));
        return 0, !ok;
      }
      if records[i].count >= rings.Length1 {
        return Errno(11), false;
      }
      RingPush(i, m);
    }

    lemma RecordFacts(i: int)
      requires Valid() && 0 <= i < records.Length
      ensures records.Length == |table| == claimed.Length && claimed[i] == table[i].claimed
      ensures records[i].count == |table[i].queue| && records[i].waitingCount == |table[i].waiters|
      ensures records[i].owner == table[i].owner && records[i].active == table[i].active
      ensures records[i].generation == table[i].generation
    {
      SlotFacts(claimed[..], records[..], table, rings.Length1, i);
    }

    /** The non-blocking receive and the registers it leaves in its caller `t`. */
    method TryReceive(t: int, raw: nat)
      requires Valid() && 0 <= t < exec.tasks.Length && Slot(exec.Core(), t)
      modifies this`table, records, rings, exec.tasks
      ensures Valid() && (exec.Core(), table) == Machine.TryReceive(Limits(), old(exec.Core()), old(table), t, raw)
    {
      hide Valid, Lookup;
      assert exec.tasks[t] == exec.Core().tasks[t];
      var i := Find(raw);
      if i == NIL {
        WriteTask(t, A0(exec.tasks[t], Errno(22)));
        return;
      }
      RecordFacts(i);
      if records[i].count == 0 {
        WriteTask(t, A0(exec.tasks[t], Errno(11)));
        return;
      }
      var m := RingPop(i);
      WriteTask(t, Receipt(exec.tasks[t], m));
    }

    /** The blocking receive: deliver, reject, or queue the caller and switch the hart away from it. */
    method Receive(h: int, t: int, raw: nat, now: nat) returns (blocked: bool, parked: bool)
      requires Valid() && 0 <= t < exec.tasks.Length && Slot(exec.Core(), t)
      requires 0 <= h < exec.harts.Length && HartIndex(exec.Core(), h)
      modifies this`table, records, rings, messagePrevious, messageNext
      modifies exec`head, exec`tail, exec`size, exec`runQueue, exec.tasks, exec.previous, exec.next, exec.harts
      ensures !parked ==> Valid()
      ensures match ReceiveMessage(Limits(), old(exec.Core()), old(table), h, t, raw, now)
              case Park => parked
              case Run(r) => !parked && (exec.Core(), table, blocked) == r
    {
      hide Valid, Lookup, Machine.SetNextRunnable;
      assert exec.tasks[t] == exec.Core().tasks[t];
      blocked, parked := false, false;
      if exec.tasks[t].messageQueued {
        return false, true;
      }
      var i := Find(raw);
      if i == NIL {
        WriteTask(t, A0(exec.tasks[t], Errno(22)));
        return;
      }
      RecordFacts(i);
      if records[i].waitingCount > 0 && records[i].count > 0 {
        return false, true;
      }
      if records[i].count > 0 {
        var m := RingPop(i);
        WriteTask(t, Receipt(exec.tasks[t], m));
        return;
      }
      parked := Block(h, t, i, raw, now);
      blocked := true;
    }

    /** Queues the caller at endpoint `i`, marks it blocked and switches the hart away from it. */
    method Block(h: int, t: int, i: int, raw: nat, now: nat) returns (parked: bool)
      requires Valid() && 0 <= t < exec.tasks.Length && Slot(exec.Core(), t) && !exec.tasks[t].messageQueued
      requires 0 <= h < exec.harts.Length && HartIndex(exec.Core(), h) && 0 <= i < records.Length && i < |table|
      modifies this`table, records, messagePrevious, messageNext
      modifies exec`head, exec`tail, exec`size, exec`runQueue, exec.tasks, exec.previous, exec.next, exec.harts
      ensures !parked ==> Valid()
      ensures var c := old(exec.Core());
              var v := c.tasks[t].(messageQueued := true, state := BlockedMessage, stateInfo := raw);
              match Machine.SetNextRunnable(SetTask(c, t, v), h, now)
              case Park => parked
              case Run(d) => !parked && exec.Core() == d
                             && table == old(table)[i := old(table)[i].(waiters := old(table)[i].waiters + [t])]
    {
      hide Valid, Machine.SetNextRunnable;
      ghost var c := exec.Core();
      assert exec.tasks[t] == c.tasks[t];
      WaiterPush(i, t);
      assert exec.tasks[t] == exec.Core().tasks[t];
      var w := exec.tasks[t].(state := BlockedMessage, stateInfo := raw);
      SetTwice(c, t, c.tasks[t].(messageQueued := true), w);
      WriteTask(t, w);
      parked := Switch(h, now);
    }

    method Switch(h: int, now: nat) returns (parked: bool)
      requires Valid() && 0 <= h < exec.harts.Length && HartIndex(exec.Core(), h)
      modifies exec`head, exec`tail, exec`size, exec`runQueue, exec.tasks, exec.previous, exec.next, exec.harts
      ensures !parked ==> Valid()
      ensures match Machine.SetNextRunnable(old(exec.Core()), h, now)
              case Park => parked
              case Run(d) => !parked && exec.Core() == d
    {
      hide TableOk, WaitOk, RingsOk, Executive.Valid, Machine.SetNextRunnable;
      parked := exec.SetNextRunnable(h, now);
      if !parked {
        SwitchKeepsMessageFlags(old(exec.Core()), h, now);
        assert exec.Core().tasks == exec.tasks[..] && old(exec.Core()).tasks == old(exec.tasks[..]);
        TouchWaiters(old(exec.tasks[..]), exec.tasks[..], messagePrevious[..], messageNext[..], table);
      }
    }

    /** Owner-only teardown: the epoch ends, the queue is purged and every waiter is told. */
    method DestroyEndpoint(caller: nat, raw: nat) returns (a0: nat, parked: bool)
      requires Valid()
      modifies this`table, claimed, records, rings, messagePrevious, messageNext
      modifies exec`head, exec`tail, exec`size, exec`runQueue, exec.tasks, exec.previous, exec.next
      ensures !parked ==> Valid()
      ensures match Machine.DestroyEndpoint(Limits(), old(exec.Core()), old(table), caller, raw)
              case Park => parked
              case Run(r) => !parked && exec.Core() == r.core && table == r.endpoints && a0 == r.a0
    {
      hide Valid, WakeAll;
      a0, parked := 0, false;
      var h := FromRaw(raw);
      var n := Slots();
      if !(h.index < n && h.generation != 0 && h.generation <= ceiling) {
        return Errno(22), false;
      }
      RecordFacts(h.index);
      if !claimed[h.index] || !records[h.index].active || records[h.index].generation != h.generation {
        return Errno(22), false;
      }
      if records[h.index].owner != caller {
        return Errno(13), false;
      }
      ghost var e := Closed(table[h.index], ceiling);
      CloseSlot(h.index);
      parked := WakeEveryone(h.index);
      assert old(table)[h.index := e.(waiters := old(table)[h.index].waiters)][h.index := e] ==
          old(table)[h.index := e];
    }

    method Slots() returns (n: nat)
      requires Valid()
      ensures n == records.Length == |table|
    {
      hide WaitOk, RingsOk, Executive.Valid;
      n := records.Length;
    }

    method CloseSlot(i: int)
      requires Valid() && 0 <= i < records.Length && i < |table|
      modifies this`table, claimed, records, rings
      ensures Valid()
      ensures table == old(table)[i := Closed(old(table)[i], ceiling).(waiters := old(table)[i].waiters)]
    {
      hide TableOk, WaitOk, RingsOk, Executive.Valid;
      SlotFacts(claimed[..], records[..], table, rings.Length1, i);
      var r, c := records[i].(head := 0, count := 0, owner := 0, active := false), claimed[i];
      if r.generation >= ceiling {
        r := r.(retired := true);
      } else {
        r, c := r.(generation := r.generation + 1), false;
      }
      ghost var e := Closed(table[i], ceiling).(waiters := table[i].waiters);
      TableUpdate(claimed[..], records[..], table, rings.Length1, i, c, r, e);
      ReplaceEndpoint(exec.tasks[..], messagePrevious[..], messageNext[..], table, i, e);
      ClearQueue(i, records[..], table, r, e);
      claimed[i] := c;
      records[i] := r;
      table := table[i := e];
      assert claimed[..] == old(claimed[..])[i := c];
      assert records[..] == old(records[..])[i := r];
    }

    /** Wakes the waiters of endpoint `i` one after the other. */
    method WakeEveryone(i: int) returns (parked: bool)
      requires Valid() && 0 <= i < records.Length && i < |table|
      modifies this`table, records, messagePrevious, messageNext
      modifies exec`head, exec`tail, exec`size, exec`runQueue, exec.tasks, exec.previous, exec.next
      ensures !parked ==> Valid()
      ensures match WakeAll(old(exec.Core()), old(table)[i].waiters)
              case Park => parked
              case Run(d) => !parked && exec.Core() == d && table == old(table)[i := old(table)[i].(waiters := [])]
    {
      hide Valid;
      ghost var eps := table;
      parked := false;
      RecordFacts(i);
      while records[i].waitingCount > 0
        invariant Valid() && |table| == |eps|
        invariant table == eps[i := eps[i].(waiters := table[i].waiters)]
        invariant records[i].waitingCount == |table[i].waiters|
        invariant WakeAll(exec.Core(), table[i].waiters) == WakeAll(old(exec.Core()), eps[i].waiters)
        decreases |table[i].waiters|
      {
        ghost var c, q := exec.Core(), table[i].waiters;
        var ok := WakeFirst(i, EndpointGone);
        if !ok {
          return true;
        }
        RecordFacts(i);
      }
    }

    // -------------------------------------------------------------------------------------------
    // The executive behind the endpoints: its steps leave the waiting FIFOs alone

    method AddTask(t: int) returns (ok: bool)
      requires Valid() && 0 <= t < exec.tasks.Length
      modifies exec`head, exec`tail, exec`size, exec`runQueue, exec.tasks, exec.previous, exec.next
      ensures Valid()
      ensures match Machine.AddTask(old(exec.Core()), t)
              case Park => !ok
              case Run(c) => ok && exec.Core() == c
    {
      hide TableOk, WaitOk, RingsOk, Executive.Valid;
      ok := exec.AddTask(t);
      assert exec.Core().tasks == exec.tasks[..] && old(exec.Core()).tasks == old(exec.tasks[..]);
      TouchWaiters(old(exec.tasks[..]), exec.tasks[..], messagePrevious[..], messageNext[..], table);
    }

    method ReturnRunnable(h: int) returns (parked: bool)
      requires Valid() && 0 <= h < exec.harts.Length && HartIndex(exec.Core(), h)
      modifies exec`head, exec`tail, exec`size, exec`runQueue, exec.tasks, exec.previous, exec.next
      ensures Valid()
      ensures match Machine.ReturnRunnable(old(exec.Core()), h)
              case Park => parked
              case Run(c) => !parked && exec.Core() == c
    {
      hide TableOk, WaitOk, RingsOk, Executive.Valid;
      var t := exec.CurrentTask(h);
      parked := false;
      if t != NIL && !exec.tasks[t].idle {
        hide Valid;
        var ok := AddTask(t);
        parked := !ok;
      }
    }

    method CheckReleaseTasks(h: int, now: nat) returns (parked: bool)
      requires Valid() && 0 <= h < exec.harts.Length && HartIndex(exec.Core(), h)
      modifies exec`head, exec`tail, exec`size, exec`runQueue, exec`sleepers
      modifies exec.tasks, exec.previous, exec.next, exec.delayPrevious, exec.delayNext, exec.delayHeads
      ensures !parked ==> Valid()
      ensures match ReleaseDue(old(exec.Core()), h, now)
              case Park => parked
              case Run(c) => !parked && exec.Core() == c
    {
      hide TableOk, WaitOk, RingsOk, Executive.Valid, ReleaseDue;
      parked := exec.CheckReleaseTasks(h, now);
      if !parked {
        ReleaseKeepsMessageFlags(old(exec.Core()), h, now);
        assert exec.Core().tasks == exec.tasks[..] && old(exec.Core()).tasks == old(exec.tasks[..]);
        TouchWaiters(old(exec.tasks[..]), exec.tasks[..], messagePrevious[..], messageNext[..], table);
      }
    }

    method Sleep(h: int, t: int, seconds: nat, nanoseconds: nat, now: nat,
                 sliceNow: nat) returns (rescheduled: bool, parked: bool)
      requires Valid() && 0 <= h < exec.harts.Length && HartIndex(exec.Core(), h) && 0 <= t < exec.tasks.Length
      requires Slot(exec.Core(), t) && -1 <= exec.tasks[t].cpu < exec.harts.Length
      modifies exec`head, exec`tail, exec`size, exec`runQueue, exec`sleepers
      modifies exec.tasks, exec.previous, exec.next, exec.harts, exec.delayPrevious, exec.delayNext, exec.delayHeads
      ensures !parked ==> Valid()
      ensures match Machine.Sleep(old(exec.Core()), h, t, DurationToTicks(seconds, nanoseconds), now, sliceNow)
              case Park => parked
              case Run(r) => !parked && exec.Core() == r.0 && rescheduled == r.1
    {
      hide TableOk, WaitOk, RingsOk, Executive.Valid, Machine.Sleep, DurationToTicks;
      rescheduled, parked := exec.Sleep(h, t, seconds, nanoseconds, now, sliceNow);
      if !parked {
        SleepKeepsMessageFlags(old(exec.Core()), h, t, DurationToTicks(seconds, nanoseconds), now, sliceNow);
        assert exec.Core().tasks == exec.tasks[..] && old(exec.Core()).tasks == old(exec.tasks[..]);
        TouchWaiters(old(exec.tasks[..]), exec.tasks[..], messagePrevious[..], messageNext[..], table);
      }
    }

    method ArmCurrentTimeslice(h: int, now: nat)
      requires Valid() && 0 <= h < exec.harts.Length && HartIndex(exec.Core(), h)
      modifies exec.harts
      ensures Valid() && Arm(old(exec.Core()), h, now) == Run(exec.Core())
    {
      hide TableOk, WaitOk, RingsOk, Executive.Valid, Arm;
      exec.ArmCurrentTimeslice(h, now);
    }

    method BindIdle(h: int, i: int)
      requires Valid() && 0 <= h < exec.harts.Length && 0 <= i < exec.tasks.Length && HartIndex(exec.Core(), h)
      modifies exec.harts
      ensures Valid()
      ensures var c := old(exec.Core());
              exec.Core() == c.(harts := c.harts[h := c.harts[h].(idle := i)])
    {
      hide TableOk, WaitOk, RingsOk, Executive.Valid;
      exec.BindIdle(h, i);
    }

    method SetCurrentTask(h: int, t: int) returns (parked: bool)
      requires Valid() && 0 <= h < exec.harts.Length && 0 <= t < exec.tasks.Length && HartIndex(exec.Core(), h)
      modifies exec.tasks, exec.harts
      ensures !parked ==> Valid()
      ensures match SetCurrent(old(exec.Core()), h, t)
              case Park => parked
              case Run(c) => !parked && exec.Core() == c
    {
      hide TableOk, WaitOk, RingsOk, Executive.Valid;
      parked := exec.SetCurrentTask(h, t);
      if !parked {
        assert exec.Core().tasks == exec.tasks[..] && old(exec.Core()).tasks == old(exec.tasks[..]);
        TouchWaiters(old(exec.tasks[..]), exec.tasks[..], messagePrevious[..], messageNext[..], table);
      }
    }
  }
}
