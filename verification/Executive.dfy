/**
 * The scheduler and the time manager in place: one table of tasks with two families of link words,
 * the run queue, one delay queue per hart, and the harts. Every method computes the step of the value
 * machine of the same name; `parked` is the hart stopping for good.
 */
module Executive {
  import opened Base
  import opened Lists
  import opened Machine
  import opened Placement

  ghost predicate RunOk(tasks: seq<Task>, previous: seq<int>, next: seq<int>, q: seq<int>, head: int, tail: int,
                        size: nat) {
    && |previous| == |tasks| && Chain(previous, next, q) && head == First(q) && tail == Last(q) && size == |q|
    && forall i :: 0 <= i < |q| ==> tasks[q[i]].queued
  }

  ghost predicate DelayOk(tasks: seq<Task>, previous: seq<int>, next: seq<int>, qs: seq<seq<int>>, heads: seq<int>) {
    && |previous| == |tasks| && |heads| == |qs| && Threads(previous, next, qs)
    && (forall h :: 0 <= h < |qs| ==> heads[h] == First(qs[h]))
    && AllFlagged(tasks, qs)
  }

  ghost predicate HartsOk(n: nat, harts: seq<Hart>) {
    forall h :: 0 <= h < |harts| ==> -1 <= harts[h].current < n && -1 <= harts[h].idle < n
  }

  /** Writing a task leaves the queues alone as long as its membership flags stay. */
  lemma TouchLists(tasks: seq<Task>, tasks': seq<Task>, t: int, previous: seq<int>, next: seq<int>, q: seq<int>,
                   head: int, tail: int, size: nat, dp: seq<int>, dn: seq<int>, qs: seq<seq<int>>, heads: seq<int>)
    requires RunOk(tasks, previous, next, q, head, tail, size) && DelayOk(tasks, dp, dn, qs, heads)
    requires 0 <= t < |tasks| == |tasks'| && tasks' == tasks[t := tasks'[t]]
    requires (tasks[t].queued ==> tasks'[t].queued) && (tasks[t].delayQueued ==> tasks'[t].delayQueued)
    ensures RunOk(tasks', previous, next, q, head, tail, size) && DelayOk(tasks', dp, dn, qs, heads)
  {
  }

  lemma RunFacts(tasks: seq<Task>, previous: seq<int>, next: seq<int>, q: seq<int>, head: int, tail: int, size: nat)
    requires RunOk(tasks, previous, next, q, head, tail, size)
    ensures |previous| == |next| == |tasks| && -1 <= head < |tasks| && -1 <= tail < |tasks| && size == |q|
    ensures head == First(q) && (head == NIL <==> q == [])
  {
  }

  lemma TouchDelay(tasks: seq<Task>, t: int, w: Task, dp: seq<int>, dn: seq<int>, qs: seq<seq<int>>, heads: seq<int>)
    requires DelayOk(tasks, dp, dn, qs, heads) && 0 <= t < |tasks| && w.delayQueued == tasks[t].delayQueued
    ensures DelayOk(tasks[t := w], dp, dn, qs, heads)
  {
  }

  lemma TouchRun(tasks: seq<Task>, t: int, w: Task, previous: seq<int>, next: seq<int>, q: seq<int>, head: int,
                 tail: int,
                 size: nat)
    requires RunOk(tasks, previous, next, q, head, tail, size) && 0 <= t < |tasks| && w.queued == tasks[t].queued
    ensures RunOk(tasks[t := w], previous, next, q, head, tail, size)
  {
  }

  lemma AppendRun(tasks: seq<Task>, previous: seq<int>, next: seq<int>, q: seq<int>, head: int, tail: int, size: nat,
                  t: int, w: Task)
    requires RunOk(tasks, previous, next, q, head, tail, size) && 0 <= t < |tasks| && !tasks[t].queued && w.queued
    ensures -1 <= tail < |next|
    ensures RunOk(tasks[t := w], Spliced(previous, NIL, t, tail), Spliced(next, tail, t, NIL), q + [t],
                  if tail == NIL then t else head, t, size + 1)
  {
    SpliceKeepsChain(previous, next, q, |q|, t);
    assert q + [t] == Inserted(q, |q|, t);
  }

  lemma PopRun(tasks: seq<Task>, previous: seq<int>, next: seq<int>, q: seq<int>, head: int, tail: int, size: nat,
               w: Task)
    requires RunOk(tasks, previous, next, q, head, tail, size) && q != []
    ensures 0 <= head < |next| && -1 <= next[head] < |next|
    ensures var n := next[head];
            RunOk(tasks[head := w], Detached(previous, n, head), next[head := NIL],
                  q[1..], n, if n == NIL then NIL else tail, size - 1)
  {
    PopKeepsChain(previous, next, q);
    assert q == [q[0]] + q[1..];
    assert forall i :: 0 < i < |q| ==> q[i] != q[0];
  }

  /** A new entry is spliced into one delay queue. */
  lemma SpliceDelay(tasks: seq<Task>, dp: seq<int>, dn: seq<int>, qs: seq<seq<int>>, heads: seq<int>, h: int, k: nat,
                    t: int, w: Task)
    requires DelayOk(tasks, dp, dn, qs, heads) && 0 <= h < |qs| && k <= |qs[h]|
    requires 0 <= t < |tasks| && !tasks[t].delayQueued && w.delayQueued
    ensures var p, n := At(qs[h], k - 1), At(qs[h], k);
            && -1 <= p < |dn| && -1 <= n < |dn|
            && DelayOk(tasks[t := w], Spliced(dp, n, t, p), Spliced(dn, p, t, n), qs[h := Inserted(qs[h], k, t)],
                       if p == NIL then heads[h := t] else heads)
  {
    NotQueuedIsInNone(tasks, dp, dn, qs, heads, t);
    SpliceThreads(dp, dn, qs, h, k, t);
    SpliceHead(dp, dn, qs, h, k, t);
    InsertedFlags(tasks, qs, qs[h := Inserted(qs[h], k, t)], h, k, t, w);
    hide Threads, Spliced, First, Inserted, InNone, AllFlagged;
  }

  ghost predicate AllFlagged(tasks: seq<Task>, qs: seq<seq<int>>) {
    forall h, i :: 0 <= h < |qs| && 0 <= i < |qs[h]| ==> 0 <= qs[h][i] < |tasks| && tasks[qs[h][i]].delayQueued
  }

  lemma InsertedFlags(tasks: seq<Task>, qs: seq<seq<int>>, qs': seq<seq<int>>, h: int, k: nat, t: int, w: Task)
    requires AllFlagged(tasks, qs) && 0 <= h < |qs| && k <= |qs[h]| && qs' == qs[h := Inserted(qs[h], k, t)]
    requires 0 <= t < |tasks| && w.delayQueued
    ensures AllFlagged(tasks[t := w], qs')
  {
    forall g, i | 0 <= g < |qs'| && 0 <= i < |qs'[g]|
      ensures 0 <= qs'[g][i] < |tasks| && tasks[t := w][qs'[g][i]].delayQueued
    {
      InsertedFrom(qs, h, k, t, g, i);
    }
  }

  lemma NotQueuedIsInNone(tasks: seq<Task>, dp: seq<int>, dn: seq<int>, qs: seq<seq<int>>, heads: seq<int>, t: int)
    requires DelayOk(tasks, dp, dn, qs, heads) && 0 <= t < |tasks| && !tasks[t].delayQueued
    ensures InNone(qs, t)
  {
  }

  /** The head of the list after an insertion. */
  lemma SpliceHead(dp: seq<int>, dn: seq<int>, qs: seq<seq<int>>, h: int, k: nat, t: int)
    requires Threads(dp, dn, qs) && 0 <= h < |qs| && k <= |qs[h]|
    ensures First(Inserted(qs[h], k, t)) == if At(qs[h], k - 1) == NIL then t else First(qs[h])
  {
    assert Chain(dp, dn, qs[h]);
  }

  /** An entry of the lists after an insertion is the new one or an old one. */
  lemma InsertedFrom(qs: seq<seq<int>>, h: int, k: nat, t: int, g: int, i: int)
    requires 0 <= h < |qs| && k <= |qs[h]| && 0 <= g < |qs| && 0 <= i < |qs[h := Inserted(qs[h], k, t)][g]|
    ensures var x := qs[h := Inserted(qs[h], k, t)][g][i]; x == t || exists j :: 0 <= j < |qs[g]| && qs[g][j] == x
  {
    var x := qs[h := Inserted(qs[h], k, t)][g][i];
    if x != t {
      var j := if g == h && i > k then i - 1 else i;
      assert qs[g][j] == x;
    }
  }

  /** The first entry of one delay queue is unlinked. */
  lemma PopDelay(tasks: seq<Task>, dp: seq<int>, dn: seq<int>, qs: seq<seq<int>>, heads: seq<int>, h: int, w: Task)
    requires DelayOk(tasks, dp, dn, qs, heads) && 0 <= h < |qs| && qs[h] != []
    ensures var t := heads[h];
            && 0 <= t < |dn| && -1 <= dn[t] < |dn|
            && var n := dn[t];
               DelayOk(tasks[t := w], Detached(dp, n, t), dn[t := NIL],
                       qs[h := qs[h][1..]], heads[h := n])
  {
    PopThreads(dp, dn, qs, h);
    PoppedIsGone(dp, dn, qs, h);
    hide Threads;
  }

  lemma PoppedIsGone(dp: seq<int>, dn: seq<int>, qs: seq<seq<int>>, h: int)
    requires Threads(dp, dn, qs) && 0 <= h < |qs| && qs[h] != []
    ensures InNone(qs[h := qs[h][1..]], qs[h][0])
  {
    assert Distinct(qs[h]);
  }

  /** Inserting at the first later entry is what the recursive insertion does. */
  lemma {:induction false} InsertAt(tasks: seq<Task>, q: seq<int>, t: int, deadline: nat, k: nat)
    requires k <= |q| && forall i :: 0 <= i < |q| ==> 0 <= q[i] < |tasks|
    requires forall i :: 0 <= i < k ==> tasks[q[i]].deadline <= deadline
    requires k < |q| ==> tasks[q[k]].deadline > deadline
    ensures InsertSleeper(tasks, q, t, deadline) == Inserted(q, k, t)
  {
    if k > 0 {
      InsertAt(tasks, q[1..], t, deadline, k - 1);
    }
  }

  /** Insertion reads only the deadlines of the queued entries. */
  lemma {:induction false} InsertReadsOthers(tasks: seq<Task>, tasks': seq<Task>, q: seq<int>, t: int, deadline: nat)
    requires |tasks| == |tasks'| && forall u :: 0 <= u < |tasks| ==> tasks'[u].deadline == tasks[u].deadline
    ensures InsertSleeper(tasks', q, t, deadline) == InsertSleeper(tasks, q, t, deadline)
    decreases q
  {
    if q != [] {
      InsertReadsOthers(tasks, tasks', q[1..], t, deadline);
    }
  }

  /** The order in which the sleep call writes `a0`, queues the caller and switches. */
  lemma SleepInSteps(c: Machine.Core, h: int, t: int, ticks: nat, now: nat, sliceNow: nat)
    requires HartIndex(c, h) && Slot(c, t) && (c.tasks[t].cpu == NIL || HartIndex(c, c.tasks[t].cpu))
    ensures var v := c.tasks[t];
            var b := SetTask(c, t, A0(v, 0));
            Machine.Sleep(c, h, t, ticks, now, sliceNow) ==
            if v.cpu == NIL || ticks == 0 || now + ticks > U64_MAX then
              Run((SetTask(b, t, A0(b.tasks[t], Errno(22))), false))
            else if v.delayQueued || v.queued then
              var d := SetTask(b, t, b.tasks[t].(state := Running, stateInfo := 0));
              Run((SetTask(d, t, A0(d.tasks[t], Errno(22))), false))
            else match SetNextRunnable(DelayUntil(b, t, now + ticks), h, sliceNow)
                 case Park => Park
                 case Run(d) => Run((d, true))
  {
    hide DelayUntil, SetNextRunnable;
    var v := c.tasks[t];
    assert v.context.x[10 := 0][10 := Errno(22)] == v.context.x[10 := Errno(22)];
    var e := A0(v, Errno(22));
    assert c.tasks[t := A0(v, 0)][t := e] == c.tasks[t := e];
    var f := e.(state := Running, stateInfo := 0);
    assert c.tasks[t := A0(v, 0)][t := A0(v, 0).(state := Running, stateInfo := 0)][t := f] == c.tasks[t := f];
  }

  /** The entry `t` has been unlinked from the delay queue of the state `before`, giving `c`. */
  ghost predicate Popped(before: Machine.Core, h: int, t: int, now: nat, c: Machine.Core) {
    && HartIndex(before, h) && before.sleepers[h] != [] && t == before.sleepers[h][0] && Slot(before, t)
    && before.tasks[t].deadline <= now
    && c == SetTask(before, t, before.tasks[t].(delayQueued := false))
              .(sleepers := before.sleepers[h := before.sleepers[h][1..]])
  }

  ghost function Republished(before: Machine.Core, h: int, t: int): Outcome<Machine.Core>
    requires HartIndex(before, h) && before.sleepers[h] != [] && Slot(before, t)
  {
    var v := before.tasks[t].(delayQueued := false, stateInfo := 0);
    Machine.AddTask(SetTask(before, t, v).(sleepers := before.sleepers[h := before.sleepers[h][1..]]), t)
  }

  lemma ReleaseUnfolds(before: Machine.Core, h: int, t: int, now: nat, c: Machine.Core)
    requires Popped(before, h, t, now, c)
    ensures HartIndex(before, h) && before.sleepers[h] != [] && Slot(before, t) && SameShape(before, c)
    ensures match Republished(before, h, t)
            case Park => ReleaseDue(before, h, now) == Park
            case Run(d) =>
              && SameShape(before, d) && ReleaseDue(before, h, now) == ReleaseDue(d, h, now)
              && |d.sleepers[h]| < |before.sleepers[h]|
  {
  }

  class Executive {
    const tasks: array<Task>
    const previous: array<int>
    const next: array<int>
    var head: int
    var tail: int
    var size: nat
    const harts: array<Hart>
    const delayHeads: array<int>
    const delayPrevious: array<int>
    const delayNext: array<int>
    ghost var runQueue: seq<int>
    ghost var sleepers: seq<seq<int>>

    ghost predicate Valid()
      reads this, tasks, previous, next, harts, delayHeads, delayPrevious, delayNext
    {
      && previous != next && previous != delayHeads && previous != delayPrevious && previous != delayNext
      && next != delayHeads && next != delayPrevious && next != delayNext
      && delayHeads != delayPrevious && delayHeads != delayNext && delayPrevious != delayNext
      && RunOk(tasks[..], previous[..], next[..], runQueue, head, tail, size)
      && DelayOk(tasks[..], delayPrevious[..], delayNext[..], sleepers, delayHeads[..])
      && harts.Length == |sleepers| && HartsOk(tasks.Length, harts[..])
    }

    /** What the value machine sees. */
    ghost function Core(): Machine.Core
      reads this, tasks, harts
    {
      Machine.Core(tasks[..], runQueue, harts[..], sleepers)
    }

    /** Cleared tables and empty queues; no hart has a task yet. */
    constructor (slots: nat, hartCount: nat)
      ensures Valid() && tasks.Length == slots
      ensures Core() == Machine.Core(seq(slots, i => BLANK_TASK), [], seq(hartCount, i => Hart(NIL, NIL, 0, 0)),
                                     seq(hartCount, i => []))
      ensures fresh(tasks) && fresh(previous) && fresh(next) && fresh(harts)
      ensures fresh(delayHeads) && fresh(delayPrevious) && fresh(delayNext)
    {
      tasks := new Task[slots](i => BLANK_TASK);
      previous := new int[slots](i => NIL);
      next := new int[slots](i => NIL);
      head, tail, size := NIL, NIL, 0;
      harts := new Hart[hartCount](i => Hart(NIL, NIL, 0, 0));
      delayHeads := new int[hartCount](i => NIL);
      delayPrevious := new int[slots](i => NIL);
      delayNext := new int[slots](i => NIL);
      runQueue := [];
      sleepers := seq(hartCount, i => []);
    }

    // -------------------------------------------------------------------------------------------
    // RunQueue

    method RunQueueInsert(t: int) returns (ok: bool)
      requires Valid() && 0 <= t < tasks.Length
      modifies this`head, this`tail, this`size, this`runQueue, tasks, previous, next
      ensures Valid()
      ensures var v := old(tasks[t]);
              ok == !(v.queued || v.delayQueued || v.messageQueued || v.state == Ended)
      ensures Core() == if ok then Enqueue(old(Core()), t) else old(Core())
    {
      if tasks[t].queued || tasks[t].delayQueued || tasks[t].messageQueued || tasks[t].state == Ended {
        return false;
      }
      hide RunOk, DelayOk;
      RunFacts(tasks[..], previous[..], next[..], runQueue, head, tail, size);
      ghost var w := tasks[t].(state := Ready, queued := true);
      AppendRun(tasks[..], previous[..], next[..], runQueue, head, tail, size, t, w);
      TouchDelay(tasks[..], t, w, delayPrevious[..], delayNext[..], sleepers, delayHeads[..]);

      Link(previous, next, tail, NIL, t);
      if tail == NIL {
        head := t;
      }
      tail := t;
      tasks[t] := tasks[t].(state := Ready, queued := true);
      size := size + 1;
      ok := true;

      runQueue := runQueue + [t];
      assert tasks[..] == old(tasks[..])[t := w];
    }

    /** The head of the run queue, or `NIL`; `parked` when it was not ready after all. */
    method RunQueueRemove() returns (t: int, parked: bool)
      requires Valid()
      modifies this`head, this`tail, this`size, this`runQueue, tasks, previous, next
      ensures !parked ==> Valid()
      ensures t == NIL <==> old(runQueue) == []
      ensures t == NIL ==> !parked && Core() == old(Core())
      ensures t != NIL ==>
                && t == old(runQueue)[0]
                && match Dequeue(old(Core())) { case Park => parked case Run(c) => !parked && Core() == c }
    {
      hide RunOk, DelayOk;
      RunFacts(tasks[..], previous[..], next[..], runQueue, head, tail, size);
      t := head;
      parked := false;
      if t == NIL {
        return;
      }
      ghost var w := tasks[t].(queued := false);
      PopRun(tasks[..], previous[..], next[..], runQueue, head, tail, size, w);
      TouchDelay(tasks[..], t, w, delayPrevious[..], delayNext[..], sleepers, delayHeads[..]);

      head := UnlinkFirst(previous, next, t);
      if head == NIL {
        tail := NIL;
      }
      tasks[t] := tasks[t].(queued := false);
      size := size - 1;
      parked := tasks[t].state != Ready || tasks[t].delayQueued || tasks[t].messageQueued;

      runQueue := runQueue[1..];
      assert tasks[..] == old(tasks[..])[t := w];
    }

    // -------------------------------------------------------------------------------------------
    // Scheduler

    method AddTask(t: int) returns (ok: bool)
      requires Valid() && 0 <= t < tasks.Length
      modifies this`head, this`tail, this`size, this`runQueue, tasks, previous, next
      ensures Valid()
      ensures match Machine.AddTask(old(Core()), t)
              case Park => !ok && Core() == old(Core())
              case Run(c) => ok && Core() == c
    {
      var v := tasks[t];
      if v.state == Ended || v.idle || v.cpu == NIL || v.delayQueued || v.queued || v.messageQueued {
        return false;
      }
      ok := RunQueueInsert(t);
    }

    method CurrentTask(h: int) returns (t: int)
      requires Valid() && 0 <= h < harts.Length
      ensures -1 <= t < tasks.Length && t == Core().harts[h].current
    {
      t := harts[h].current;
      assert harts[..][h] == harts[h];
    }

    method ReturnRunnable(h: int) returns (parked: bool)
      requires Valid() && 0 <= h < harts.Length
      modifies this`head, this`tail, this`size, this`runQueue, tasks, previous, next
      ensures Valid()
      ensures match Machine.ReturnRunnable(old(Core()), h)
              case Park => parked
              case Run(c) => !parked && Core() == c
    {
      var t := harts[h].current;
      assert harts[..][h] == harts[h];
      parked := false;
      if t != NIL && !tasks[t].idle {
        var ok := AddTask(t);
        parked := !ok;
      }
    }

    /** The idle task of a hart, bound once while the kernel starts. */
    method BindIdle(h: int, i: int)
      requires Valid() && 0 <= h < harts.Length && 0 <= i < tasks.Length
      modifies harts
      ensures Valid() && Core() == old(Core()).(harts := old(Core()).harts[h := old(Core()).harts[h].(idle := i)])
    {
      harts[h] := harts[h].(idle := i);
      assert harts[..] == old(harts[..])[h := harts[h]];
    }

    method SetCurrentTask(h: int, t: int) returns (parked: bool)
      requires Valid() && 0 <= h < harts.Length && 0 <= t < tasks.Length
      modifies tasks, harts
      ensures Valid()
      ensures match SetCurrent(old(Core()), h, t)
              case Park => parked
              case Run(c) => !parked && Core() == c
    {
      hide RunOk, DelayOk;
      if tasks[t].state == Ended || tasks[t].queued || tasks[t].delayQueued || tasks[t].messageQueued {
        return true;
      }
      ghost var w := tasks[t].(cpu := h, state := Running);
      TouchLists(tasks[..], tasks[..][t := w], t, previous[..], next[..], runQueue, head, tail, size,
                 delayPrevious[..], delayNext[..], sleepers, delayHeads[..]);
      tasks[t] := tasks[t].(cpu := h, state := Running);
      harts[h] := harts[h].(current := t);
      parked := false;
      assert tasks[..] == old(tasks[..])[t := w];
      assert harts[..] == old(harts[..])[h := harts[h]];
    }

    method SetNextRunnable(h: int, now: nat) returns (parked: bool)
      requires Valid() && 0 <= h < harts.Length
      modifies this`head, this`tail, this`size, this`runQueue, tasks, previous, next, harts
      ensures !parked ==> Valid()
      ensures match Machine.SetNextRunnable(old(Core()), h, now)
              case Park => parked
              case Run(c) => !parked && Core() == c
    {
      var selected := NIL;
      if size != 0 {
        selected, parked := RunQueueRemove();
        if parked {
          return;
        }
      }
      var slice := TASK_SLICE;
      if selected == NIL {
        selected := harts[h].idle;
        slice := TicksUntilNext(h, now, IDLE_SLICE);
      }
      harts[h] := harts[h].(slice := slice);
      assert harts[..] == old(harts[..])[h := harts[h]];
      if selected == NIL {
        return true;
      }
      parked := SetCurrentTask(h, selected);
    }

    // -------------------------------------------------------------------------------------------
    // DelayQueue

    method TicksUntilNext(h: int, now: nat, maximum: nat) returns (ticks: nat)
      requires Valid() && 0 <= h < harts.Length
      ensures ticks == Machine.TicksUntilNext(tasks[..], sleepers[h], now, maximum)
    {
      var first := delayHeads[h];
      assert first == First(sleepers[h]);
      if first == NIL {
        return maximum;
      }
      if tasks[first].deadline <= now {
        return 1;
      }
      var remaining := tasks[first].deadline - now;
      ticks := if remaining < maximum then remaining else maximum;
    }

    /** Insertion into the delay queue of hart `h`, behind the entries due no later. */
    method DelayInsert(h: int, t: int, deadline: nat) returns (ok: bool)
      requires Valid() && 0 <= h < harts.Length && 0 <= t < tasks.Length
      modifies this`sleepers, tasks, delayPrevious, delayNext, delayHeads
      ensures Valid()
      ensures ok == !(old(tasks[t]).delayQueued || old(tasks[t]).queued || old(tasks[t]).state == Ended)
      ensures !ok ==> Core() == old(Core())
      ensures ok ==>
                var c := old(Core());
                var w := c.tasks[t].(deadline := deadline, delayQueued := true);
                Core() == SetTask(c, t, w)
                            .(sleepers := c.sleepers[h := InsertSleeper(c.tasks, c.sleepers[h], t, deadline)])
    {
      if tasks[t].delayQueued || tasks[t].queued || tasks[t].state == Ended {
        return false;
      }
      ghost var q, k := sleepers[h], 0;
      var before, cursor := NIL, delayHeads[h];
      while cursor != NIL && tasks[cursor].deadline <= deadline
        invariant 0 <= k <= |q| && before == At(q, k - 1) && cursor == At(q, k)
        invariant forall i :: 0 <= i < k ==> tasks[q[i]].deadline <= deadline
        decreases |q| - k
      {
        before := cursor;
        cursor := delayNext[cursor];
        k := k + 1;
      }
      InsertAt(tasks[..], q, t, deadline, k);
      ghost var w := tasks[t].(deadline := deadline, delayQueued := true);
      DelaySplice(h, t, deadline, before, cursor, k, w);
      ok := true;
    }

    /** The link words and the flag written by the insertion. */
    method DelaySplice(h: int, t: int, deadline: nat, before: int, cursor: int, ghost k: nat, ghost w: Task)
      requires Valid() && 0 <= h < harts.Length && 0 <= t < tasks.Length && !tasks[t].delayQueued
      requires k <= |sleepers[h]| && before == At(sleepers[h], k - 1) && cursor == At(sleepers[h], k)
      requires w == tasks[t].(deadline := deadline, delayQueued := true)
      modifies this`sleepers, tasks, delayPrevious, delayNext, delayHeads
      ensures Valid()
      ensures var c := old(Core());
              Core() == SetTask(c, t, w).(sleepers := c.sleepers[h := Inserted(c.sleepers[h], k, t)])
    {
      assert |delayPrevious[..]| == |tasks[..]| && |delayNext[..]| == |tasks[..]| && delayHeads.Length == |sleepers|;
      hide RunOk, DelayOk, Chain;
      SpliceDelay(tasks[..], delayPrevious[..], delayNext[..], sleepers, delayHeads[..], h, k, t, w);
      TouchRun(tasks[..], t, w, previous[..], next[..], runQueue, head, tail, size);

      Link(delayPrevious, delayNext, before, cursor, t);
      tasks[t] := tasks[t].(deadline := deadline, delayQueued := true);
      if before == NIL {
        delayHeads[h] := t;
      }

      sleepers := sleepers[h := Inserted(sleepers[h], k, t)];
      assert tasks[..] == old(tasks[..])[t := w];
      assert delayHeads[..] == if before == NIL then old(delayHeads[..])[h := t] else old(delayHeads[..]);
    }

    /** The first entry of the delay queue of hart `h` if it is due, or `NIL`. */
    method RemoveExpired(h: int, now: nat) returns (t: int)
      requires Valid() && 0 <= h < harts.Length
      modifies this`sleepers, tasks, delayPrevious, delayNext, delayHeads
      ensures Valid()
      ensures t == NIL ==> Core() == old(Core())
      ensures t == NIL <==> old(sleepers[h]) == [] || old(Due(tasks[..], sleepers[h][0])) > now
      ensures t != NIL ==>
                && 0 <= t < tasks.Length && t == old(sleepers[h][0])
                && var c := old(Core());
                   Core() == SetTask(c, t, c.tasks[t].(delayQueued := false))
                               .(sleepers := c.sleepers[h := c.sleepers[h][1..]])
    {
      t := delayHeads[h];
      assert t == First(sleepers[h]) && |delayPrevious[..]| == |tasks[..]| && |delayNext[..]| == |tasks[..]|;
      assert sleepers[h] != [] ==> 0 <= sleepers[h][0] < tasks.Length;
      if t == NIL || tasks[t].deadline > now {
        return NIL;
      }
      hide RunOk, DelayOk, Chain;
      ghost var w := tasks[t].(delayQueued := false);
      PopDelay(tasks[..], delayPrevious[..], delayNext[..], sleepers, delayHeads[..], h, w);
      TouchRun(tasks[..], t, w, previous[..], next[..], runQueue, head, tail, size);

      var n := UnlinkFirst(delayPrevious, delayNext, t);
      delayHeads[h] := n;
      tasks[t] := tasks[t].(delayQueued := false);

      sleepers := sleepers[h := sleepers[h][1..]];
      assert tasks[..] == old(tasks[..])[t := w];
      assert delayHeads[..] == old(delayHeads[..])[h := n];
    }

    // -------------------------------------------------------------------------------------------
    // TimeManager

    /** Writing a task's record without touching its queue flags. */
    method WriteTask(t: int, w: Task)
      requires Valid() && 0 <= t < tasks.Length
      requires w.queued == tasks[t].queued && w.delayQueued == tasks[t].delayQueued
      modifies tasks
      ensures Valid() && Core() == SetTask(old(Core()), t, w)
    {
      hide RunOk, DelayOk;
      TouchRun(tasks[..], t, w, previous[..], next[..], runQueue, head, tail, size);
      TouchDelay(tasks[..], t, w, delayPrevious[..], delayNext[..], sleepers, delayHeads[..]);
      tasks[t] := w;
      assert tasks[..] == old(tasks[..])[t := w];
    }

    /** Publishes the entry `t` that was just unlinked from the delay queue of the state `before`. */
    method ReleaseOne(h: int, t: int, now: nat, ghost before: Machine.Core) returns (ok: bool)
      requires Valid() && Popped(before, h, t, now, Core())
      modifies this`head, this`tail, this`size, this`runQueue, tasks, previous, next
      ensures Valid()
      ensures match Republished(before, h, t)
              case Park => !ok
              case Run(c) => ok && Core() == c
    {
      hide RunOk, DelayOk, HartsOk, Machine.AddTask;
      assert t < |tasks[..]|;
      WriteTask(t, tasks[t].(stateInfo := 0));
      ghost var v := before.tasks[t].(delayQueued := false, stateInfo := 0);
      assert Core() == SetTask(before, t, v).(sleepers := before.sleepers[h := before.sleepers[h][1..]]);
      ok := AddTask(t);
    }

    /** Wakes every entry of the hart's delay queue that is due. */
    method CheckReleaseTasks(h: int, now: nat) returns (parked: bool)
      requires Valid() && 0 <= h < harts.Length
      modifies this`head, this`tail, this`size, this`runQueue, this`sleepers
      modifies tasks, previous, next, delayPrevious, delayNext, delayHeads
      ensures Valid()
      ensures match ReleaseDue(old(Core()), h, now)
              case Park => parked
              case Run(c) => !parked && Core() == c
    {
      assert HartIndex(Core(), h);
      hide Valid, Republished, Popped, ReleaseDue;
      parked := false;
      ghost var before := Core();
      var t := NextExpired(h, now);
      while t != NIL
        invariant Valid() && HartIndex(before, h)
        invariant ReleaseDue(before, h, now) == ReleaseDue(old(Core()), h, now)
        invariant if t == NIL then ReleaseDue(before, h, now) == Run(Core()) else Popped(before, h, t, now, Core())
        decreases |before.sleepers[h]|
      {
        ReleaseUnfolds(before, h, t, now, Core());
        var ok := ReleaseOne(h, t, now, before);
        if !ok {
          return true;
        }
        before := Core();
        t := NextExpired(h, now);
      }
    }

    /** The next entry to release, and what that says about the rest of the pass. */
    method NextExpired(h: int, now: nat) returns (t: int)
      requires Valid() && 0 <= h < harts.Length && HartIndex(Core(), h)
      modifies this`sleepers, tasks, delayPrevious, delayNext, delayHeads
      ensures Valid()
      ensures if t == NIL then Core() == old(Core()) && ReleaseDue(old(Core()), h, now) == Run(Core())
              else Popped(old(Core()), h, t, now, Core())
    {
      t := RemoveExpired(h, now);
    }

    method ArmCurrentTimeslice(h: int, now: nat)
      requires Valid() && 0 <= h < harts.Length
      modifies harts
      ensures Valid() && Arm(old(Core()), h, now) == Run(Core())
    {
      var ticks := harts[h].slice;
      var t := harts[h].current;
      assert harts[..][h] == harts[h];
      if t != NIL && tasks[t].idle {
        ticks := TicksUntilNext(h, now, IDLE_SLICE);
      }
      if ticks == 0 {
        ticks := 1;
      }
      var deadline := if now > U64_MAX - ticks then U64_MAX else now + ticks;
      harts[h] := harts[h].(armed := deadline);
      assert harts[..] == old(harts[..])[h := harts[h]];
    }

    /** The sleep call: queue the caller until its deadline and switch the hart away, or answer -EINVAL. */
    method Sleep(h: int, t: int, seconds: nat, nanoseconds: nat, now: nat,
                 sliceNow: nat) returns (rescheduled: bool, parked: bool)
      requires Valid() && 0 <= h < harts.Length && 0 <= t < tasks.Length && -1 <= tasks[t].cpu < harts.Length
      modifies this`head, this`tail, this`size, this`runQueue, this`sleepers
      modifies tasks, previous, next, harts, delayPrevious, delayNext, delayHeads
      ensures !parked ==> Valid()
      ensures match Machine.Sleep(old(Core()), h, t, DurationToTicks(seconds, nanoseconds), now, sliceNow)
              case Park => parked
              case Run(r) => !parked && Core() == r.0 && rescheduled == r.1
    {
      hide RunOk, DelayOk, HartsOk, DurationToTicks, DelayUntil, Machine.Sleep, Machine.SetNextRunnable;
      SleepInSteps(Core(), h, t, DurationToTicks(seconds, nanoseconds), now, sliceNow);
      parked, rescheduled := false, false;
      WriteTask(t, A0(tasks[t], 0));
      var ok := DelayTask(t, seconds, nanoseconds, now);
      if ok {
        rescheduled := true;
        parked := SetNextRunnable(h, sliceNow);
      } else {
        WriteTask(t, A0(tasks[t], Errno(22)));
      }
    }

    method DelayTask(t: int, seconds: nat, nanoseconds: nat, now: nat) returns (ok: bool)
      requires Valid() && 0 <= t < tasks.Length && -1 <= tasks[t].cpu < harts.Length
      modifies this`sleepers, tasks, delayPrevious, delayNext, delayHeads
      ensures Valid()
      ensures var c, v, ticks := old(Core()), old(tasks[t]), DurationToTicks(seconds, nanoseconds);
              if v.cpu == NIL || ticks == 0 || now + ticks > U64_MAX then !ok && Core() == c
              else if v.delayQueued || v.queued then
                !ok && Core() == SetTask(c, t, v.(state := Running, stateInfo := 0))
              else ok && Core() == DelayUntil(c, t, now + ticks)
    {
      hide RunOk, DelayOk, HartsOk, DurationToTicks, InsertSleeper;
      var v := tasks[t];
      if v.cpu == NIL {
        return false;
      }
      var ticks := DurationToTicks(seconds, nanoseconds);
      if ticks == 0 || now > U64_MAX - ticks {
        return false;
      }
      var deadline := now + ticks;
      WriteTask(t, v.(state := BlockedSleep, stateInfo := deadline));
      ghost var c := Core();
      ok := DelayInsert(v.cpu, t, deadline);
      if !ok {
        WriteTask(t, tasks[t].(state := Running, stateInfo := 0));
      } else {
        InsertReadsOthers(old(tasks[..]), c.tasks, c.sleepers[v.cpu], t, deadline);
      }
    }
  }
}
