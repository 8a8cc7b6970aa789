/**
 * The abstract endpoint machine of verification/model/ipc_model_check.py, for every slot count,
 * queue depth and generation ceiling, with the two histories that the checker does not keep:
 * which messages an epoch accepted and delivered, and which handles were ever published.
 */
module IpcModel {
  import opened Base

  /** Sender identity and four payload words. */
  datatype Message = Message(sender: nat, w0: nat, w1: nat, w2: nat, w3: nat)

  datatype Endpoint = Endpoint(claimed: bool, active: bool, retired: bool, generation: nat, owner: nat,
                               queue: seq<Message>, waiters: seq<int>)

  datatype Limits = Limits(depth: nat, ceiling: nat)

  datatype Label =
    | Create(slot: nat, owner: nat, generation: nat)
    | Destroy(slot: nat)
    | Send(slot: nat, message: Message)
    | SendWake(slot: nat, message: Message, receiver: int)
    | Receive(slot: nat, message: Message)
    | Block(slot: nat, receiver: int)

  const UNUSED := Endpoint(false, false, false, 0, 0, [], [])

  /** The lowest slot that is neither allocated nor retired, or the table size. */
  function FreeSlot(s: seq<Endpoint>): (slot: nat)
    ensures slot <= |s|
    ensures slot < |s| ==> !s[slot].claimed && !s[slot].retired
    ensures forall i :: 0 <= i < slot ==> s[i].claimed || s[i].retired
  {
    if s == [] || (!s[0].claimed && !s[0].retired) then 0 else
    var rest := FreeSlot(s[1..]);
    assert forall i :: 0 < i < 1 + rest ==> s[i] == s[1..][i - 1];
    1 + rest
  }

  function FirstGeneration(e: Endpoint): nat {
    if e.generation == 0 then 1 else e.generation
  }

  function Opened(e: Endpoint, owner: nat): Endpoint {
    Endpoint(true, true, false, FirstGeneration(e), owner, [], [])
  }

  /** Destroy advances the epoch and frees the slot, or retires it for good at the ceiling. */
  function Closed(e: Endpoint, ceiling: nat): Endpoint {
    if e.generation >= ceiling then Endpoint(e.claimed, false, true, e.generation, 0, [], [])
    else Endpoint(false, false, e.retired, e.generation + 1, 0, [], [])
  }

  ghost predicate WaitsSomewhere(s: seq<Endpoint>, receiver: int) {
    exists i :: 0 <= i < |s| && receiver in s[i].waiters
  }

  /** `successors`: the transitions of the checker. */
  ghost predicate Next(lim: Limits, s: seq<Endpoint>, l: Label, t: seq<Endpoint>) {
    && l.slot < |s|
    && var e := s[l.slot];
       match l
       case Create(slot, owner, generation) =>
         && slot == FreeSlot(s)
         && generation == FirstGeneration(e)
         && t == s[slot := Opened(e, owner)]
       case Destroy(slot) =>
         e.active && t == s[slot := Closed(e, lim.ceiling)]
       case Send(slot, m) =>
         e.active && e.waiters == [] && |e.queue| < lim.depth && t == s[slot := e.(queue := e.queue + [m])]
       case SendWake(slot, m, r) =>
         e.active && e.waiters != [] && r == e.waiters[0] && t == s[slot := e.(waiters := e.waiters[1..])]
       case Receive(slot, m) =>
         e.active && e.queue != [] && m == e.queue[0] && t == s[slot := e.(queue := e.queue[1..])]
       case Block(slot, r) =>
         e.active && e.queue == [] && !WaitsSomewhere(s, r) && t == s[slot := e.(waiters := e.waiters + [r])]
  }

  /** `check_state` for one endpoint. */
  ghost predicate EndpointOk(lim: Limits, e: Endpoint) {
    && e.generation <= lim.ceiling
    && |e.queue| <= lim.depth
    && (e.queue == [] || e.waiters == [])
    && (e.active ==> e.claimed && !e.retired && e.generation != 0)
    && (!e.active ==> e.owner == 0 && e.queue == [] && e.waiters == [])
    && (e.retired ==> e.claimed && !e.active && e.generation == lim.ceiling)
    && (e.claimed ==> e.active || e.retired)
    && Distinct(e.waiters)
  }

  /** `check_state`: every endpoint is well formed and no task waits at two of them. */
  ghost predicate StateOk(lim: Limits, s: seq<Endpoint>) {
    && lim.ceiling >= 1
    && (forall i :: 0 <= i < |s| ==> EndpointOk(lim, s[i]))
    && (forall i, j, w :: 0 <= i < j < |s| && w in s[i].waiters ==> w !in s[j].waiters)
  }

  ghost predicate Initial(s: seq<Endpoint>) {
    forall i :: 0 <= i < |s| ==> s[i] == UNUSED
  }

  lemma NextKeepsStateOk(lim: Limits, s: seq<Endpoint>, l: Label, t: seq<Endpoint>)
    requires StateOk(lim, s) && Next(lim, s, l, t)
    ensures StateOk(lim, t)
  {
    if l.Block? {
      assert forall w :: w in t[l.slot].waiters ==> w in s[l.slot].waiters || w == l.receiver;
      assert forall i :: 0 <= i < |s| ==> l.receiver !in s[i].waiters;
    } else {
      assert forall w :: w in t[l.slot].waiters ==> w in s[l.slot].waiters;
    }
  }

  /** A run: one more state than labels, adjacent states related by the label between them. */
  ghost predicate IsRun(lim: Limits, states: seq<seq<Endpoint>>, labels: seq<Label>) {
    && |states| == |labels| + 1
    && Initial(states[0])
    && lim.ceiling >= 1
    && forall i :: 0 <= i < |labels| ==> Next(lim, states[i], labels[i], states[i + 1])
  }

  lemma {:induction false} RunsAreOk(lim: Limits, states: seq<seq<Endpoint>>, labels: seq<Label>, n: nat)
    requires IsRun(lim, states, labels) && n <= |labels|
    ensures StateOk(lim, states[n]) && |states[n]| == |states[0]|
  {
    if n > 0 {
      RunsAreOk(lim, states, labels, n - 1);
      NextKeepsStateOk(lim, states[n - 1], labels[n - 1], states[n]);
    }
  }

  // ---------------------------------------------------------------------------------------------
  // Delivery: within an epoch, accepted sends are the deliveries followed by the pending queue.

  /** The accepted messages of the current epoch of a slot, in sending order. */
  function Accepted(labels: seq<Label>, slot: nat): seq<Message> {
    if labels == [] then [] else
    var l := labels[|labels| - 1];
    var before := Accepted(labels[..|labels| - 1], slot);
    if l.slot != slot then before else
    match l
    case Create(_, _, _) => []
    case Send(_, m) => before + [m]
    case SendWake(_, m, _) => before + [m]
    case _ => before
  }

  /** The messages handed to a receiver in the current epoch of a slot, in delivery order. */
  function Delivered(labels: seq<Label>, slot: nat): seq<Message> {
    if labels == [] then [] else
    var l := labels[|labels| - 1];
    var before := Delivered(labels[..|labels| - 1], slot);
    if l.slot != slot then before else
    match l
    case Create(_, _, _) => []
    case Receive(_, m) => before + [m]
    case SendWake(_, m, _) => before + [m]
    case _ => before
  }

  /** The tasks that blocked on the current epoch of a slot, in blocking order. */
  function Blocked(labels: seq<Label>, slot: nat): seq<int> {
    if labels == [] then [] else
    var l := labels[|labels| - 1];
    var before := Blocked(labels[..|labels| - 1], slot);
    if l.slot != slot then before else
    match l
    case Create(_, _, _) => []
    case Block(_, r) => before + [r]
    case _ => before
  }

  /** The tasks woken by a send in the current epoch of a slot, in waking order. */
  function Served(labels: seq<Label>, slot: nat): seq<int> {
    if labels == [] then [] else
    var l := labels[|labels| - 1];
    var before := Served(labels[..|labels| - 1], slot);
    if l.slot != slot then before else
    match l
    case Create(_, _, _) => []
    case SendWake(_, _, r) => before + [r]
    case _ => before
  }

  /** What one step of an epoch does to the four histories of a slot and to its two queues. */
  lemma EpochStep(lim: Limits, s: seq<Endpoint>, labels: seq<Label>, t: seq<Endpoint>, slot: nat)
    requires labels != [] && StateOk(lim, s) && Next(lim, s, labels[|labels| - 1], t)
    requires slot < |s| && t[slot].active
    requires var before := labels[..|labels| - 1];
             labels[|labels| - 1] == Create(slot, t[slot].owner, t[slot].generation) || (s[slot].active ==>
               && Accepted(before, slot) == Delivered(before, slot) + s[slot].queue
               && Blocked(before, slot) == Served(before, slot) + s[slot].waiters)
    ensures Accepted(labels, slot) == Delivered(labels, slot) + t[slot].queue
    ensures Blocked(labels, slot) == Served(labels, slot) + t[slot].waiters
  {
    var l, e := labels[|labels| - 1], s[slot];
    if l.slot == slot {
      match l
      case Create(_, _, _) =>
      case Destroy(_) =>
      case Send(_, _) =>
      case SendWake(_, m, r) => assert e.waiters == [r] + t[slot].waiters;
      case Receive(_, m) => assert e.queue == [m] + t[slot].queue;
      case Block(_, _) =>
    }
  }

  /**
   * Exactly-once FIFO delivery over every run: nothing is lost, duplicated or reordered, whether a
   * message went through the pending queue or directly to a waiter, and receivers are served in the
   * order in which they blocked.
   */
  lemma {:induction false} DeliveryIsFifoExactlyOnce(lim: Limits, states: seq<seq<Endpoint>>, labels: seq<Label>,
                                                    slot: nat)
    requires IsRun(lim, states, labels)
    requires slot < |states[|labels|]| && states[|labels|][slot].active
    ensures Accepted(labels, slot) == Delivered(labels, slot) + states[|labels|][slot].queue
    ensures Blocked(labels, slot) == Served(labels, slot) + states[|labels|][slot].waiters
    decreases |labels|
  {
    var n := |labels| - 1;
    if n >= 0 {
      RunsAreOk(lim, states, labels, n);
      assert Next(lim, states[n], labels[n], states[n + 1]);
      if states[n][slot].active {
        DeliveryIsFifoExactlyOnce(lim, states[..n + 1], labels[..n], slot);
      }
      EpochStep(lim, states[n], labels, states[n + 1], slot);
    }
  }

  // ---------------------------------------------------------------------------------------------
  // Handles: no (slot, generation) pair is ever published twice, and a destroyed one stays dead.

  /** The handles published by a run, oldest first. */
  function Published(labels: seq<Label>): seq<(nat, nat)> {
    if labels == [] then [] else
    var before := Published(labels[..|labels| - 1]);
    match labels[|labels| - 1]
    case Create(slot, _, g) => before + [(slot, g)]
    case _ => before
  }

  /** A slot's epoch only moves forward, and only forward past the epoch of a destroyed endpoint. */
  lemma EpochsOnlyAdvance(lim: Limits, s: seq<Endpoint>, l: Label, t: seq<Endpoint>, slot: nat)
    requires StateOk(lim, s) && Next(lim, s, l, t) && slot < |s|
    ensures s[slot].generation <= t[slot].generation
    ensures s[slot].retired ==> t[slot] == s[slot]
    ensures l == Destroy(slot) ==> t[slot].retired || s[slot].generation < t[slot].generation
  {
  }

  ghost predicate Spent(s: seq<Endpoint>, slot: nat, generation: nat) {
    slot < |s| && (s[slot].retired || generation < s[slot].generation)
  }

  ghost predicate Usable(s: seq<Endpoint>, slot: nat, generation: nat) {
    slot < |s| && s[slot].active && s[slot].generation == generation
  }

  lemma {:induction false} SpentForever(lim: Limits, states: seq<seq<Endpoint>>, labels: seq<Label>, m: nat, n: nat,
                                       slot: nat, generation: nat)
    requires IsRun(lim, states, labels) && m <= n <= |labels|
    requires Spent(states[m], slot, generation)
    ensures Spent(states[n], slot, generation) && !Usable(states[n], slot, generation)
    decreases n - m
  {
    RunsAreOk(lim, states, labels, m);
    if m < n {
      EpochsOnlyAdvance(lim, states[m], labels[m], states[m + 1], slot);
      SpentForever(lim, states, labels, m + 1, n, slot, generation);
    }
  }

  /** Once destroyed, a handle is rejected in every later state of the run. */
  lemma DestroyedHandlesStayDead(lim: Limits, states: seq<seq<Endpoint>>, labels: seq<Label>, m: nat, n: nat)
    requires IsRun(lim, states, labels) && m < n <= |labels| && labels[m].Destroy?
    requires labels[m].slot < |states[m]|
    ensures !Usable(states[n], labels[m].slot, states[m][labels[m].slot].generation)
  {
    RunsAreOk(lim, states, labels, m);
    var slot := labels[m].slot;
    EpochsOnlyAdvance(lim, states[m], labels[m], states[m + 1], slot);
    SpentForever(lim, states, labels, m + 1, n, slot, states[m][slot].generation);
  }

  /** Every handle published so far is in use now or spent; its generation is within the ceiling. */
  lemma {:induction false} PublishedAreUsableOrSpent(lim: Limits, states: seq<seq<Endpoint>>, labels: seq<Label>,
                                                    i: nat)
    requires IsRun(lim, states, labels) && i < |Published(labels)|
    ensures var h := Published(labels)[i];
            && 1 <= h.1 <= lim.ceiling
            && (Usable(states[|labels|], h.0, h.1) || Spent(states[|labels|], h.0, h.1))
    decreases |labels|
  {
    var n := |labels| - 1;
    RunsAreOk(lim, states, labels, n);
    RunsAreOk(lim, states, labels, n + 1);
    var l := labels[n];
    assert Next(lim, states[n], l, states[n + 1]);
    if i < |Published(labels[..n])| {
      PublishedAreUsableOrSpent(lim, states[..n + 1], labels[..n], i);
      var h := Published(labels)[i];
      EpochsOnlyAdvance(lim, states[n], l, states[n + 1], h.0);
    }
  }

  /** No handle is published twice, and the generations of one slot are published in increasing order. */
  lemma {:induction false} HandlesAreNeverReissued(lim: Limits, states: seq<seq<Endpoint>>, labels: seq<Label>,
                                                  i: nat, j: nat)
    requires IsRun(lim, states, labels) && i < j < |Published(labels)|
    ensures Published(labels)[i] != Published(labels)[j]
    ensures Published(labels)[i].0 == Published(labels)[j].0 ==> Published(labels)[i].1 < Published(labels)[j].1
    decreases |labels|
  {
    var n := |labels| - 1;
    if j < |Published(labels[..n])| {
      HandlesAreNeverReissued(lim, states[..n + 1], labels[..n], i, j);
    } else {
      RunsAreOk(lim, states, labels, n);
      assert Next(lim, states[n], labels[n], states[n + 1]);
      PublishedAreUsableOrSpent(lim, states[..n + 1], labels[..n], i);
    }
  }

  /** The place of a creation among the published handles. */
  lemma {:induction false} PublishedAt(labels: seq<Label>, i: nat)
    requires i < |labels| && labels[i].Create?
    ensures |Published(labels[..i])| < |Published(labels)|
    ensures Published(labels)[|Published(labels[..i])|] == (labels[i].slot, labels[i].generation)
    decreases |labels|
  {
    var n := |labels| - 1;
    if i < n {
      PublishedAt(labels[..n], i);
      assert labels[..n][..i] == labels[..i];
    }
  }

  /** Two creations of a run publish different handles, with increasing generations where the slot is the same. */
  lemma CreationsDiffer(lim: Limits, states: seq<seq<Endpoint>>, labels: seq<Label>, i: nat, j: nat)
    requires IsRun(lim, states, labels) && i < j < |labels| && labels[i].Create? && labels[j].Create?
    ensures labels[i].slot < |states[|labels|]| && labels[j].slot < |states[|labels|]|
    ensures labels[i].slot == labels[j].slot ==> labels[i].generation < labels[j].generation
  {
    PublishedAt(labels, i);
    PublishedAt(labels, j);
    PublishedAt(labels[..j], i);
    assert labels[..j][..i] == labels[..i];
    var x, y := |Published(labels[..i])|, |Published(labels[..j])|;
    hide Next, Published;
    HandlesAreNeverReissued(lim, states, labels, x, y);
    PublishedAreUsableOrSpent(lim, states, labels, x);
    PublishedAreUsableOrSpent(lim, states, labels, y);
  }
}
