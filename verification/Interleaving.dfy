/**
 * Endpoint calls of any number of harts, interleaved at the grain of single lock operations and single
 * accesses to the run queue. While a hart holds an endpoint lock the endpoint may pass through any torn
 * value; each call nevertheless takes effect at one instant between its lock and its unlock, and a
 * receiver that is queued at an unlocked endpoint is no hart's current task.
 */
module Interleaving {
  import opened Base
  import opened IpcModel
  import opened Machine
  import opened IpcRefinement
  import opened IpcRuns

  datatype Call =
    | CreateCall(owner: nat)
    | DestroyCall(caller: nat, raw: nat)
    | SendCall(raw: nat, message: Message)
    | TryReceiveCall(raw: nat)
    | ReceiveCall(raw: nat)

  datatype Result = Answer(a0: nat) | Got(message: Message) | Asleep

  /** Where a hart is. From `Holding` to `Leaving` it holds the lock of endpoint `slot`. */
  datatype Pc =
    | User
    | WantsTable(call: Call)
    | Scanning(call: Call, index: nat)
    | WantsSlot(call: Call, slot: nat)
    | Holding(call: Call, slot: nat, before: Endpoint)
    | Waking(call: Call, slot: nat, receiver: int)
    | Draining(call: Call, slot: nat)
    | Blocking(call: Call, slot: nat)
    | Leaving(call: Call, slot: nat, result: Result)
    | Closing(call: Call, result: Result)

  /** Where a task is; kept beside the real state to say that it is in one place. */
  datatype Place = OnHart(hart: int) | Queued | AtSlot(slot: int) | InHand(hart: int) | Away

  datatype State = State(eps: seq<Endpoint>, table: int, locks: seq<int>, pcs: seq<Pc>, current: seq<int>,
                         runQueue: seq<int>, place: seq<Place>)

  datatype Action =
    | Begin(call: Call) | TakeTable | Scan | TakeSlot | Tear(e: Endpoint) | Commit | Publish | Drain | Switch
    | Unlock | UnlockTable | Preempt | Leave | Arrive(task: int)

  predicate TableCall(c: Call) { c.CreateCall? || c.DestroyCall? }

  function HeldSlot(pc: Pc): int {
    match pc
    case Holding(_, i, _) => i
    case Waking(_, i, _) => i
    case Draining(_, i) => i
    case Blocking(_, i) => i
    case Leaving(_, i, _) => i
    case _ => NIL
  }

  predicate HoldsTable(pc: Pc) {
    pc.Scanning? || pc.Closing? || (!pc.User? && !pc.WantsTable? && TableCall(pc.call))
  }

  /** What the critical section of a call does to the endpoint it locked, and where the hart goes next. */
  function Effect(lim: Limits, slot: nat, call: Call, e: Endpoint, caller: int): (Endpoint, Pc) {
    match call
    case CreateCall(owner) => (Opened(e, owner), Leaving(call, slot, Answer(Handle(slot, FirstGeneration(e)).Raw())))
    case DestroyCall(who, raw) =>
      if !e.claimed || !e.active || e.generation != FromRaw(raw).generation then
        (e, Leaving(call, slot, Answer(Errno(22))))
      else if e.owner != who then (e, Leaving(call, slot, Answer(Errno(13))))
      else (Closed(e, lim.ceiling).(waiters := e.waiters), Draining(call, slot))
    case SendCall(raw, m) =>
      if !e.active || e.generation != FromRaw(raw).generation then (e, Leaving(call, slot, Answer(Errno(22))))
      else if e.waiters != [] then (e.(waiters := e.waiters[1..]), Waking(call, slot, e.waiters[0]))
      else if |e.queue| >= lim.depth then (e, Leaving(call, slot, Answer(Errno(11))))
      else (e.(queue := e.queue + [m]), Leaving(call, slot, Answer(0)))
    case TryReceiveCall(raw) =>
      if !e.active || e.generation != FromRaw(raw).generation then (e, Leaving(call, slot, Answer(Errno(22))))
      else if e.queue == [] then (e, Leaving(call, slot, Answer(Errno(11))))
      else (e.(queue := e.queue[1..]), Leaving(call, slot, Got(e.queue[0])))
    case ReceiveCall(raw) =>
      if !e.active || e.generation != FromRaw(raw).generation then (e, Leaving(call, slot, Answer(Errno(22))))
      else if e.queue != [] then (e.(queue := e.queue[1..]), Leaving(call, slot, Got(e.queue[0])))
      else (e.(waiters := e.waiters + [caller]), Blocking(call, slot))
  }

  // ---------------------------------------------------------------------------------------------
  // Steps

  /** The hart takes the head of the run queue, or goes idle. */
  function Dispatched(s: State, h: int): State
    requires 0 <= h < |s.current|
  {
    if s.runQueue == [] then s.(current := s.current[h := NIL])
    else
      var t := s.runQueue[0];
      s.(current := s.current[h := t], runQueue := s.runQueue[1..],
         place := if 0 <= t < |s.place| then s.place[t := OnHart(h)] else s.place)
  }

  function Moved(s: State, t: int, p: Place): State {
    if 0 <= t < |s.place| then s.(place := s.place[t := p]) else s
  }

  function At(s: State, h: int, pc: Pc): State
    requires 0 <= h < |s.pcs|
  {
    s.(pcs := s.pcs[h := pc])
  }

  ghost predicate Step(lim: Limits, s: State, h: int, a: Action, t: State) {
    && 0 <= h < |s.pcs| == |s.current|
    && var pc := s.pcs[h];
       match a
       case Begin(call) =>
         && pc.User? && s.current[h] >= 0
         && if TableCall(call) && (call.DestroyCall? ==> WellFormed(lim, |s.eps|, FromRaw(call.raw))) then
              t == At(s, h, WantsTable(call))
            else
              && !TableCall(call) && WellFormed(lim, |s.eps|, FromRaw(call.raw))
              && t == At(s, h, WantsSlot(call, FromRaw(call.raw).index))
       case TakeTable =>
         && pc.WantsTable? && s.table == NIL
         && t == At(s, h, if pc.call.CreateCall? then Scanning(pc.call, 0)
                          else if TableCall(pc.call) then WantsSlot(pc.call, FromRaw(pc.call.raw).index)
                          else User).(table := h)
       case Scan =>
         && pc.Scanning?
         && t == At(s, h, if pc.index >= |s.eps| then Closing(pc.call, Answer(Errno(28)))
                          else if s.eps[pc.index].claimed || s.eps[pc.index].retired then
                            Scanning(pc.call, pc.index + 1)
                          else WantsSlot(pc.call, pc.index))
       case TakeSlot =>
         && pc.WantsSlot? && pc.slot < |s.eps| == |s.locks| && s.locks[pc.slot] == NIL
         && t == At(s, h, Holding(pc.call, pc.slot, s.eps[pc.slot])).(locks := s.locks[pc.slot := h])
       case Tear(e) =>
         && pc.Holding? && pc.slot < |s.eps|
         && (TableCall(pc.call) || (e.claimed == s.eps[pc.slot].claimed && e.retired == s.eps[pc.slot].retired))
         && t == s.(eps := s.eps[pc.slot := e])
       case Commit =>
         && pc.Holding? && pc.slot < |s.eps|
         && var r := Effect(lim, pc.slot, pc.call, pc.before, s.current[h]);
            t == (match r.1
                  case Waking(_, _, u) => Moved(At(s, h, r.1).(eps := s.eps[pc.slot := r.0]), u, InHand(h))
                  case Blocking(_, _) =>
                    Moved(At(s, h, r.1).(eps := s.eps[pc.slot := r.0]), s.current[h], AtSlot(pc.slot))
                  case _ => At(s, h, r.1).(eps := s.eps[pc.slot := r.0]))
       case Publish =>
         && pc.Waking?
         && var next := if pc.call.DestroyCall? then Draining(pc.call, pc.slot)
                        else Leaving(pc.call, pc.slot, Answer(0));
            t == Moved(At(s, h, next).(runQueue := s.runQueue + [pc.receiver]), pc.receiver, Queued)
       case Drain =>
         && pc.Draining? && pc.slot < |s.eps|
         && var q := s.eps[pc.slot].waiters;
            t == if q == [] then At(s, h, Leaving(pc.call, pc.slot, Answer(0)))
                 else Moved(At(s, h, Waking(pc.call, pc.slot, q[0]))
                              .(eps := s.eps[pc.slot := s.eps[pc.slot].(waiters := q[1..])]), q[0], InHand(h))
       case Switch => pc.Blocking? && t == Dispatched(At(s, h, Leaving(pc.call, pc.slot, Asleep)), h)
       case Unlock =>
         && pc.Leaving? && pc.slot < |s.locks|
         && var next := if TableCall(pc.call) then Closing(pc.call, pc.result) else User;
            t == At(s, h, next).(locks := s.locks[pc.slot := NIL])
       case UnlockTable => pc.Closing? && t == At(s, h, User).(table := NIL)
       case Preempt =>
         && pc.User?
         && t == if s.current[h] < 0 then Dispatched(s, h)
                 else Dispatched(Moved(s.(runQueue := s.runQueue + [s.current[h]]), s.current[h], Queued), h)
       case Leave => pc.User? && s.current[h] >= 0 && t == Dispatched(Moved(s, s.current[h], Away), h)
       case Arrive(u) =>
         && 0 <= u < |s.place| && s.place[u] == Away
         && t == Moved(s.(runQueue := s.runQueue + [u]), u, Queued)
  }

  // ---------------------------------------------------------------------------------------------
  // The table as whole calls see it

  predicate Shape(s: State) {
    && |s.locks| == |s.eps| && |s.current| == |s.pcs|
    && forall i :: 0 <= i < |s.locks| ==> -1 <= s.locks[i] < |s.pcs|
  }

  /** A locked endpoint still has its old value until the call in progress commits; a destroyed one has no waiters. */
  function Seen(s: State, i: int): Endpoint
    requires Shape(s) && 0 <= i < |s.eps|
  {
    if s.locks[i] == NIL then s.eps[i] else
    match s.pcs[s.locks[i]]
    case Holding(_, _, before) => before
    case Draining(_, _) => s.eps[i].(waiters := [])
    case Waking(call, _, _) => if call.DestroyCall? then s.eps[i].(waiters := []) else s.eps[i]
    case _ => s.eps[i]
  }

  function SeenFrom(s: State, i: int): (eps: seq<Endpoint>)
    requires Shape(s) && 0 <= i <= |s.eps|
    ensures |eps| == |s.eps| - i && forall j :: 0 <= j < |eps| ==> eps[j] == Seen(s, i + j)
    decreases |s.eps| - i
  {
    if i == |s.eps| then [] else [Seen(s, i)] + SeenFrom(s, i + 1)
  }

  function Abs(s: State): (eps: seq<Endpoint>)
    requires Shape(s)
    ensures |eps| == |s.eps|
    ensures forall i {:trigger eps[i]} {:trigger s.eps[i]} :: 0 <= i < |eps| ==> eps[i] == Seen(s, i)
  {
    SeenFrom(s, 0)
  }

  /** The receivers queued at an endpoint, whether or not they are still visible to whole calls. */
  function Waiting(s: State, i: int): seq<int>
    requires Shape(s) && 0 <= i < |s.eps|
  {
    if s.locks[i] == NIL then s.eps[i].waiters else
    match s.pcs[s.locks[i]]
    case Holding(_, _, before) => before.waiters
    case _ => s.eps[i].waiters
  }

  // ---------------------------------------------------------------------------------------------
  // The invariant

  ghost predicate PcOk(lim: Limits, s: State, h: int)
    requires Shape(s) && 0 <= h < |s.pcs|
  {
    var pc := s.pcs[h];
    && (HeldSlot(pc) != NIL ==> 0 <= HeldSlot(pc) < |s.eps| && s.locks[HeldSlot(pc)] == h)
    && (HoldsTable(pc) <==> s.table == h)
    && (!pc.User? && !pc.Leaving? && !pc.Closing? ==> s.current[h] >= 0)
    && (!pc.User? && !pc.Scanning? && !pc.Closing? && !pc.WantsTable? ==>
          pc.slot < |s.eps| && (!pc.call.CreateCall? ==> NamesSlot(lim, |s.eps|, pc.call.raw, pc.slot)))
    && match pc
       case User => true
       case WantsTable(call) => TableCall(call) && (call.DestroyCall? ==> WellFormed(lim, |s.eps|, FromRaw(call.raw)))
       case Scanning(call, index) => call.CreateCall? && index <= |s.eps| && Taken(s, index)
       case WantsSlot(call, i) => call.CreateCall? ==> FreshSlot(s, i)
       case Holding(call, i, before) =>
         && (call.CreateCall? ==> FreshSlot(s, i))
         && (!TableCall(call) ==> s.eps[i].claimed == before.claimed && s.eps[i].retired == before.retired)
       case Waking(call, _, _) => call.SendCall? || call.DestroyCall?
       case Draining(call, _) => call.DestroyCall?
       case Blocking(call, _) => call.ReceiveCall?
       case Leaving(_, _, _) => true
       case Closing(_, _) => true
  }

  predicate NamesSlot(lim: Limits, n: nat, raw: nat, slot: nat) {
    WellFormed(lim, n, FromRaw(raw)) && FromRaw(raw).index == slot
  }

  ghost predicate Taken(s: State, n: nat)
    requires Shape(s) && n <= |s.eps|
  {
    forall j {:trigger Seen(s, j)} :: 0 <= j < n ==> Seen(s, j).claimed || Seen(s, j).retired
  }

  ghost predicate FreshSlot(s: State, i: nat)
    requires Shape(s) && i < |s.eps|
  {
    Taken(s, i) && !Seen(s, i).claimed && !Seen(s, i).retired
  }

  ghost predicate LocksOk(lim: Limits, s: State) {
    && Shape(s) && -1 <= s.table < |s.pcs| && |s.eps| <= TWO32
    && (forall h {:trigger PcOk(lim, s, h)} {:trigger s.pcs[h]} :: 0 <= h < |s.pcs| ==> PcOk(lim, s, h))
    && (forall i {:trigger s.locks[i]} :: 0 <= i < |s.locks| && s.locks[i] != NIL ==> HeldSlot(s.pcs[s.locks[i]]) == i)
  }

  /** The place a hart's current task and the receiver in its hand are recorded at. */
  ghost predicate HandOk(s: State, h: int)
    requires Shape(s) && 0 <= h < |s.pcs|
  {
    && (s.current[h] >= 0 ==>
          s.current[h] < |s.place| &&
          s.place[s.current[h]] == if s.pcs[h].Blocking? then AtSlot(s.pcs[h].slot) else OnHart(h))
    && (s.pcs[h].Waking? ==> 0 <= s.pcs[h].receiver < |s.place| && s.place[s.pcs[h].receiver] == InHand(h))
  }

  ghost predicate WaitingOk(s: State, i: int)
    requires Shape(s) && 0 <= i < |s.eps|
  {
    Distinct(Waiting(s, i)) &&
    forall k :: 0 <= k < |Waiting(s, i)| ==> 0 <= Waiting(s, i)[k] < |s.place| && s.place[Waiting(s, i)[k]] == AtSlot(i)
  }

  ghost predicate PlacesOk(s: State)
    requires Shape(s)
  {
    && Distinct(s.runQueue)
    && (forall k :: 0 <= k < |s.runQueue| ==> 0 <= s.runQueue[k] < |s.place| && s.place[s.runQueue[k]] == Queued)
    && (forall h {:trigger HandOk(s, h)} {:trigger s.pcs[h]} {:trigger s.current[h]} :: 0 <= h < |s.pcs| ==>
          HandOk(s, h))
    && (forall i {:trigger WaitingOk(s, i)} {:trigger s.eps[i]} :: 0 <= i < |s.eps| ==> WaitingOk(s, i))
  }

  ghost predicate Inv(lim: Limits, s: State) {
    LocksOk(lim, s) && PlacesOk(s) && StateOk(lim, Abs(s)) && lim.ceiling < TWO32 / 2
  }

  /** Nobody is in the kernel, every endpoint is unused, every task is away. */
  ghost predicate Initial(lim: Limits, s: State) {
    && |s.current| == |s.pcs| && |s.locks| == |s.eps| <= TWO32 && s.table == NIL && s.runQueue == []
    && (forall h :: 0 <= h < |s.pcs| ==> s.pcs[h] == User && s.current[h] == NIL)
    && (forall i :: 0 <= i < |s.eps| ==> s.eps[i] == UNUSED && s.locks[i] == NIL)
    && (forall t :: 0 <= t < |s.place| ==> s.place[t] == Away)
    && 1 <= lim.ceiling < TWO32 / 2
  }

  lemma InitialInv(lim: Limits, s: State)
    requires Initial(lim, s)
    ensures Inv(lim, s) && IpcModel.Initial(Abs(s))
  {
    assert forall i :: 0 <= i < |s.eps| ==> Abs(s)[i] == UNUSED;
    assert forall h :: 0 <= h < |s.pcs| ==> PcOk(lim, s, h) && HandOk(s, h);
    assert forall i :: 0 <= i < |s.eps| ==> WaitingOk(s, i);
  }

  // ---------------------------------------------------------------------------------------------
  // What a step of one hart leaves alone

  /** The step of hart `h` leaves the other harts, their locks and the endpoints they hold alone. */
  ghost predicate Local(s: State, h: int, t: State) {
    && Shape(s) && Shape(t) && 0 <= h < |s.pcs| == |t.pcs| && |t.eps| == |s.eps|
    && (forall g {:trigger t.pcs[g]} {:trigger t.current[g]} :: 0 <= g < |s.pcs| && g != h ==>
          t.pcs[g] == s.pcs[g] && t.current[g] == s.current[g])
    && (forall i {:trigger t.locks[i]} {:trigger t.eps[i]} :: 0 <= i < |s.eps| ==>
          && (s.locks[i] != h && s.locks[i] != NIL ==> t.locks[i] == s.locks[i] && t.eps[i] == s.eps[i])
          && (t.locks[i] != h && t.locks[i] != NIL ==> s.locks[i] == t.locks[i]))
    && (t.table == s.table || (s.table in {NIL, h} && t.table in {NIL, h}))
  }

  /** The allocation flags that whole calls see are unchanged. */
  ghost predicate SameFlags(s: State, t: State)
    requires Shape(s) && Shape(t) && |t.eps| == |s.eps|
  {
    forall i {:trigger Seen(t, i)} {:trigger Seen(s, i)} :: 0 <= i < |s.eps| ==>
      Seen(t, i).claimed == Seen(s, i).claimed && Seen(t, i).retired == Seen(s, i).retired
  }

  lemma OthersOk(lim: Limits, s: State, h: int, t: State)
    requires LocksOk(lim, s) && Local(s, h, t) && (s.table == h || SameFlags(s, t)) && t.table < |t.pcs|
    requires PcOk(lim, t, h) && (forall i :: 0 <= i < |t.locks| && t.locks[i] == h ==> HeldSlot(t.pcs[h]) == i)
    ensures LocksOk(lim, t)
  {
    forall g | 0 <= g < |t.pcs| && g != h ensures PcOk(lim, t, g) {
      assert PcOk(lim, s, g);
      assert HoldsTable(s.pcs[g]) ==> s.table == g && SameFlags(s, t);
    }
  }

  /** A place that a step of hart `h` may move a task out of. */
  predicate Reaches(s: State, h: int, p: Place) {
    match p
    case OnHart(g) => g == h
    case InHand(g) => g == h
    case AtSlot(i) => 0 <= i < |s.locks| && (s.locks[i] == h || s.locks[i] == NIL)
    case _ => true
  }

  ghost predicate QueueOk(s: State) {
    && Distinct(s.runQueue)
    && forall k :: 0 <= k < |s.runQueue| ==> 0 <= s.runQueue[k] < |s.place| && s.place[s.runQueue[k]] == Queued
  }

  lemma PlacesStay(lim: Limits, s: State, h: int, t: State)
    requires LocksOk(lim, s) && PlacesOk(s) && Local(s, h, t) && |t.place| == |s.place|
    requires HandOk(t, h) && QueueOk(t)
    requires forall i :: 0 <= i < |s.locks| && (s.locks[i] == h || s.locks[i] == NIL) ==> WaitingOk(t, i)
    requires forall u {:trigger t.place[u]} :: 0 <= u < |s.place| && t.place[u] != s.place[u] ==>
               Reaches(s, h, s.place[u])
    ensures PlacesOk(t)
  {
    forall g | 0 <= g < |t.pcs| && g != h ensures HandOk(t, g) {
      assert HandOk(s, g) && PcOk(lim, s, g);
    }
    forall i | 0 <= i < |t.eps| && s.locks[i] != h && s.locks[i] != NIL ensures WaitingOk(t, i) {
      assert WaitingOk(s, i) && Waiting(t, i) == Waiting(s, i);
    }
  }

  // ---------------------------------------------------------------------------------------------
  // Steps that no whole call can see

  /** A step that changes nothing whole calls see. */
  ghost predicate Invisible(lim: Limits, s: State, t: State) {
    Shape(s) && Inv(lim, t) && Abs(t) == Abs(s)
  }

  lemma SameAbs(s: State, t: State)
    requires Shape(s) && Shape(t) && |t.eps| == |s.eps|
    requires forall i {:trigger Seen(t, i)} :: 0 <= i < |s.eps| ==> Seen(t, i) == Seen(s, i)
    ensures Abs(t) == Abs(s)
  {
    assert forall i :: 0 <= i < |s.eps| ==> Abs(t)[i] == Seen(t, i) && Abs(s)[i] == Seen(s, i);
  }

  /** What a step of hart `h` may use about its own state. */
  lemma HartFacts(lim: Limits, s: State, h: int)
    requires Inv(lim, s) && 0 <= h < |s.pcs|
    ensures Shape(s) && |s.eps| <= TWO32 && PcOk(lim, s, h) && HandOk(s, h) && QueueOk(s)
    ensures forall j {:trigger s.locks[j]} :: 0 <= j < |s.locks| && j != HeldSlot(s.pcs[h]) ==> s.locks[j] != h
  {
    assert PcOk(lim, s, h) && HandOk(s, h);
  }

  lemma SlotFacts(lim: Limits, s: State, i: int)
    requires Inv(lim, s) && 0 <= i < |s.eps|
    ensures Shape(s) && WaitingOk(s, i) && EndpointOk(lim, Seen(s, i))
  {
    assert WaitingOk(s, i);
    assert Abs(s)[i] == Seen(s, i);
  }

  /** A step outside the endpoint locks that moves only the hart itself and perhaps the table lock. */
  lemma PcStep(lim: Limits, s: State, h: int, t: State)
    requires Inv(lim, s) && 0 <= h < |s.pcs| && |t.pcs| == |s.pcs|
    requires t == s.(pcs := s.pcs[h := t.pcs[h]], table := t.table)
    requires HeldSlot(s.pcs[h]) == NIL && HeldSlot(t.pcs[h]) == NIL && PcOk(lim, t, h)
    requires t.table == s.table || (s.table in {NIL, h} && t.table in {NIL, h})
    ensures Invisible(lim, s, t)
  {
    hide StateOk, Abs;
    assert HandOk(s, h);
    forall i | 0 <= i < |s.eps| ensures Seen(t, i) == Seen(s, i) && Waiting(t, i) == Waiting(s, i) && WaitingOk(s, i) {
      assert s.locks[i] != h;
    }
    SameAbs(s, t);
    OthersOk(lim, s, h, t);
    PlacesStay(lim, s, h, t);
  }

  lemma BeginOk(lim: Limits, s: State, h: int, call: Call, t: State)
    requires Inv(lim, s) && Step(lim, s, h, Begin(call), t)
    ensures Invisible(lim, s, t)
  {
    hide Inv;
    HartFacts(lim, s, h);
    PcStep(lim, s, h, t);
  }

  lemma TakeTableOk(lim: Limits, s: State, h: int, t: State)
    requires Inv(lim, s) && Step(lim, s, h, TakeTable, t)
    ensures Invisible(lim, s, t)
  {
    hide Inv;
    HartFacts(lim, s, h);
    PcStep(lim, s, h, t);
  }

  lemma UnlockTableOk(lim: Limits, s: State, h: int, t: State)
    requires Inv(lim, s) && Step(lim, s, h, UnlockTable, t)
    ensures Invisible(lim, s, t)
  {
    hide Inv;
    HartFacts(lim, s, h);
    PcStep(lim, s, h, t);
  }

  /** The scan reads flags that only the holder of the table lock changes. */
  lemma ScanOk(lim: Limits, s: State, h: int, t: State)
    requires Inv(lim, s) && Step(lim, s, h, Scan, t)
    ensures Invisible(lim, s, t)
  {
    hide Inv;
    HartFacts(lim, s, h);
    var index := s.pcs[h].index;
    assert forall j :: 0 <= j < |s.eps| ==> Seen(t, j) == Seen(s, j);
    if index < |s.eps| {
      FlagsAreCurrent(lim, s, h, index);
    }
    PcStep(lim, s, h, t);
  }

  /** Under the table lock, the flags of an endpoint are those that whole calls see, even while it is being written. */
  lemma FlagsAreCurrent(lim: Limits, s: State, h: int, i: int)
    requires Inv(lim, s) && 0 <= h < |s.pcs| && s.table == h && 0 <= i < |s.eps| && s.locks[i] != h
    ensures s.eps[i].claimed == Seen(s, i).claimed && s.eps[i].retired == Seen(s, i).retired
  {
    if s.locks[i] != NIL {
      assert PcOk(lim, s, s.locks[i]);
    }
  }

  // ---------------------------------------------------------------------------------------------
  // Steps on one endpoint

  /** Hart `h` works on endpoint `i`: it is the only one that holds or takes its lock. */
  ghost predicate WorksOn(s: State, h: int, t: State, i: int) {
    && Shape(s) && Shape(t) && 0 <= h < |s.pcs| == |t.pcs| && 0 <= i < |s.eps| == |t.eps| && |t.place| == |s.place|
    && s.locks[i] in {NIL, h} && t.locks[i] in {NIL, h} && t.table == s.table
    && (forall g {:trigger t.pcs[g]} {:trigger t.current[g]} :: 0 <= g < |s.pcs| && g != h ==>
          t.pcs[g] == s.pcs[g] && t.current[g] == s.current[g])
    && (forall j {:trigger t.locks[j]} {:trigger t.eps[j]} {:trigger s.locks[j]} :: 0 <= j < |s.eps| && j != i ==>
          t.locks[j] == s.locks[j] && t.eps[j] == s.eps[j] && s.locks[j] != h)
    && (t.locks[i] == h ==> HeldSlot(t.pcs[h]) == i)
  }

  lemma ElsewhereSame(s: State, h: int, t: State, i: int)
    requires WorksOn(s, h, t, i)
    ensures Local(s, h, t)
    ensures forall j {:trigger Seen(t, j)} {:trigger Waiting(t, j)} {:trigger Seen(s, j)} ::
              0 <= j < |s.eps| && j != i ==> Seen(t, j) == Seen(s, j) && Waiting(t, j) == Waiting(s, j)
  {
  }

  /** The pieces of the invariant that a step on endpoint `i` has to establish itself. */
  lemma SlotStep(lim: Limits, s: State, h: int, t: State, i: int)
    requires Inv(lim, s) && WorksOn(s, h, t, i) && PcOk(lim, t, h) && HandOk(t, h) && QueueOk(t) && WaitingOk(t, i)
    requires s.table == h || (Seen(t, i).claimed == Seen(s, i).claimed && Seen(t, i).retired == Seen(s, i).retired)
    requires forall u {:trigger t.place[u]} :: 0 <= u < |s.place| && t.place[u] != s.place[u] ==>
               Reaches(s, h, s.place[u]) && (s.place[u].AtSlot? ==> s.place[u].slot == i)
    ensures LocksOk(lim, t) && PlacesOk(t)
  {
    hide StateOk, Abs;
    ElsewhereSame(s, h, t, i);
    OthersOk(lim, s, h, t);
    forall j | 0 <= j < |s.locks| && j != i ensures WaitingOk(t, j) {
      assert WaitingOk(s, j);
    }
    PlacesStay(lim, s, h, t);
  }

  /** A step on endpoint `i` that whole calls do not see. */
  lemma QuietSlotStep(lim: Limits, s: State, h: int, t: State, i: int)
    requires Inv(lim, s) && WorksOn(s, h, t, i) && PcOk(lim, t, h) && HandOk(t, h) && QueueOk(t) && WaitingOk(t, i)
    requires Seen(t, i) == Seen(s, i)
    requires forall u {:trigger t.place[u]} :: 0 <= u < |s.place| && t.place[u] != s.place[u] ==>
               Reaches(s, h, s.place[u]) && (s.place[u].AtSlot? ==> s.place[u].slot == i)
    ensures Invisible(lim, s, t)
  {
    SlotStep(lim, s, h, t, i);
    ElsewhereSame(s, h, t, i);
    SameAbs(s, t);
  }

  lemma TakeSlotOk(lim: Limits, s: State, h: int, t: State)
    requires Inv(lim, s) && Step(lim, s, h, TakeSlot, t)
    ensures Invisible(lim, s, t)
  {
    hide Inv;
    HartFacts(lim, s, h);
    var i := s.pcs[h].slot;
    SlotFacts(lim, s, i);
    ElsewhereSame(s, h, t, i);
    QuietSlotStep(lim, s, h, t, i);
  }

  /** However the holder of the lock tears the endpoint, whole calls see nothing of it. */
  lemma TearOk(lim: Limits, s: State, h: int, e: Endpoint, t: State)
    requires Inv(lim, s) && Step(lim, s, h, Tear(e), t)
    ensures Invisible(lim, s, t)
  {
    hide Inv;
    HartFacts(lim, s, h);
    var i := s.pcs[h].slot;
    SlotFacts(lim, s, i);
    ElsewhereSame(s, h, t, i);
    QuietSlotStep(lim, s, h, t, i);
  }

  lemma UnlockOk(lim: Limits, s: State, h: int, t: State)
    requires Inv(lim, s) && Step(lim, s, h, Unlock, t)
    ensures Invisible(lim, s, t)
  {
    hide Inv;
    HartFacts(lim, s, h);
    var i := s.pcs[h].slot;
    SlotFacts(lim, s, i);
    ElsewhereSame(s, h, t, i);
    QuietSlotStep(lim, s, h, t, i);
  }

  /** Publishing a popped receiver: it leaves the hand of the hart for the run queue. */
  lemma PublishOk(lim: Limits, s: State, h: int, t: State)
    requires Inv(lim, s) && Step(lim, s, h, Publish, t)
    ensures Invisible(lim, s, t)
  {
    hide Inv;
    HartFacts(lim, s, h);
    var i := s.pcs[h].slot;
    SlotFacts(lim, s, i);
    QuietSlotStep(lim, s, h, t, i);
  }

  /** Draining a destroyed endpoint: its next waiter comes into the hand of the hart. */
  lemma DrainOk(lim: Limits, s: State, h: int, t: State)
    requires Inv(lim, s) && Step(lim, s, h, Drain, t)
    ensures Invisible(lim, s, t)
  {
    hide Inv;
    HartFacts(lim, s, h);
    var i := s.pcs[h].slot;
    SlotFacts(lim, s, i);
    var q := s.eps[i].waiters;
    assert q != [] ==> q == [q[0]] + q[1..];
    QuietSlotStep(lim, s, h, t, i);
  }

  /** The blocked receiver's hart takes another task, still under the endpoint lock. */
  lemma SwitchOk(lim: Limits, s: State, h: int, t: State)
    requires Inv(lim, s) && Step(lim, s, h, Switch, t)
    ensures Invisible(lim, s, t)
  {
    hide Inv;
    HartFacts(lim, s, h);
    var i := s.pcs[h].slot;
    SlotFacts(lim, s, i);
    assert s.runQueue != [] ==> s.runQueue == [s.runQueue[0]] + s.runQueue[1..];
    QuietSlotStep(lim, s, h, t, i);
  }

  /** A scheduling step of a hart that is not in an endpoint call. */
  lemma TaskStep(lim: Limits, s: State, h: int, t: State)
    requires Inv(lim, s) && 0 <= h < |s.pcs| && |t.current| == |s.current| && |t.place| == |s.place|
    requires t == s.(current := s.current[h := t.current[h]], runQueue := t.runQueue, place := t.place)
    requires HandOk(t, h) && QueueOk(t) && PcOk(lim, t, h)
    requires forall u {:trigger t.place[u]} :: 0 <= u < |s.place| && t.place[u] != s.place[u] ==>
               Reaches(s, h, s.place[u]) && !s.place[u].AtSlot?
    ensures Invisible(lim, s, t)
  {
    hide StateOk, Abs;
    forall i | 0 <= i < |s.eps| ensures Seen(t, i) == Seen(s, i) && Waiting(t, i) == Waiting(s, i) && WaitingOk(t, i) {
      assert WaitingOk(s, i);
    }
    SameAbs(s, t);
    OthersOk(lim, s, h, t);
    PlacesStay(lim, s, h, t);
  }

  lemma PreemptOk(lim: Limits, s: State, h: int, t: State)
    requires Inv(lim, s) && Step(lim, s, h, Preempt, t)
    ensures Invisible(lim, s, t)
  {
    hide Inv;
    HartFacts(lim, s, h);
    var q := if s.current[h] < 0 then s.runQueue else s.runQueue + [s.current[h]];
    assert q != [] ==> q == [q[0]] + q[1..];
    TaskStep(lim, s, h, t);
  }

  lemma LeaveOk(lim: Limits, s: State, h: int, t: State)
    requires Inv(lim, s) && Step(lim, s, h, Leave, t)
    ensures Invisible(lim, s, t)
  {
    hide Inv;
    HartFacts(lim, s, h);
    assert s.runQueue != [] ==> s.runQueue == [s.runQueue[0]] + s.runQueue[1..];
    TaskStep(lim, s, h, t);
  }

  lemma ArriveOk(lim: Limits, s: State, h: int, u: int, t: State)
    requires Inv(lim, s) && Step(lim, s, h, Arrive(u), t)
    ensures Invisible(lim, s, t)
  {
    hide Inv;
    HartFacts(lim, s, h);
    assert s.current[h := s.current[h]] == s.current;
    assert forall j :: 0 <= j < |s.eps| ==> Seen(t, j) == Seen(s, j);
    TaskStep(lim, s, h, t);
  }

  // ---------------------------------------------------------------------------------------------
  // The commit: one whole call, at one instant

  /** The abstract transition of a whole call. */
  function LabelFor(lim: Limits, eps: seq<Endpoint>, call: Call, caller: int): seq<Label> {
    match call
    case CreateCall(owner) => CreateLabel(eps, owner)
    case DestroyCall(who, raw) => DestroyLabel(lim, eps, who, raw)
    case SendCall(raw, m) => SendLabel(lim, eps, raw, m)
    case TryReceiveCall(raw) => ReceiveLabel(lim, eps, caller, raw, false)
    case ReceiveCall(raw) => ReceiveLabel(lim, eps, caller, raw, true)
  }

  /** The endpoint after the call, as whole calls see it. */
  function Visible(r: (Endpoint, Pc)): Endpoint {
    if r.1.Draining? then r.0.(waiters := []) else r.0
  }

  /** A handle that names the slot is found exactly when the slot holds its epoch. */
  lemma NamedLookup(lim: Limits, eps: seq<Endpoint>, raw: nat, slot: nat)
    requires slot < |eps| && NamesSlot(lim, |eps|, raw, slot)
    ensures var found := eps[slot].active && eps[slot].generation == FromRaw(raw).generation;
            Lookup(lim, eps, raw) == if found then slot else NIL
  {
  }

  lemma DestroyIsTransition(lim: Limits, eps: seq<Endpoint>, slot: nat, who: nat, raw: nat, caller: int)
    requires StateOk(lim, eps) && slot < |eps| && NamesSlot(lim, |eps|, raw, slot)
    ensures Simulates(lim, eps, DestroyLabel(lim, eps, who, raw),
                      eps[slot := Visible(Effect(lim, slot, DestroyCall(who, raw), eps[slot], caller))])
  {
    NamedLookup(lim, eps, raw, slot);
    hide FromRaw, Lookup, StateOk;
    assert eps[slot := eps[slot]] == eps;
  }

  lemma SendIsTransition(lim: Limits, eps: seq<Endpoint>, slot: nat, raw: nat, m: Message, caller: int)
    requires StateOk(lim, eps) && slot < |eps| && NamesSlot(lim, |eps|, raw, slot)
    ensures Simulates(lim, eps, SendLabel(lim, eps, raw, m),
                      eps[slot := Visible(Effect(lim, slot, SendCall(raw, m), eps[slot], caller))])
  {
    NamedLookup(lim, eps, raw, slot);
    hide FromRaw, Lookup;
    assert eps[slot := eps[slot]] == eps;
  }

  lemma ReceiveIsTransition(lim: Limits, eps: seq<Endpoint>, slot: nat, raw: nat, caller: int, blocking: bool)
    requires StateOk(lim, eps) && slot < |eps| && NamesSlot(lim, |eps|, raw, slot) && !WaitsSomewhere(eps, caller)
    ensures var call := if blocking then ReceiveCall(raw) else TryReceiveCall(raw);
            Simulates(lim, eps, ReceiveLabel(lim, eps, caller, raw, blocking),
                      eps[slot := Visible(Effect(lim, slot, call, eps[slot], caller))])
  {
    NamedLookup(lim, eps, raw, slot);
    hide FromRaw, Lookup;
    assert eps[slot := eps[slot]] == eps;
  }

  lemma CreateIsTransition(lim: Limits, eps: seq<Endpoint>, slot: nat, owner: nat, caller: int)
    requires StateOk(lim, eps) && slot < |eps| && slot == FreeSlot(eps)
    ensures Simulates(lim, eps, CreateLabel(eps, owner),
                      eps[slot := Visible(Effect(lim, slot, CreateCall(owner), eps[slot], caller))])
  {
  }

  /** What the critical section does to one endpoint is the transition of the whole call on the whole table. */
  lemma EffectIsTransition(lim: Limits, eps: seq<Endpoint>, slot: nat, call: Call, caller: int)
    requires StateOk(lim, eps) && slot < |eps| && !WaitsSomewhere(eps, caller)
    requires if call.CreateCall? then slot == FreeSlot(eps) else NamesSlot(lim, |eps|, call.raw, slot)
    ensures Simulates(lim, eps, LabelFor(lim, eps, call, caller),
                      eps[slot := Visible(Effect(lim, slot, call, eps[slot], caller))])
  {
    hide StateOk, Effect, Simulates, CreateLabel, DestroyLabel, SendLabel, ReceiveLabel;
    match call {
      case CreateCall(owner) => CreateIsTransition(lim, eps, slot, owner, caller);
      case DestroyCall(who, raw) => DestroyIsTransition(lim, eps, slot, who, raw, caller);
      case SendCall(raw, m) => SendIsTransition(lim, eps, slot, raw, m, caller);
      case TryReceiveCall(raw) => ReceiveIsTransition(lim, eps, slot, raw, caller, false);
      case ReceiveCall(raw) => ReceiveIsTransition(lim, eps, slot, raw, caller, true);
    }
  }

  lemma FreshIsFree(s: State, i: nat)
    requires Shape(s) && i < |s.eps| && FreshSlot(s, i)
    ensures FreeSlot(Abs(s)) == i
  {
    assert forall j :: 0 <= j < |s.eps| ==> Abs(s)[j] == Seen(s, j);
  }

  lemma CallerWaitsNowhere(lim: Limits, s: State, h: int)
    requires Inv(lim, s) && 0 <= h < |s.pcs| && s.pcs[h].Holding?
    ensures !WaitsSomewhere(Abs(s), s.current[h])
  {
    HartFacts(lim, s, h);
    forall i | 0 <= i < |s.eps| ensures s.current[h] !in Abs(s)[i].waiters {
      SlotFacts(lim, s, i);
      assert Abs(s)[i] == Seen(s, i);
      if s.current[h] in Abs(s)[i].waiters {
        var k :| 0 <= k < |Waiting(s, i)| && Waiting(s, i)[k] == s.current[h];
      }
    }
  }

  lemma EffectShape(lim: Limits, slot: nat, call: Call, e: Endpoint, caller: int)
    ensures var r := Effect(lim, slot, call, e, caller);
            && (!TableCall(call) ==> r.0.claimed == e.claimed && r.0.retired == e.retired)
            && match r.1
               case Leaving(c, i, _) =>
                 c == call && i == slot && (r.0.waiters == e.waiters || (call.CreateCall? && r.0.waiters == []))
               case Draining(c, i) => c == call && i == slot && call.DestroyCall? && r.0.waiters == e.waiters
               case Waking(c, i, u) =>
                 && c == call && i == slot && call.SendCall? && e.waiters != []
                 && u == e.waiters[0] && r.0.waiters == e.waiters[1..]
               case Blocking(c, i) => c == call && i == slot && call.ReceiveCall? && r.0.waiters == e.waiters + [caller]
               case _ => false
  {
  }

  /** What the commit has to show about its own hart and endpoint. */
  ghost predicate Committed(lim: Limits, s: State, h: int, t: State, i: int, r: (Endpoint, Pc)) {
    && WorksOn(s, h, t, i) && PcOk(lim, t, h) && HandOk(t, h) && QueueOk(t) && WaitingOk(t, i)
    && Seen(t, i) == Visible(r)
    && forall u {:trigger t.place[u]} :: 0 <= u < |s.place| && t.place[u] != s.place[u] ==>
         Reaches(s, h, s.place[u]) && (s.place[u].AtSlot? ==> s.place[u].slot == i)
  }

  lemma CommitLeaves(lim: Limits, s: State, h: int, t: State, r: (Endpoint, Pc))
    requires Inv(lim, s) && 0 <= h < |s.pcs| && s.pcs[h].Holding? && s.pcs[h].slot < |s.eps|
    requires (r.1.Leaving? || r.1.Draining?)
    requires r == Effect(lim, s.pcs[h].slot, s.pcs[h].call, s.pcs[h].before, s.current[h])
    requires t == At(s, h, r.1).(eps := s.eps[s.pcs[h].slot := r.0])
    ensures Committed(lim, s, h, t, s.pcs[h].slot, r)
  {
    hide Inv, Effect;
    HartFacts(lim, s, h);
    var i := s.pcs[h].slot;
    SlotFacts(lim, s, i);
    EffectShape(lim, i, s.pcs[h].call, s.pcs[h].before, s.current[h]);
  }

  lemma CommitWakes(lim: Limits, s: State, h: int, t: State, r: (Endpoint, Pc))
    requires Inv(lim, s) && 0 <= h < |s.pcs| && s.pcs[h].Holding? && s.pcs[h].slot < |s.eps| && r.1.Waking?
    requires r == Effect(lim, s.pcs[h].slot, s.pcs[h].call, s.pcs[h].before, s.current[h])
    requires t == Moved(At(s, h, r.1).(eps := s.eps[s.pcs[h].slot := r.0]), r.1.receiver, InHand(h))
    ensures Committed(lim, s, h, t, s.pcs[h].slot, r)
  {
    hide Inv, Effect;
    HartFacts(lim, s, h);
    var i := s.pcs[h].slot;
    SlotFacts(lim, s, i);
    EffectShape(lim, i, s.pcs[h].call, s.pcs[h].before, s.current[h]);
    var q := s.pcs[h].before.waiters;
    assert q == [q[0]] + q[1..] && Waiting(s, i) == q;
  }

  lemma CommitBlocks(lim: Limits, s: State, h: int, t: State, r: (Endpoint, Pc))
    requires Inv(lim, s) && 0 <= h < |s.pcs| && s.pcs[h].Holding? && s.pcs[h].slot < |s.eps| && r.1.Blocking?
    requires r == Effect(lim, s.pcs[h].slot, s.pcs[h].call, s.pcs[h].before, s.current[h])
    requires t == Moved(At(s, h, r.1).(eps := s.eps[s.pcs[h].slot := r.0]), s.current[h], AtSlot(s.pcs[h].slot))
    ensures Committed(lim, s, h, t, s.pcs[h].slot, r)
  {
    hide Inv, Effect;
    HartFacts(lim, s, h);
    var i := s.pcs[h].slot;
    SlotFacts(lim, s, i);
    EffectShape(lim, i, s.pcs[h].call, s.pcs[h].before, s.current[h]);
  }

  lemma CommitWorks(lim: Limits, s: State, h: int, t: State)
    requires Inv(lim, s) && Step(lim, s, h, Commit, t)
    ensures var pc := s.pcs[h];
            && Shape(s) && WorksOn(s, h, t, pc.slot) && LocksOk(lim, t) && PlacesOk(t) && Seen(s, pc.slot) == pc.before
            && Seen(t, pc.slot) == Visible(Effect(lim, pc.slot, pc.call, pc.before, s.current[h]))
  {
    hide Inv, Effect, LocksOk, PlacesOk, Committed;
    HartFacts(lim, s, h);
    var pc := s.pcs[h];
    var r := Effect(lim, pc.slot, pc.call, pc.before, s.current[h]);
    EffectShape(lim, pc.slot, pc.call, pc.before, s.current[h]);
    match r.1 {
      case Waking(_, _, _) => CommitWakes(lim, s, h, t, r);
      case Blocking(_, _) => CommitBlocks(lim, s, h, t, r);
      case _ => CommitLeaves(lim, s, h, t, r);
    }
    CommittedStep(lim, s, h, t, r);
  }

  lemma CommittedStep(lim: Limits, s: State, h: int, t: State, r: (Endpoint, Pc))
    requires Inv(lim, s) && 0 <= h < |s.pcs| && s.pcs[h].Holding? && Committed(lim, s, h, t, s.pcs[h].slot, r)
    requires !TableCall(s.pcs[h].call) ==>
               r.0.claimed == s.pcs[h].before.claimed && r.0.retired == s.pcs[h].before.retired
    ensures WorksOn(s, h, t, s.pcs[h].slot) && LocksOk(lim, t) && PlacesOk(t)
    ensures Seen(s, s.pcs[h].slot) == s.pcs[h].before && Seen(t, s.pcs[h].slot) == Visible(r)
  {
    hide Inv, LocksOk, PlacesOk;
    HartFacts(lim, s, h);
    SlotStep(lim, s, h, t, s.pcs[h].slot);
  }

  /** The commit step performs the whole call on the table that whole calls see. */
  lemma CommitOk(lim: Limits, s: State, h: int, t: State)
    requires Inv(lim, s) && Step(lim, s, h, Commit, t)
    ensures Inv(lim, t) && Shape(s)
    ensures Simulates(lim, Abs(s), LabelFor(lim, Abs(s), s.pcs[h].call, s.current[h]), Abs(t))
  {
    hide LocksOk, PlacesOk;
    CommitWorks(lim, s, h, t);
    HartFacts(lim, s, h);
    CallerWaitsNowhere(lim, s, h);
    var pc := s.pcs[h];
    var i := pc.slot;
    if pc.call.CreateCall? {
      FreshIsFree(s, i);
    }
    assert Abs(s)[i] == pc.before;
    EffectIsTransition(lim, Abs(s), i, pc.call, s.current[h]);
    ElsewhereSame(s, h, t, i);
    assert Abs(t) == Abs(s)[i := Seen(t, i)];
    var labels := LabelFor(lim, Abs(s), pc.call, s.current[h]);
    if |labels| == 1 {
      NextKeepsStateOk(lim, Abs(s), labels[0], Abs(t));
    }
  }

  // ---------------------------------------------------------------------------------------------
  // Runs

  /** Every step keeps the invariant; a commit is one whole call, every other step is invisible. */
  lemma StepOk(lim: Limits, s: State, h: int, a: Action, t: State)
    requires Inv(lim, s) && Step(lim, s, h, a, t)
    ensures Inv(lim, t) && Shape(s)
    ensures if a.Commit? then Simulates(lim, Abs(s), LabelFor(lim, Abs(s), s.pcs[h].call, s.current[h]), Abs(t))
            else Abs(t) == Abs(s)
  {
    hide Inv, Abs, Simulates, LabelFor;
    match a
    case Begin(call) => BeginOk(lim, s, h, call, t);
    case TakeTable => TakeTableOk(lim, s, h, t);
    case Scan => ScanOk(lim, s, h, t);
    case TakeSlot => TakeSlotOk(lim, s, h, t);
    case Tear(e) => TearOk(lim, s, h, e, t);
    case Commit => CommitOk(lim, s, h, t);
    case Publish => PublishOk(lim, s, h, t);
    case Drain => DrainOk(lim, s, h, t);
    case Switch => SwitchOk(lim, s, h, t);
    case Unlock => UnlockOk(lim, s, h, t);
    case UnlockTable => UnlockTableOk(lim, s, h, t);
    case Preempt => PreemptOk(lim, s, h, t);
    case Leave => LeaveOk(lim, s, h, t);
    case Arrive(u) => ArriveOk(lim, s, h, u, t);
  }

  /** Any interleaving of the harts. */
  ghost predicate IsRun(lim: Limits, ss: seq<State>, hs: seq<int>, acts: seq<Action>) {
    && |ss| == |hs| + 1 && |acts| == |hs| && Initial(lim, ss[0])
    && forall i :: 0 <= i < |hs| ==> Step(lim, ss[i], hs[i], acts[i], ss[i + 1])
  }

  lemma {:induction false} RunsKeepInv(lim: Limits, ss: seq<State>, hs: seq<int>, acts: seq<Action>, n: nat)
    requires IsRun(lim, ss, hs, acts) && n <= |hs|
    ensures Inv(lim, ss[n])
  {
    if n == 0 {
      InitialInv(lim, ss[0]);
    } else {
      RunsKeepInv(lim, ss, hs, acts, n - 1);
      assert Step(lim, ss[n - 1], hs[n - 1], acts[n - 1], ss[n]);
      hide IsRun, Step, Inv;
      StepOk(lim, ss[n - 1], hs[n - 1], acts[n - 1], ss[n]);
    }
  }

  /**
   * Whenever an endpoint's lock is free, a receiver queued at it is no hart's current task: the hart it
   * blocked on has already taken another one, so it can be woken.
   */
  lemma BlockIsDurable(lim: Limits, ss: seq<State>, hs: seq<int>, acts: seq<Action>, i: int, h: int)
    requires IsRun(lim, ss, hs, acts)
    requires var s := ss[|hs|]; 0 <= i < |s.eps| && i < |s.locks| && s.locks[i] == NIL && 0 <= h < |s.current|
    ensures var s := ss[|hs|]; s.current[h] !in s.eps[i].waiters
  {
    var s := ss[|hs|];
    RunsKeepInv(lim, ss, hs, acts, |hs|);
    HartFacts(lim, s, h);
    SlotFacts(lim, s, i);
  }

  // ---------------------------------------------------------------------------------------------
  // Linearizability

  /** What a whole call answers on the table `eps`. */
  function WholeResult(lim: Limits, eps: seq<Endpoint>, call: Call): Result {
    match call
    case CreateCall(owner) => Answer(CreateEndpoint(eps, owner).1)
    case DestroyCall(who, raw) =>
      var i := Lookup(lim, eps, raw);
      if i == NIL || !eps[i].claimed then Answer(Errno(22)) else if eps[i].owner != who then Answer(Errno(13))
      else Answer(0)
    case SendCall(raw, m) =>
      var i := Lookup(lim, eps, raw);
      if i == NIL then Answer(Errno(22))
      else if eps[i].waiters == [] && |eps[i].queue| >= lim.depth then Answer(Errno(11)) else Answer(0)
    case TryReceiveCall(raw) =>
      var i := Lookup(lim, eps, raw);
      if i == NIL then Answer(Errno(22)) else if eps[i].queue == [] then Answer(Errno(11)) else Got(eps[i].queue[0])
    case ReceiveCall(raw) =>
      var i := Lookup(lim, eps, raw);
      if i == NIL then Answer(Errno(22)) else if eps[i].queue == [] then Asleep else Got(eps[i].queue[0])
  }

  /** The answer as the caller's registers show it. */
  ghost predicate Shows(before: Task, after: Task, r: Result) {
    match r
    case Answer(a0) => after == A0(before, a0)
    case Got(m) => after == Receipt(before, m)
    case Asleep => false
  }

  /** The answers of whole calls are those of the executive's own five calls. */
  lemma WholeResultIsTheCalls(lim: Limits, c: Core, eps: seq<Endpoint>, raw: nat, m: Message, who: nat, h: int, t: int,
                              now: nat)
    requires HartIndex(c, h) && Slot(c, t)
    ensures WholeResult(lim, eps, CreateCall(who)) == Answer(CreateEndpoint(eps, who).1)
    ensures DestroyEndpoint(lim, c, eps, who, raw).Run? ==>
              WholeResult(lim, eps, DestroyCall(who, raw)) == Answer(DestroyEndpoint(lim, c, eps, who, raw).value.a0)
    ensures SendMessage(lim, c, eps, raw, m).Run? ==>
              WholeResult(lim, eps, SendCall(raw, m)) == Answer(SendMessage(lim, c, eps, raw, m).value.a0)
    ensures Shows(c.tasks[t], TryReceive(lim, c, eps, t, raw).0.tasks[t], WholeResult(lim, eps, TryReceiveCall(raw)))
    ensures ReceiveMessage(lim, c, eps, h, t, raw, now).Run? ==>
              var (d, _, blocked) := ReceiveMessage(lim, c, eps, h, t, raw, now).value;
              var r := WholeResult(lim, eps, ReceiveCall(raw));
              if blocked then r == Asleep else Shows(c.tasks[t], d.tasks[t], r)
  {
    hide SetNextRunnable, WakeAll;
  }

  /** The result a hart is on its way to, once its call has committed. */
  function Pending(pc: Pc): Result {
    match pc
    case Waking(_, _, _) => Answer(0)
    case Draining(_, _) => Answer(0)
    case Blocking(_, _) => Asleep
    case Leaving(_, _, r) => r
    case Closing(_, r) => r
    case _ => Asleep
  }

  predicate Past(pc: Pc) { pc.Waking? || pc.Draining? || pc.Blocking? || pc.Leaving? || pc.Closing? }

  lemma CommitAnswers(lim: Limits, s: State, h: int, t: State)
    requires Shape(s) && 0 <= h < |s.pcs| == |t.pcs| && s.pcs[h].Holding? && Inv(lim, s) && Step(lim, s, h, Commit, t)
    ensures Shape(s) && Past(t.pcs[h]) && t.pcs[h].call == s.pcs[h].call
    ensures Pending(t.pcs[h]) == WholeResult(lim, Abs(s), s.pcs[h].call)
  {
    hide Inv, Effect, WholeResult, NamesSlot;
    HartFacts(lim, s, h);
    var pc := s.pcs[h];
    assert Abs(s)[pc.slot] == Seen(s, pc.slot) == pc.before;
    if pc.call.CreateCall? {
      FreshIsFree(s, pc.slot);
    }
    EffectAnswers(lim, Abs(s), pc.slot, pc.call, s.current[h]);
  }

  /** The critical section of a call on one endpoint is on its way to the answer of the whole call. */
  lemma EffectAnswers(lim: Limits, eps: seq<Endpoint>, slot: nat, call: Call, caller: int)
    requires slot < |eps|
    requires if call.CreateCall? then slot == FreeSlot(eps) else NamesSlot(lim, |eps|, call.raw, slot)
    ensures var pc := Effect(lim, slot, call, eps[slot], caller).1;
            Past(pc) && !pc.Closing? && pc.call == call && pc.slot == slot && Pending(pc) == WholeResult(lim, eps, call)
  {
    hide Effect, WholeResult, NamesSlot;
    match call {
      case CreateCall(owner) => CreateAnswers(lim, eps, slot, owner, caller);
      case _ => NamedAnswers(lim, eps, slot, call, caller);
    }
  }

  lemma CreateAnswers(lim: Limits, eps: seq<Endpoint>, slot: nat, owner: nat, caller: int)
    requires slot < |eps| && slot == FreeSlot(eps)
    ensures var pc := Effect(lim, slot, CreateCall(owner), eps[slot], caller).1;
            && pc.Leaving? && pc.call == CreateCall(owner) && pc.slot == slot
            && Pending(pc) == WholeResult(lim, eps, CreateCall(owner))
  {
  }

  lemma NamedAnswers(lim: Limits, eps: seq<Endpoint>, slot: nat, call: Call, caller: int)
    requires slot < |eps| && !call.CreateCall? && NamesSlot(lim, |eps|, call.raw, slot)
    ensures var pc := Effect(lim, slot, call, eps[slot], caller).1;
            Past(pc) && !pc.Closing? && pc.call == call && pc.slot == slot && Pending(pc) == WholeResult(lim, eps, call)
  {
    hide Lookup, NamesSlot, FromRaw, Closed;
    NamedLookup(lim, eps, call.raw, slot);
  }

  lemma FullScanAnswers(lim: Limits, s: State, h: int, t: State)
    requires Inv(lim, s) && Step(lim, s, h, Scan, t) && t.pcs[h].Closing?
    ensures Shape(s) && t.pcs[h].call == s.pcs[h].call && Pending(t.pcs[h]) == WholeResult(lim, Abs(s), s.pcs[h].call)
  {
    hide Inv;
    HartFacts(lim, s, h);
    assert forall j :: 0 <= j < |s.eps| ==> Abs(s)[j] == Seen(s, j);
    assert FreeSlot(Abs(s)) == |s.eps|;
  }

  /** The instant at which the call of hart `h` that is now past it took effect. */
  ghost predicate TookEffect(lim: Limits, s: State, h: int, a: Action, t: State, pc: Pc) {
    && Shape(s) && 0 <= h < |s.pcs| == |t.pcs| && (a.Commit? || a.Scan?) && Past(pc)
    && !Past(s.pcs[h]) && !s.pcs[h].User? && s.pcs[h].call == pc.call
    && Pending(pc) == WholeResult(lim, Abs(s), pc.call)
  }

  lemma PastStays(lim: Limits, s: State, g: int, a: Action, t: State, h: int)
    requires Step(lim, s, g, a, t) && 0 <= h < |s.pcs| && h < |t.pcs| && Past(s.pcs[h]) && Past(t.pcs[h])
    ensures t.pcs[h].call == s.pcs[h].call && Pending(t.pcs[h]) == Pending(s.pcs[h])
  {
  }

  lemma BecomesPastBy(lim: Limits, s: State, g: int, a: Action, t: State, h: int)
    requires Step(lim, s, g, a, t) && 0 <= h < |s.pcs| && h < |t.pcs| && !Past(s.pcs[h]) && Past(t.pcs[h])
    ensures g == h && (a.Commit? || (a.Scan? && t.pcs[h].Closing?)) && !s.pcs[h].User? && |t.pcs| == |s.pcs|
  {
  }

  lemma BecomesPast(lim: Limits, s: State, g: int, a: Action, t: State, h: int)
    requires Inv(lim, s) && Step(lim, s, g, a, t) && 0 <= h < |s.pcs| && h < |t.pcs| && !Past(s.pcs[h])
    requires Past(t.pcs[h])
    ensures g == h && TookEffect(lim, s, h, a, t, t.pcs[h])
  {
    hide Inv, WholeResult;
    HartFacts(lim, s, h);
    BecomesPastBy(lim, s, g, a, t, h);
    hide Step, Abs;
    if a.Commit? {
      CommitAnswers(lim, s, h, t);
    } else {
      FullScanAnswers(lim, s, h, t);
    }
  }

  lemma StepKeepsHarts(lim: Limits, s: State, g: int, a: Action, t: State)
    requires Step(lim, s, g, a, t)
    ensures |t.pcs| == |s.pcs|
  {
  }

  lemma NothingPastAtFirst(lim: Limits, ss: seq<State>, hs: seq<int>, acts: seq<Action>, h: int)
    requires IsRun(lim, ss, hs, acts)
    ensures |ss| == |hs| + 1 && |acts| == |hs| && (0 <= h < |ss[0].pcs| ==> !Past(ss[0].pcs[h]))
  {
  }

  /**
   * Linearizability of the answers: a hart that is about to return from a call got the answer that the
   * whole call gives on the table at one earlier instant, after the call began and before it returned.
   */
  lemma {:induction false} ResultsAreOfWholeCalls(lim: Limits, ss: seq<State>, hs: seq<int>, acts: seq<Action>, n: nat,
                                                  h: int) returns (m: nat)
    requires IsRun(lim, ss, hs, acts) && n <= |hs| && 0 <= h < |ss[n].pcs| && Past(ss[n].pcs[h])
    ensures m < n && hs[m] == h && TookEffect(lim, ss[m], h, acts[m], ss[m + 1], ss[n].pcs[h])
    ensures forall k :: m < k <= n ==> h < |ss[k].pcs| && Past(ss[k].pcs[h])
  {
    hide IsRun, Inv, Step, WholeResult, Abs;
    NothingPastAtFirst(lim, ss, hs, acts, h);
    RunsKeepInv(lim, ss, hs, acts, n - 1);
    RunStep(lim, ss, hs, acts, n - 1);
    StepKeepsHarts(lim, ss[n - 1], hs[n - 1], acts[n - 1], ss[n]);
    if Past(ss[n - 1].pcs[h]) {
      m := ResultsAreOfWholeCalls(lim, ss, hs, acts, n - 1, h);
      PastStays(lim, ss[n - 1], hs[n - 1], acts[n - 1], ss[n], h);
    } else {
      m := n - 1;
      BecomesPast(lim, ss[n - 1], hs[n - 1], acts[n - 1], ss[n], h);
    }
  }

  /** The abstract transition of a step: that of the call it commits, or none. */
  ghost function CommitLabel(lim: Limits, s: State, h: int, a: Action): seq<Label> {
    if Shape(s) && 0 <= h < |s.pcs| && a.Commit? && s.pcs[h].Holding? then
      LabelFor(lim, Abs(s), s.pcs[h].call, s.current[h])
    else []
  }

  lemma StepSimulated(lim: Limits, s: State, h: int, a: Action, t: State)
    requires Inv(lim, s) && Step(lim, s, h, a, t)
    ensures Inv(lim, t) && Shape(s) && Shape(t) && Simulates(lim, Abs(s), CommitLabel(lim, s, h, a), Abs(t))
  {
    hide LabelFor, Abs;
    StepOk(lim, s, h, a, t);
  }

  /** The transitions of the committed calls, in commit order. */
  ghost function Labels(lim: Limits, ss: seq<State>, hs: seq<int>, acts: seq<Action>, n: nat): seq<Label>
    requires n <= |hs| == |acts| < |ss|
  {
    if n == 0 then [] else Labels(lim, ss, hs, acts, n - 1) + CommitLabel(lim, ss[n - 1], hs[n - 1], acts[n - 1])
  }

  /**
   * Linearizability of the state: the table that whole calls see passes through a run of the abstract
   * endpoint machine whose transitions are the committed calls.
   */
  lemma {:induction false} StateIsOfWholeCalls(lim: Limits, ss: seq<State>, hs: seq<int>, acts: seq<Action>, n: nat)
      returns (states: seq<seq<Endpoint>>)
    requires IsRun(lim, ss, hs, acts) && n <= |hs|
    ensures Inv(lim, ss[n]) && IpcModel.IsRun(lim, states, Labels(lim, ss, hs, acts, n))
    ensures states[|Labels(lim, ss, hs, acts, n)|] == Abs(ss[n])
  {
    hide IsRun, IpcModel.IsRun, Inv, CommitLabel, Step, Abs;
    RunShape(lim, ss, hs, acts);
    if n == 0 {
      states := RunStarts(lim, ss, hs, acts);
    } else {
      states := StateIsOfWholeCalls(lim, ss, hs, acts, n - 1);
      RunStep(lim, ss, hs, acts, n - 1);
      StepSimulated(lim, ss[n - 1], hs[n - 1], acts[n - 1], ss[n]);
      var more := CommitLabel(lim, ss[n - 1], hs[n - 1], acts[n - 1]);
      ExtendRun(lim, states, Labels(lim, ss, hs, acts, n - 1), more, Abs(ss[n]));
      states := if more == [] then states else states + [Abs(ss[n])];
    }
  }

  lemma RunShape(lim: Limits, ss: seq<State>, hs: seq<int>, acts: seq<Action>)
    requires IsRun(lim, ss, hs, acts)
    ensures |ss| == |hs| + 1 && |acts| == |hs|
  {
  }

  lemma RunStep(lim: Limits, ss: seq<State>, hs: seq<int>, acts: seq<Action>, n: nat)
    requires IsRun(lim, ss, hs, acts) && n < |hs|
    ensures Step(lim, ss[n], hs[n], acts[n], ss[n + 1])
  {
  }

  lemma RunStarts(lim: Limits, ss: seq<State>, hs: seq<int>, acts: seq<Action>) returns (states: seq<seq<Endpoint>>)
    requires IsRun(lim, ss, hs, acts)
    ensures Inv(lim, ss[0]) && states == [Abs(ss[0])] && IpcModel.IsRun(lim, states, [])
  {
    InitialInv(lim, ss[0]);
    states := [Abs(ss[0])];
  }

  /** An endpoint whose lock is free is what the committed calls made it. */
  lemma UnlockedEndpointsAreOfWholeCalls(lim: Limits, ss: seq<State>, hs: seq<int>, acts: seq<Action>, i: int)
      returns (states: seq<seq<Endpoint>>)
    requires IsRun(lim, ss, hs, acts) && 0 <= i < |ss[|hs|].eps| && i < |ss[|hs|].locks| && ss[|hs|].locks[i] == NIL
    ensures var labels := Labels(lim, ss, hs, acts, |hs|);
            && IpcModel.IsRun(lim, states, labels) && i < |states[|labels|]| && ss[|hs|].eps[i] == states[|labels|][i]
  {
    states := StateIsOfWholeCalls(lim, ss, hs, acts, |hs|);
    SlotFacts(lim, ss[|hs|], i);
    assert Abs(ss[|hs|])[i] == Seen(ss[|hs|], i);
  }
}
