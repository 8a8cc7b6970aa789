/**
 * Every kernel step is at most one transition of the abstract endpoint machine, and the label of
 * that transition is determined by the call; a rejected call leaves the endpoints unchanged.
 */
module IpcRefinement {
  import opened Base
  import opened IpcModel
  import opened Machine

  function SendLabel(lim: Limits, eps: seq<Endpoint>, raw: nat, m: Message): seq<Label> {
    var i := Lookup(lim, eps, raw);
    if i == NIL then []
    else if eps[i].waiters != [] then [SendWake(i, m, eps[i].waiters[0])]
    else if |eps[i].queue| < lim.depth then [Send(i, m)]
    else []
  }

  function ReceiveLabel(lim: Limits, eps: seq<Endpoint>, t: int, raw: nat, blocking: bool): seq<Label> {
    var i := Lookup(lim, eps, raw);
    if i == NIL then []
    else if eps[i].queue != [] then [Receive(i, eps[i].queue[0])]
    else if blocking then [Block(i, t)]
    else []
  }

  function DestroyLabel(lim: Limits, eps: seq<Endpoint>, caller: nat, raw: nat): seq<Label> {
    var i := Lookup(lim, eps, raw);
    if i != NIL && eps[i].claimed && eps[i].owner == caller then [Destroy(i)] else []
  }

  function CreateLabel(eps: seq<Endpoint>, owner: nat): seq<Label> {
    var i := FreeSlot(eps);
    if i < |eps| then [Create(i, owner, FirstGeneration(eps[i]))] else []
  }

  /** The abstract transition of a step, if it is one. */
  function LabelOf(k: Kernel, e: Event): seq<Label> {
    if !e.Syscall? || !HartIndex(k.core, e.hart) || !Slot(k.core, k.core.harts[e.hart].current) then [] else
    var t := k.core.harts[e.hart].current;
    CallLabel(k.(core := SetTask(k.core, t, Entered(k.core.tasks[t], e.frame))), t)
  }

  /** Zero or one abstract transitions. */
  ghost predicate Simulates(lim: Limits, s: seq<Endpoint>, labels: seq<Label>, t: seq<Endpoint>) {
    match |labels|
    case 0 => t == s
    case 1 => IpcModel.Next(lim, s, labels[0], t)
    case _ => false
  }

  lemma CreateSimulates(lim: Limits, eps: seq<Endpoint>, owner: nat)
    ensures Simulates(lim, eps, CreateLabel(eps, owner), CreateEndpoint(eps, owner).0)
    ensures CreateLabel(eps, owner) == [] <==> CreateEndpoint(eps, owner).1 == Errno(28)
    ensures CreateLabel(eps, owner) != [] ==>
              var l := CreateLabel(eps, owner)[0];
              CreateEndpoint(eps, owner).1 == Handle(l.slot, l.generation).Raw()
    requires |eps| <= TWO32 && forall i :: 0 <= i < |eps| ==> eps[i].generation <= lim.ceiling
    requires lim.ceiling < TWO32 / 2
  {
    var i := FreeSlot(eps);
    if i < |eps| {
      HandleRoundTrip(Handle(i, FirstGeneration(eps[i])));
    }
  }

  lemma DestroySimulates(lim: Limits, c: Core, eps: seq<Endpoint>, caller: nat, raw: nat)
    requires DestroyEndpoint(lim, c, eps, caller, raw).Run?
    ensures var r := DestroyEndpoint(lim, c, eps, caller, raw).value;
            var labels := DestroyLabel(lim, eps, caller, raw);
            Simulates(lim, eps, labels, r.endpoints) && (labels == [] ==> r.core == c && r.a0 != 0)
  {
  }

  lemma SendSimulates(lim: Limits, c: Core, eps: seq<Endpoint>, raw: nat, m: Message)
    requires SendMessage(lim, c, eps, raw, m).Run?
    ensures var r := SendMessage(lim, c, eps, raw, m).value;
            var labels := SendLabel(lim, eps, raw, m);
            Simulates(lim, eps, labels, r.endpoints) && (labels == [] ==> r.core == c && r.a0 != 0)
  {
  }

  lemma ReceiveSimulates(lim: Limits, c: Core, eps: seq<Endpoint>, h: int, t: int, raw: nat, now: nat)
    requires HartIndex(c, h) && Slot(c, t) && ReceiveMessage(lim, c, eps, h, t, raw, now).Run?
    requires !WaitsSomewhere(eps, t)
    ensures Simulates(lim, eps, ReceiveLabel(lim, eps, t, raw, true),
                      ReceiveMessage(lim, c, eps, h, t, raw, now).value.1)
  {
  }

  lemma TryReceiveSimulates(lim: Limits, c: Core, eps: seq<Endpoint>, t: int, raw: nat)
    requires Slot(c, t)
    ensures Simulates(lim, eps, ReceiveLabel(lim, eps, t, raw, false), TryReceive(lim, c, eps, t, raw).1)
  {
  }

  /** A step of the kernel is the transition that `LabelOf` names. */
  lemma StepSimulates(k: Kernel, e: Event)
    requires Machine.Next(k, e).Run?
    requires |k.endpoints| <= TWO32 && k.limits.ceiling < TWO32 / 2 && StateOk(k.limits, k.endpoints)
    requires HartIndex(k.core, e.hart) ==> !WaitsSomewhere(k.endpoints, k.core.harts[e.hart].current)
    ensures Simulates(k.limits, k.endpoints, LabelOf(k, e), Machine.Next(k, e).value.endpoints)
    ensures Machine.Next(k, e).value.limits == k.limits
  {
    if e.Syscall? {
      var t := k.core.harts[e.hart].current;
      var l := k.(core := SetTask(k.core, t, Entered(k.core.tasks[t], e.frame)));
      CallSimulates(l, e.hart, t, e.env);
    }
  }

  function CallLabel(k: Kernel, t: int): seq<Label>
    requires Slot(k.core, t)
  {
    var v := k.core.tasks[t];
    var raw := v.context.x[10];
    match v.context.x[17]
    case 6 => CreateLabel(k.endpoints, v.tid)
    case 7 => DestroyLabel(k.limits, k.endpoints, v.tid, raw)
    case 8 => SendLabel(k.limits, k.endpoints, raw, MessageOf(v))
    case 10 => ReceiveLabel(k.limits, k.endpoints, t, raw, true)
    case 11 => ReceiveLabel(k.limits, k.endpoints, t, raw, false)
    case _ => []
  }

  lemma CallSimulates(k: Kernel, h: int, t: int, env: Env)
    requires HartIndex(k.core, h) && Slot(k.core, t) && Dispatch(k, h, t, env).Run?
    requires |k.endpoints| <= TWO32 && k.limits.ceiling < TWO32 / 2 && StateOk(k.limits, k.endpoints)
    requires !WaitsSomewhere(k.endpoints, t)
    ensures var l := Dispatch(k, h, t, env).value.kernel;
            l.limits == k.limits && Simulates(k.limits, k.endpoints, CallLabel(k, t), l.endpoints)
  {
    var v := k.core.tasks[t];
    var raw := v.context.x[10];
    match v.context.x[17]
    case 6 => CreateSimulates(k.limits, k.endpoints, v.tid);
    case 7 => DestroySimulates(k.limits, k.core, k.endpoints, v.tid, raw);
    case 8 => SendSimulates(k.limits, k.core, k.endpoints, raw, MessageOf(v));
    case 10 => ReceiveSimulates(k.limits, k.core, k.endpoints, h, t, raw, env.sliceNow);
    case 11 => TryReceiveSimulates(k.limits, k.core, k.endpoints, t, raw);
    case _ => OtherCallsKeepEndpoints(k, h, t, env);
  }

  lemma OtherCallsKeepEndpoints(k: Kernel, h: int, t: int, env: Env)
    requires HartIndex(k.core, h) && Slot(k.core, t) && Dispatch(k, h, t, env).Run?
    requires k.core.tasks[t].context.x[17] !in {6, 7, 8, 10, 11}
    ensures var l := Dispatch(k, h, t, env).value.kernel; l.limits == k.limits && l.endpoints == k.endpoints
  {
  }

  // ---------------------------------------------------------------------------------------------
  // Handles

  lemma HandleRoundTrip(h: Handle)
    requires h.index < TWO32
    ensures FromRaw(h.Raw()) == h
    ensures h.generation < TWO32 / 2 ==> h.Raw() < TWO64 / 2
  {
  }

  /** The four calls accept a handle exactly when it names a live epoch: bit 63 never helps. */
  lemma LookupIsUsable(lim: Limits, eps: seq<Endpoint>, raw: nat)
    requires StateOk(lim, eps) && |eps| <= TWO32
    ensures Lookup(lim, eps, raw) != NIL <==> Usable(eps, FromRaw(raw).index, FromRaw(raw).generation)
    ensures Lookup(lim, eps, raw) == NIL ==>
              && (forall m: Message :: SendLabel(lim, eps, raw, m) == [])
              && (forall t: int, b :: ReceiveLabel(lim, eps, t, raw, b) == [])
              && (forall c: nat :: DestroyLabel(lim, eps, c, raw) == [])
    ensures lim.ceiling < TWO32 / 2 && Lookup(lim, eps, raw) != NIL ==> raw < TWO64 / 2
  {
  }
}
