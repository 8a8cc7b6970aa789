/**
 * The endpoints of a kernel run are a run of the abstract endpoint machine, so what holds of every
 * abstract run (exactly-once FIFO delivery, handles that are never reissued) holds of every kernel run.
 */
module IpcRuns {
  import opened Base
  import opened IpcModel
  import opened Machine
  import opened Placement
  import opened IpcRefinement
  import opened Runs

  /** Every legal step of the executive is the abstract transition that `LabelOf` names, or none. */
  lemma StepRefines(k: Kernel, e: Event)
    requires Inv(k) && Legal(k, e) && Machine.Next(k, e).Run?
    ensures Simulates(k.limits, k.endpoints, LabelOf(k, e), Machine.Next(k, e).value.endpoints)
    ensures Machine.Next(k, e).value.limits == k.limits
  {
    assert !WaitsSomewhere(k.endpoints, k.core.harts[e.hart].current) by {
      if k.core.harts[e.hart].current == NIL {
        assert forall i :: 0 <= i < |k.endpoints| ==> WaitersPlaced(k, i, {});
      } else {
        CurrentIsRunning(k, e.hart, k.core.harts[e.hart].current);
      }
    }
    hide Placed, TrackersOk, Machine.Next, LabelOf;
    StepSimulates(k, e);
  }

  /** The transitions of a run, oldest first. */
  ghost function Labels(ks: seq<Kernel>, es: seq<Event>, n: nat): seq<Label>
    requires n <= |es| < |ks|
  {
    if n == 0 then [] else Labels(ks, es, n - 1) + LabelOf(ks[n - 1], es[n - 1])
  }

  /** The endpoint tables that those transitions pass through. */
  ghost function States(ks: seq<Kernel>, es: seq<Event>, n: nat): seq<seq<Endpoint>>
    requires n <= |es| < |ks|
  {
    if n == 0 then [ks[0].endpoints]
    else if LabelOf(ks[n - 1], es[n - 1]) == [] then States(ks, es, n - 1)
    else States(ks, es, n - 1) + [ks[n].endpoints]
  }

  lemma ExtendRun(lim: Limits, states: seq<seq<Endpoint>>, labels: seq<Label>, more: seq<Label>, t: seq<Endpoint>)
    requires IpcModel.IsRun(lim, states, labels) && Simulates(lim, states[|labels|], more, t)
    ensures var states' := if more == [] then states else states + [t];
            IpcModel.IsRun(lim, states', labels + more) && states'[|labels + more|] == t
  {
    hide IpcModel.Next, Initial;
    assert labels + [] == labels;
  }

  /** Dropping the steps that leave the endpoints alone makes a kernel run an abstract run. */
  lemma {:induction false} KernelRunIsIpcRun(ks: seq<Kernel>, es: seq<Event>, n: nat)
    requires Runs.IsRun(ks, es) && n <= |es|
    ensures var states, labels := States(ks, es, n), Labels(ks, es, n);
            && IpcModel.IsRun(ks[0].limits, states, labels)
            && states[|labels|] == ks[n].endpoints && ks[n].limits == ks[0].limits
  {
    if n > 0 {
      hide Runs.IsRun, Legal, Machine.Next, LabelOf, Inv;
      RunStep(ks, es, n - 1);
      KernelRunIsIpcRun(ks, es, n - 1);
      StepRefines(ks[n - 1], es[n - 1]);
      ExtendRun(ks[0].limits, States(ks, es, n - 1), Labels(ks, es, n - 1), LabelOf(ks[n - 1], es[n - 1]),
                ks[n].endpoints);
    }
  }

  /** Exactly-once FIFO delivery for the messages and receivers of every kernel run. */
  lemma KernelDeliveryIsFifoExactlyOnce(ks: seq<Kernel>, es: seq<Event>, slot: nat)
    requires Runs.IsRun(ks, es) && slot < |ks[|es|].endpoints| && ks[|es|].endpoints[slot].active
    ensures var labels, e := Labels(ks, es, |es|), ks[|es|].endpoints[slot];
            && Accepted(labels, slot) == Delivered(labels, slot) + e.queue
            && Blocked(labels, slot) == Served(labels, slot) + e.waiters
  {
    hide Booted, Legal, Machine.Next, LabelOf, IpcModel.IsRun;
    KernelRunIsIpcRun(ks, es, |es|);
    DeliveryIsFifoExactlyOnce(ks[0].limits, States(ks, es, |es|), Labels(ks, es, |es|), slot);
  }

  // ---------------------------------------------------------------------------------------------
  // Handles

  /** Where a step's transition is in the abstract run: the table before it is there too. */
  lemma {:induction false} TransitionAt(ks: seq<Kernel>, es: seq<Event>, m: nat, n: nat)
    requires Runs.IsRun(ks, es) && m < n <= |es| && |LabelOf(ks[m], es[m])| == 1
    ensures var i := |Labels(ks, es, m)|;
            && i < |Labels(ks, es, n)| && i < |States(ks, es, n)|
            && Labels(ks, es, n)[i] == LabelOf(ks[m], es[m])[0] && States(ks, es, n)[i] == ks[m].endpoints
    decreases n
  {
    hide Runs.IsRun, LabelOf, IpcModel.IsRun, Labels, States, Inv, Legal, Machine.Next;
    RunStep(ks, es, m);
    OneMore(ks, es, n - 1);
    if m < n - 1 {
      TransitionAt(ks, es, m, n - 1);
    } else {
      KernelRunIsIpcRun(ks, es, m);
      RunShape(ks[0].limits, States(ks, es, m), Labels(ks, es, m));
    }
  }

  lemma OneMore(ks: seq<Kernel>, es: seq<Event>, n: nat)
    requires n < |es| < |ks|
    ensures Labels(ks, es, n + 1) == Labels(ks, es, n) + LabelOf(ks[n], es[n])
    ensures States(ks, es, n) <= States(ks, es, n + 1)
  {
    hide LabelOf;
  }

  lemma RunShape(lim: Limits, states: seq<seq<Endpoint>>, labels: seq<Label>)
    requires IpcModel.IsRun(lim, states, labels)
    ensures |states| == |labels| + 1
  {
  }

  /** A handle that names no live epoch is rejected by every call. */
  lemma UnusableIsRejected(k: Kernel, slot: nat, generation: nat)
    requires Inv(k) && slot < |k.endpoints| && !Usable(k.endpoints, slot, generation)
    ensures Lookup(k.limits, k.endpoints, Handle(slot, generation).Raw()) == NIL
  {
    HandleRoundTrip(Handle(slot, generation));
    LookupIsUsable(k.limits, k.endpoints, Handle(slot, generation).Raw());
  }

  /** Once destroyed, a handle is rejected by every call in every later state of the run. */
  lemma DestroyedHandleIsRejected(ks: seq<Kernel>, es: seq<Event>, m: nat, n: nat, slot: nat)
    requires Runs.IsRun(ks, es) && m < n <= |es| && LabelOf(ks[m], es[m]) == [Destroy(slot)]
    ensures slot < |ks[m].endpoints|
    ensures Lookup(ks[n].limits, ks[n].endpoints, Handle(slot, ks[m].endpoints[slot].generation).Raw()) == NIL
  {
    hide Runs.IsRun, Legal, Inv, LabelOf, Lookup, Usable, IpcModel.IsRun;
    RunStep(ks, es, m);
    StepRefines(ks[m], es[m]);
    TransitionAt(ks, es, m, n);
    KernelRunIsIpcRun(ks, es, n);
    var states, labels, i := States(ks, es, n), Labels(ks, es, n), |Labels(ks, es, m)|;
    DestroyedHandlesStayDead(ks[0].limits, states, labels, i, |labels|);
    RunsKeepInv(ks, es, n);
    TableIsKept(ks[0].limits, states, labels, i);
    UnusableIsRejected(ks[n], slot, ks[m].endpoints[slot].generation);
  }

  /** The table keeps its size along an abstract run. */
  lemma {:induction false} TableIsKept(lim: Limits, states: seq<seq<Endpoint>>, labels: seq<Label>, i: nat)
    requires IpcModel.IsRun(lim, states, labels) && i <= |labels|
    ensures |states| == |labels| + 1 && |states[i]| == |states[|labels|]|
    decreases |labels| - i
  {
    if i < |labels| {
      RunsAreOk(lim, states, labels, i);
      NextKeepsStateOk(lim, states[i], labels[i], states[i + 1]);
      TableIsKept(lim, states, labels, i + 1);
    }
  }

  /** A created handle is usable at once, is returned in `a0`, and has bit 63 clear. */
  lemma CreatedHandleIsUsable(k: Kernel, e: Event, slot: nat, owner: nat, generation: nat)
    requires Inv(k) && Legal(k, e) && Machine.Next(k, e).Run? && LabelOf(k, e) == [Create(slot, owner, generation)]
    ensures var l := Machine.Next(k, e).value;
            && Usable(l.endpoints, slot, generation) && Handle(slot, generation).Raw() < TWO64 / 2
            && Slot(l.core, k.core.harts[e.hart].current)
            && l.core.tasks[k.core.harts[e.hart].current].context.x[10] == Handle(slot, generation).Raw()
  {
    hide Placed, TrackersOk, Legal;
    var t := k.core.harts[e.hart].current;
    CreateSimulates(k.limits, k.endpoints, k.core.tasks[t].tid);
    HandleRoundTrip(Handle(slot, generation));
  }

  /** No handle is published twice over a run, whichever harts create endpoints. */
  lemma KernelHandlesAreNeverReissued(ks: seq<Kernel>, es: seq<Event>, m: nat, n: nat, a: Label, b: Label)
    requires Runs.IsRun(ks, es) && m < n < |es| && a.Create? && b.Create?
    requires LabelOf(ks[m], es[m]) == [a] && LabelOf(ks[n], es[n]) == [b]
    ensures Handle(a.slot, a.generation).Raw() != Handle(b.slot, b.generation).Raw()
    ensures a.slot == b.slot ==> a.generation < b.generation
  {
    hide Runs.IsRun, Legal, Inv, LabelOf, IpcModel.IsRun, Machine.Next, Labels, States;
    RunStep(ks, es, n);
    var states, labels := States(ks, es, n + 1), Labels(ks, es, n + 1);
    var i, j := |Labels(ks, es, m)|, |Labels(ks, es, n)|;
    TransitionAt(ks, es, m, n + 1);
    TransitionAt(ks, es, m, n);
    TransitionAt(ks, es, n, n + 1);
    KernelRunIsIpcRun(ks, es, n + 1);
    CreationsDiffer(ks[0].limits, states, labels, i, j);
    HandlesDiffer(ks[n + 1], a, b);
  }

  lemma HandlesDiffer(k: Kernel, a: Label, b: Label)
    requires Inv(k) && a.Create? && b.Create? && a.slot < |k.endpoints| && b.slot < |k.endpoints|
    requires a.slot == b.slot ==> a.generation != b.generation
    ensures Handle(a.slot, a.generation).Raw() != Handle(b.slot, b.generation).Raw()
  {
    HandleRoundTrip(Handle(a.slot, a.generation));
    HandleRoundTrip(Handle(b.slot, b.generation));
  }
}
