/**
 * The order in which memory comes up. The ten transitions form one line: whatever is tried, the accepted ones are a
 * prefix of it, and their number determines the whole state.
 */
module BringUp {
  import opened Base
  import opened Lifecycle

  /** The place of a transition in the order. */
  function Rank(t: Transition): (r: nat)
    ensures r < 10
  {
    match t
    case MarkDiscovered(_) => 0
    case BeginTraining => 1
    case MarkTrained => 2
    case MarkAddressMapReady => 3
    case MarkDecodeCommitted => 4
    case MarkOnline => 5
    case BeginMainstore => 6
    case MarkFlushed => 7
    case CompleteMainstore => 8
    case EnableAllocation => 9
  }

  /** The stage of the memory controller after `n` accepted transitions: one further for each of the first six. */
  function DdrAfter(n: nat): DdrState {
    [Offline, Discovered, Training, Trained, AddressMapReady, DecodeCommitted, Online][if n < 6 then n else 6]
  }

  /** The whole state after `n` accepted transitions, the first of which reported `range`. */
  function Stage(n: nat, window: PhysicalRange, range: PhysicalRange): Life {
    Life(if n <= 6 then InContained else if n <= 8 then Transitioning else Mainstore, DdrAfter(n), window, range,
         n >= 8, n >= 10)
  }

  /** Whether the transition is the next one; the discovered memory has to cover the window. */
  predicate IsNext(n: nat, window: PhysicalRange, t: Transition) {
    Rank(t) == n && (t.MarkDiscovered? ==> ContainsRange(t.range, window))
  }

  predicate Staged(n: nat, window: PhysicalRange, range: PhysicalRange, l: Life) {
    && n <= 10 && l == Stage(n, window, range)
    && if n == 0 then range == PhysicalRange(0, 0) else ContainsRange(range, window)
  }

  /** A transition is accepted if and only if it is the next one, and then moves one place on. */
  lemma NextIsAccepted(n: nat, window: PhysicalRange, range: PhysicalRange, l: Life, t: Transition)
    requires Staged(n, window, range, l)
    ensures Transit(l, t).1 <==> IsNext(n, window, t)
    ensures var range' := if t.MarkDiscovered? then t.range else range;
            if IsNext(n, window, t) then Staged(n + 1, window, range', Transit(l, t).0) else Transit(l, t).0 == l
  {
  }

  /** The state after a list of attempts, and the accepted ones among them, oldest first. */
  function After(l: Life, ts: seq<Transition>): Life {
    if ts == [] then l else Transit(After(l, ts[..|ts| - 1]), ts[|ts| - 1]).0
  }

  function Accepted(l: Life, ts: seq<Transition>): seq<Transition> {
    if ts == [] then []
    else
      var t := ts[|ts| - 1];
      Accepted(l, ts[..|ts| - 1]) + if Transit(After(l, ts[..|ts| - 1]), t).1 then [t] else []
  }

  /** The memory reported by the first accepted transition. */
  function Found(accepted: seq<Transition>): PhysicalRange {
    if accepted != [] && accepted[0].MarkDiscovered? then accepted[0].range else PhysicalRange(0, 0)
  }

  /**
   * Whatever is attempted after `initialize_contained`, the k-th accepted transition is the k-th of the order, and
   * the state is that of their number.
   */
  lemma {:induction false} AcceptedInOrder(textStart: Word, ts: seq<Transition>)
    ensures var window, done := PhysicalRange(textStart, WINDOW), Accepted(Initialized(textStart), ts);
            && (forall k :: 0 <= k < |done| ==> Rank(done[k]) == k)
            && Staged(|done|, window, Found(done), After(Initialized(textStart), ts))
  {
    if ts != [] {
      var l, n := Initialized(textStart), |ts| - 1;
      AcceptedInOrder(textStart, ts[..n]);
      var done := Accepted(l, ts[..n]);
      NextIsAccepted(|done|, PhysicalRange(textStart, WINDOW), Found(done), After(l, ts[..n]), ts[n]);
    }
  }

  /** The mainstore transition is accepted only after discovery, training and commitment, each once and in order. */
  lemma MainstoreComesLast(textStart: Word, ts: seq<Transition>)
    requires Transit(After(Initialized(textStart), ts), BeginMainstore).1
    ensures exists range ::
              && Accepted(Initialized(textStart), ts) ==
                 [MarkDiscovered(range), BeginTraining, MarkTrained, MarkAddressMapReady, MarkDecodeCommitted,
                  MarkOnline]
              && ContainsRange(range, PhysicalRange(textStart, WINDOW))
  {
    AcceptedInOrder(textStart, ts);
    var done := Accepted(Initialized(textStart), ts);
    NextIsAccepted(|done|, PhysicalRange(textStart, WINDOW), Found(done), After(Initialized(textStart), ts),
                   BeginMainstore);
    assert done == [MarkDiscovered(done[0].range), BeginTraining, MarkTrained, MarkAddressMapReady,
                    MarkDecodeCommitted, MarkOnline];
  }
}
