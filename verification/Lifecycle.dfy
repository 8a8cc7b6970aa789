/** Memory domains and the DDR bring-up: which backing an address has while memory moves under it. */
module Lifecycle {
  import opened Base

  datatype Backing = Unavailable | Contained | Ddr
  datatype Domain = Uninitialized | InContained | Transitioning | Mainstore
  datatype DdrState = Offline | Discovered | Training | Trained | AddressMapReady | DecodeCommitted | Online

  /** A machine word. */
  type Word = x: int | 0 <= x < TWO64

  /** The sum of base and size wraps. */
  datatype PhysicalRange = PhysicalRange(base: Word, size: Word)

  datatype Life = Life(domain: Domain, ddr: DdrState, contained: PhysicalRange, ddrRange: PhysicalRange, flushed: bool,
                       enabled: bool)

  const WINDOW: Word := 8 * 1024 * 1024

  function Sum(a: Word, b: Word): Word { (a + b) % TWO64 }

  predicate ValidRange(r: PhysicalRange) { r.size != 0 && Sum(r.base, r.size) > r.base }

  predicate Contains(r: PhysicalRange, address: Word) {
    ValidRange(r) && address >= r.base && address - r.base < r.size
  }

  predicate ContainsRange(outer: PhysicalRange, inner: PhysicalRange) {
    ValidRange(outer) && ValidRange(inner) && inner.base >= outer.base &&
    Sum(inner.base, inner.size) <= Sum(outer.base, outer.size)
  }

  function Initialized(textStart: Word): Life {
    Life(InContained, Offline, PhysicalRange(textStart, WINDOW), PhysicalRange(0, 0), false, false)
  }

  function BackingFor(l: Life, address: Word): Backing {
    if l.domain == Mainstore && l.ddr == Online && Contains(l.ddrRange, address) then Ddr
    else if (l.domain == InContained || l.domain == Transitioning) && Contains(l.contained, address) then Contained
    else Unavailable
  }

  datatype Transition =
    | MarkDiscovered(range: PhysicalRange) | BeginTraining | MarkTrained | MarkAddressMapReady | MarkDecodeCommitted
    | MarkOnline | BeginMainstore | MarkFlushed | CompleteMainstore | EnableAllocation

  /** The transition and whether it was accepted; a refused one changes nothing. */
  function Transit(l: Life, t: Transition): (Life, bool) {
    match t
    case MarkDiscovered(range) =>
      if l.domain == InContained && l.ddr == Offline && ContainsRange(range, l.contained) then
        (l.(ddrRange := range, ddr := Discovered), true) else (l, false)
    case BeginTraining => Advance(l, Discovered, Training)
    case MarkTrained => Advance(l, Training, Trained)
    case MarkAddressMapReady => Advance(l, Trained, AddressMapReady)
    case MarkDecodeCommitted => Advance(l, AddressMapReady, DecodeCommitted)
    case MarkOnline =>
      if ContainsRange(l.ddrRange, l.contained) then Advance(l, DecodeCommitted, Online) else (l, false)
    case BeginMainstore =>
      if l.domain == InContained && l.ddr == Online && !l.flushed && !l.enabled then (l.(domain := Transitioning), true)
      else (l, false)
    case MarkFlushed =>
      if l.domain == Transitioning && l.ddr == Online && !l.flushed then (l.(flushed := true), true) else (l, false)
    case CompleteMainstore =>
      if l.domain == Transitioning && l.ddr == Online && l.flushed && !l.enabled then (l.(domain := Mainstore), true)
      else (l, false)
    case EnableAllocation =>
      if l.domain == Mainstore && l.ddr == Online && l.flushed && !l.enabled then (l.(enabled := true), true)
      else (l, false)
  }

  function Advance(l: Life, from: DdrState, to: DdrState): (Life, bool) {
    if l.domain == InContained && l.ddr == from then (l.(ddr := to), true) else (l, false)
  }

  /** What every lifecycle keeps: DDR, once discovered, covers the window; allocation means mainstore is complete. */
  ghost predicate LifeOk(l: Life) {
    && l.domain != Uninitialized
    && (l.ddr != Offline ==> ContainsRange(l.ddrRange, l.contained))
    && (l.domain != InContained ==> l.ddr == Online)
    && (l.enabled ==> l.domain == Mainstore && l.flushed)
    && (l.domain == Mainstore ==> l.flushed)
    && (l.flushed ==> l.domain != InContained)
  }

  lemma TransitKeepsOk(l: Life, t: Transition)
    requires LifeOk(l)
    ensures LifeOk(Transit(l, t).0) && Transit(l, t).0.contained == l.contained
    ensures l.ddr != Offline ==> Transit(l, t).0.ddrRange == l.ddrRange
    ensures !Transit(l, t).1 ==> Transit(l, t).0 == l
  {
  }

  /** The window never loses its backing: contained until the domain is mainstore, DDR from then on. */
  lemma WindowIsBacked(l: Life, address: Word)
    requires LifeOk(l) && Contains(l.contained, address)
    ensures BackingFor(l, address) == if l.domain == Mainstore then Ddr else Contained
  {
  }

  /** A transition changes the backing of an address only from contained to DDR, or from nothing to DDR. */
  lemma BackingOnlyImproves(l: Life, t: Transition, address: Word)
    requires LifeOk(l)
    ensures var m := Transit(l, t).0;
            && (BackingFor(l, address) == Ddr ==> BackingFor(m, address) == Ddr)
            && (BackingFor(l, address) == Contained ==> BackingFor(m, address) != Unavailable)
            && (BackingFor(l, address) != BackingFor(m, address) ==> t == CompleteMainstore)
  {
    TransitKeepsOk(l, t);
    if Contains(l.contained, address) {
      WindowIsBacked(l, address);
      WindowIsBacked(Transit(l, t).0, address);
    }
  }

  /** The window is backed from the start if and only if it does not run past the top of the address space. */
  lemma InitialWindow(textStart: Word)
    ensures LifeOk(Initialized(textStart))
    ensures BackingFor(Initialized(textStart), textStart) == Contained <==> textStart + WINDOW < TWO64
  {
  }

  /** The lifecycle in place. */
  class MemoryLifecycle {
    var state: Life

    constructor (textStart: Word)
      ensures state == Initialized(textStart)
    {
      state := Initialized(textStart);
    }

    method Step(t: Transition) returns (ok: bool)
      modifies this
      ensures (state, ok) == Transit(old(state), t)
    {
      match t
      case MarkDiscovered(range) =>
        ok := state.domain == InContained && state.ddr == Offline && ContainsRange(range, state.contained);
        if ok {
          state := state.(ddrRange := range, ddr := Discovered);
        }
      case BeginTraining => ok := AdvanceDdr(Discovered, Training);
      case MarkTrained => ok := AdvanceDdr(Training, Trained);
      case MarkAddressMapReady => ok := AdvanceDdr(Trained, AddressMapReady);
      case MarkDecodeCommitted => ok := AdvanceDdr(AddressMapReady, DecodeCommitted);
      case MarkOnline =>
        ok := false;
        if ContainsRange(state.ddrRange, state.contained) {
          ok := AdvanceDdr(DecodeCommitted, Online);
        }
      case BeginMainstore =>
        ok := state.domain == InContained && state.ddr == Online && !state.flushed && !state.enabled;
        if ok {
          state := state.(domain := Transitioning);
        }
      case MarkFlushed =>
        ok := state.domain == Transitioning && state.ddr == Online && !state.flushed;
        if ok {
          state := state.(flushed := true);
        }
      case CompleteMainstore =>
        ok := state.domain == Transitioning && state.ddr == Online && state.flushed && !state.enabled;
        if ok {
          state := state.(domain := Mainstore);
        }
      case EnableAllocation =>
        ok := state.domain == Mainstore && state.ddr == Online && state.flushed && !state.enabled;
        if ok {
          state := state.(enabled := true);
        }
    }

    method AdvanceDdr(from: DdrState, to: DdrState) returns (ok: bool)
      modifies this
      ensures (state, ok) == Advance(old(state), from, to)
    {
      ok := state.domain == InContained && state.ddr == from;
      if ok {
        state := state.(ddr := to);
      }
    }
  }
}
