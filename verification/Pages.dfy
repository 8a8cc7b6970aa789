/**
 * The page allocator over the memory lifecycle: ranges that hand out their pages in order, relabelled
 * in place when memory moves to DDR. Every interleaving with the lifecycle hands every page out once,
 * under the label of the memory it is in.
 */
module Pages {
  import opened Base
  import opened Lifecycle
  import BringUp

  const PAGE: nat := 4096

  datatype ManagedRange = ManagedRange(base: Word, next: Word, end: Word, backing: Backing)

  datatype Allocation = Allocation(address: Word, backing: Backing) {
    predicate Valid() { address != 0 && backing != Unavailable }
  }

  const NOTHING := Allocation(0, Unavailable)

  predicate Aligned(x: int) { x % PAGE == 0 }

  predicate Overlaps(base: Word, end: Word, r: ManagedRange) { base < r.end && r.base < end }

  /** Whether both ends of `[base, end)` have the backing `b`. */
  predicate Backed(l: Life, base: Word, end: Word, b: Backing) {
    BackingFor(l, base) == b && 0 < end && BackingFor(l, end - 1) == b
  }

  predicate Addable(l: Life, ranges: seq<ManagedRange>, capacity: nat, base: Word, size: Word, backing: Backing) {
    && |ranges| < capacity && backing != Unavailable && size != 0 && Aligned(base) && Aligned(size)
    && Sum(base, size) > base
    && (forall i :: 0 <= i < |ranges| ==> !Overlaps(base, Sum(base, size), ranges[i]))
    && Backed(l, base, Sum(base, size), backing)
  }

  function AddRange(l: Life, ranges: seq<ManagedRange>, capacity: nat, base: Word, size: Word, backing: Backing)
    : (seq<ManagedRange>, bool)
  {
    if Addable(l, ranges, capacity, base, size, backing) then
      (ranges + [ManagedRange(base, base, Sum(base, size), backing)], true)
    else (ranges, false)
  }

  function CountLabel(ranges: seq<ManagedRange>, b: Backing): nat {
    if ranges == [] then 0
    else CountLabel(ranges[..|ranges| - 1], b) + if ranges[|ranges| - 1].backing == b then 1 else 0
  }

  lemma CountNext(ranges: seq<ManagedRange>, n: nat, from: Backing)
    requires n < |ranges|
    ensures CountLabel(ranges[..n + 1], from) ==
              CountLabel(ranges[..n], from) + if ranges[n].backing == from then 1 else 0
  {
    assert ranges[..n + 1][..n] == ranges[..n];
  }

  function Relabelled(ranges: seq<ManagedRange>, from: Backing, to: Backing): (r: seq<ManagedRange>)
    ensures |r| == |ranges|
    ensures forall i :: 0 <= i < |r| ==>
              r[i] == if ranges[i].backing == from then ranges[i].(backing := to) else ranges[i]
  {
    if ranges == [] then []
    else Relabelled(ranges[..|ranges| - 1], from, to) +
         [var r := ranges[|ranges| - 1]; if r.backing == from then r.(backing := to) else r]
  }

  predicate Promotable(l: Life, ranges: seq<ManagedRange>, from: Backing, to: Backing) {
    && from != to && from != Unavailable && to != Unavailable
    && forall i :: 0 <= i < |ranges| && ranges[i].backing == from ==> Backed(l, ranges[i].base, ranges[i].end, to)
  }

  /** All ranges with the label move, or none. */
  function Promote(l: Life, ranges: seq<ManagedRange>, from: Backing, to: Backing): (seq<ManagedRange>, nat) {
    if Promotable(l, ranges, from, to) then (Relabelled(ranges, from, to), CountLabel(ranges, from)) else (ranges, 0)
  }

  predicate Usable(r: ManagedRange, b: Backing) { r.backing == b && r.next < r.end }

  /** The first range with the label that has a page left, or the number of ranges. */
  function FirstUsable(ranges: seq<ManagedRange>, b: Backing): (i: nat)
    ensures i <= |ranges| && (i < |ranges| ==> Usable(ranges[i], b))
    ensures forall j :: 0 <= j < i ==> !Usable(ranges[j], b)
  {
    if ranges == [] || Usable(ranges[0], b) then 0 else
    var rest := FirstUsable(ranges[1..], b);
    assert forall j :: 0 < j < 1 + rest ==> ranges[j] == ranges[1..][j - 1];
    1 + rest
  }

  function AllocateFrom(ranges: seq<ManagedRange>, b: Backing): (seq<ManagedRange>, Allocation) {
    var i := FirstUsable(ranges, b);
    if i == |ranges| then (ranges, NOTHING)
    else (ranges[i := ranges[i].(next := Sum(ranges[i].next, PAGE))], Allocation(ranges[i].next, b))
  }

  /** DDR once it is published, contained memory before the transition, nothing in between. */
  function AllocatePage(l: Life, ranges: seq<ManagedRange>): (seq<ManagedRange>, Allocation) {
    if l.enabled then AllocateFrom(ranges, Ddr)
    else if l.domain == InContained then AllocateFrom(ranges, Contained)
    else (ranges, NOTHING)
  }

  function Left(r: ManagedRange, b: Backing): nat { if Usable(r, b) then (r.end - r.next) / PAGE else 0 }

  /** Pages still to be handed out from the ranges with the label. */
  function Remaining(ranges: seq<ManagedRange>, b: Backing): nat {
    if ranges == [] then 0
    else Remaining(ranges[..|ranges| - 1], b) + Left(ranges[|ranges| - 1], b)
  }

  // ---------------------------------------------------------------------------------------------
  // Runs

  /** The allocator, the lifecycle, and the pages handed out so far. */
  datatype Store = Store(life: Life, ranges: seq<ManagedRange>, capacity: nat, handed: seq<Word>)

  datatype Event =
    | Lives(transition: Transition)
    | Adds(base: Word, size: Word, backing: Backing)
    | Promotes(from: Backing, to: Backing)
    | Allocates

  function Next(s: Store, e: Event): Store {
    match e
    case Lives(t) => s.(life := Transit(s.life, t).0)
    case Adds(base, size, b) => s.(ranges := AddRange(s.life, s.ranges, s.capacity, base, size, b).0)
    case Promotes(from, to) => s.(ranges := Promote(s.life, s.ranges, from, to).0)
    case Allocates =>
      var r := AllocatePage(s.life, s.ranges);
      s.(ranges := r.0, handed := if r.1.backing == Unavailable then s.handed else s.handed + [r.1.address])
  }

  ghost predicate RangeOk(l: Life, r: ManagedRange) {
    && Aligned(r.base) && Aligned(r.next) && Aligned(r.end) && r.base <= r.next <= r.end && r.base < r.end
    && match r.backing
       case Unavailable => false
       case Contained => Contains(l.contained, r.base) && Contains(l.contained, r.end - 1)
       case Ddr => Backed(l, r.base, r.end, Ddr)
  }

  ghost predicate RangesOk(l: Life, ranges: seq<ManagedRange>) {
    && (forall i :: 0 <= i < |ranges| ==> RangeOk(l, ranges[i]))
    && (forall i, j :: 0 <= i < |ranges| && 0 <= j < |ranges| && i != j ==>
          !Overlaps(ranges[i].base, ranges[i].end, ranges[j]))
  }

  /** The page was taken from the range. */
  predicate TakenFrom(r: ManagedRange, page: Word) { r.base <= page < r.next && Aligned(page) }

  ghost predicate TakenSomewhere(ranges: seq<ManagedRange>, page: Word) {
    exists i :: 0 <= i < |ranges| && TakenFrom(ranges[i], page)
  }

  ghost predicate HandedOk(ranges: seq<ManagedRange>, handed: seq<Word>) {
    && Distinct(handed)
    && (forall k :: 0 <= k < |handed| ==> TakenSomewhere(ranges, handed[k]))
  }

  /** The pages a range list has given out, and those it was given. */
  function Given(ranges: seq<ManagedRange>): int {
    if ranges == [] then 0
    else Given(ranges[..|ranges| - 1]) + (ranges[|ranges| - 1].next - ranges[|ranges| - 1].base) / PAGE
  }

  function Added(ranges: seq<ManagedRange>): int {
    if ranges == [] then 0
    else Added(ranges[..|ranges| - 1]) + (ranges[|ranges| - 1].end - ranges[|ranges| - 1].base) / PAGE
  }

  ghost predicate StoreOk(s: Store) {
    LifeOk(s.life) && RangesOk(s.life, s.ranges) && HandedOk(s.ranges, s.handed) && |s.handed| == Given(s.ranges)
  }

  /** Ranges keep their label's promise through every lifecycle transition. */
  lemma LivesKeepsOk(s: Store, t: Transition)
    requires StoreOk(s)
    ensures StoreOk(s.(life := Transit(s.life, t).0))
  {
    TransitKeepsOk(s.life, t);
    var m := Transit(s.life, t).0;
    forall i | 0 <= i < |s.ranges| ensures RangeOk(m, s.ranges[i]) {
      var r := s.ranges[i];
      BackingOnlyImproves(s.life, t, r.base);
      BackingOnlyImproves(s.life, t, r.end - 1);
    }
  }

  /** Ranges that keep their bases and give out no less still account for the pages handed out. */
  lemma HandedStays(ranges: seq<ManagedRange>, ranges': seq<ManagedRange>, handed: seq<Word>)
    requires HandedOk(ranges, handed) && |ranges| <= |ranges'|
    requires forall i :: 0 <= i < |ranges| ==> ranges'[i].base == ranges[i].base && ranges'[i].next >= ranges[i].next
    ensures HandedOk(ranges', handed)
  {
    forall k | 0 <= k < |handed| ensures TakenSomewhere(ranges', handed[k]) {
      assert TakenSomewhere(ranges, handed[k]);
      var i :| 0 <= i < |ranges| && TakenFrom(ranges[i], handed[k]);
      assert TakenFrom(ranges'[i], handed[k]);
    }
  }

  lemma AddedRangesOk(l: Life, ranges: seq<ManagedRange>, capacity: nat, base: Word, size: Word, b: Backing)
    requires LifeOk(l) && RangesOk(l, ranges) && Addable(l, ranges, capacity, base, size, b)
    ensures RangesOk(l, ranges + [ManagedRange(base, base, Sum(base, size), b)])
  {
    assert RangeOk(l, ManagedRange(base, base, Sum(base, size), b));
    hide RangeOk, Backed;
  }

  lemma AddsKeepsOk(s: Store, base: Word, size: Word, b: Backing)
    requires StoreOk(s) && Addable(s.life, s.ranges, s.capacity, base, size, b)
    ensures StoreOk(Next(s, Adds(base, size, b)))
    ensures Added(Next(s, Adds(base, size, b)).ranges) == Added(s.ranges) + size / PAGE
  {
    hide RangesOk, HandedOk, Backed;
    var t := Next(s, Adds(base, size, b));
    AddedRangesOk(s.life, s.ranges, s.capacity, base, size, b);
    HandedStays(s.ranges, t.ranges, s.handed);
    assert t.ranges[..|s.ranges|] == s.ranges;
  }

  lemma {:induction false} RelabelKeepsCounts(ranges: seq<ManagedRange>, from: Backing, to: Backing)
    ensures Given(Relabelled(ranges, from, to)) == Given(ranges) && Added(Relabelled(ranges, from, to)) == Added(ranges)
  {
    if ranges != [] {
      RelabelKeepsCounts(ranges[..|ranges| - 1], from, to);
      assert Relabelled(ranges, from, to)[..|ranges| - 1] == Relabelled(ranges[..|ranges| - 1], from, to);
    }
  }

  lemma PromotesKeepsOk(s: Store, from: Backing, to: Backing)
    requires StoreOk(s) && Promotable(s.life, s.ranges, from, to)
    ensures StoreOk(Next(s, Promotes(from, to)))
    ensures Added(Next(s, Promotes(from, to)).ranges) == Added(s.ranges)
  {
    hide RangesOk, HandedOk, Promotable, LifeOk, Given, Added;
    RelabelKeepsCounts(s.ranges, from, to);
    HandedStays(s.ranges, Relabelled(s.ranges, from, to), s.handed);
    RelabelledRangesOk(s.life, s.ranges, from, to);
    hide Relabelled;
    assert Next(s, Promotes(from, to)) == s.(ranges := Relabelled(s.ranges, from, to));
  }

  lemma RelabelledRangesOk(l: Life, ranges: seq<ManagedRange>, from: Backing, to: Backing)
    requires LifeOk(l) && RangesOk(l, ranges) && Promotable(l, ranges, from, to)
    ensures RangesOk(l, Relabelled(ranges, from, to))
  {
    var r := Relabelled(ranges, from, to);
    forall i | 0 <= i < |r| ensures RangeOk(l, r[i]) {
      assert RangeOk(l, ranges[i]);
    }
    hide RangeOk, Relabelled;
  }

  lemma {:induction false} GivenOneMore(ranges: seq<ManagedRange>, i: nat, r: ManagedRange)
    requires i < |ranges| && r == ranges[i].(next := r.next) && r.next == ranges[i].next + PAGE
    ensures Given(ranges[i := r]) == Given(ranges) + 1 && Added(ranges[i := r]) == Added(ranges)
  {
    var n := |ranges| - 1;
    if i == n {
      assert ranges[i := r][..n] == ranges[..n];
    } else {
      GivenOneMore(ranges[..n], i, r);
      assert ranges[i := r][..n] == ranges[..n][i := r];
    }
  }

  /** A page that its range is about to give out was given out by no range. */
  lemma NextIsFresh(l: Life, ranges: seq<ManagedRange>, handed: seq<Word>, i: nat)
    requires RangesOk(l, ranges) && HandedOk(ranges, handed) && i < |ranges| && ranges[i].next < ranges[i].end
    ensures ranges[i].next !in handed
  {
    var r := ranges[i];
    forall k | 0 <= k < |handed| ensures handed[k] != r.next {
      assert TakenSomewhere(ranges, handed[k]);
      var j :| 0 <= j < |ranges| && TakenFrom(ranges[j], handed[k]);
      assert RangeOk(l, ranges[j]) && RangeOk(l, r);
      assert j != i ==> !Overlaps(ranges[i].base, ranges[i].end, ranges[j]);
    }
  }

  lemma GivingKeepsRanges(l: Life, ranges: seq<ManagedRange>, i: nat)
    requires RangesOk(l, ranges) && i < |ranges| && ranges[i].next < ranges[i].end
    ensures ranges[i].next + PAGE <= ranges[i].end && Sum(ranges[i].next, PAGE) == ranges[i].next + PAGE
    ensures RangesOk(l, ranges[i := ranges[i].(next := ranges[i].next + PAGE)])
  {
    assert RangeOk(l, ranges[i]);
    var q := ranges[i].(next := ranges[i].next + PAGE);
    assert RangeOk(l, q);
    hide RangeOk;
  }

  lemma HandedGrows(ranges: seq<ManagedRange>, handed: seq<Word>, i: nat, page: Word)
    requires HandedOk(ranges, handed) && i < |ranges| && TakenFrom(ranges[i], page) && page !in handed
    ensures HandedOk(ranges, handed + [page])
  {
    assert TakenSomewhere(ranges, page);
  }

  /** An allocation takes a page nobody had, from a range whose label is the backing of the page. */
  lemma AllocatesKeepsOk(s: Store)
    requires StoreOk(s) && AllocatePage(s.life, s.ranges).1.backing != Unavailable
    ensures StoreOk(Next(s, Allocates)) && Added(Next(s, Allocates).ranges) == Added(s.ranges)
    ensures var a := AllocatePage(s.life, s.ranges).1;
            a.address !in s.handed && Aligned(a.address) && BackingFor(s.life, a.address) == a.backing
  {
    hide RangesOk, HandedOk, FirstUsable, RangeOk, LifeOk, BackingFor, Given, Added;
    var b := if s.life.enabled then Ddr else Contained;
    var i := FirstUsable(s.ranges, b);
    var r := s.ranges[i];
    NextIsBacked(s.life, s.ranges, i);
    NextIsFresh(s.life, s.ranges, s.handed, i);
    GivingKeepsRanges(s.life, s.ranges, i);
    var q := r.(next := r.next + PAGE);
    GivenOneMore(s.ranges, i, q);
    HandedStays(s.ranges, s.ranges[i := q], s.handed);
    HandedGrows(s.ranges[i := q], s.handed, i, r.next);
  }

  /** The next page of a range that may be used now has the backing of its label. */
  lemma NextIsBacked(l: Life, ranges: seq<ManagedRange>, i: nat)
    requires LifeOk(l) && RangesOk(l, ranges) && i < |ranges| && ranges[i].next < ranges[i].end
    requires if l.enabled then ranges[i].backing == Ddr else l.domain == InContained && ranges[i].backing == Contained
    ensures Aligned(ranges[i].next) && ranges[i].base <= ranges[i].next
    ensures BackingFor(l, ranges[i].next) == ranges[i].backing
  {
    assert RangeOk(l, ranges[i]);
  }

  lemma StepKeepsOk(s: Store, e: Event)
    requires StoreOk(s)
    ensures StoreOk(Next(s, e)) && Next(s, e).life.contained == s.life.contained
  {
    hide StoreOk, Promotable, Addable;
    match e
    case Lives(t) =>
      LivesKeepsOk(s, t);
      ContainedStays(s, t);
    case Adds(base, size, b) =>
      if Addable(s.life, s.ranges, s.capacity, base, size, b) {
        AddsKeepsOk(s, base, size, b);
      }
    case Promotes(from, to) =>
      if Promotable(s.life, s.ranges, from, to) {
        PromotesKeepsOk(s, from, to);
      }
    case Allocates =>
      if AllocatePage(s.life, s.ranges).1.backing != Unavailable {
        AllocatesKeepsOk(s);
      }
  }

  lemma ContainedStays(s: Store, t: Transition)
    requires StoreOk(s)
    ensures Transit(s.life, t).0.contained == s.life.contained
  {
    TransitKeepsOk(s.life, t);
  }

  ghost predicate IsRun(ss: seq<Store>, es: seq<Event>) {
    && |ss| == |es| + 1 && (exists textStart :: ss[0].life == Initialized(textStart)) && ss[0].ranges == []
    && ss[0].handed == []
    && forall i :: 0 <= i < |es| ==> ss[i + 1] == Next(ss[i], es[i])
  }

  lemma {:induction false} RunsAreOk(ss: seq<Store>, es: seq<Event>, n: nat)
    requires IsRun(ss, es) && n <= |es|
    ensures StoreOk(ss[n]) && ss[n].life.contained == ss[0].life.contained
  {
    if n > 0 {
      RunsAreOk(ss, es, n - 1);
      StepKeepsOk(ss[n - 1], es[n - 1]);
    }
  }

  /** No page is handed out twice, whatever happens to memory in between. */
  lemma NoPageTwice(ss: seq<Store>, es: seq<Event>, i: nat, j: nat)
    requires IsRun(ss, es) && i < j < |ss[|es|].handed|
    ensures ss[|es|].handed[i] != ss[|es|].handed[j]
  {
    RunsAreOk(ss, es, |es|);
  }

  /** After any run the next page handed out is new and carries the backing it has at that moment. */
  lemma LabelIsBacking(ss: seq<Store>, es: seq<Event>)
    requires IsRun(ss, es)
    ensures var s := ss[|es|];
            var a := AllocatePage(s.life, s.ranges).1;
            a.backing != Unavailable ==> BackingFor(s.life, a.address) == a.backing && a.address !in s.handed
  {
    RunsAreOk(ss, es, |es|);
    var s := ss[|es|];
    if AllocatePage(s.life, s.ranges).1.backing != Unavailable {
      AllocatesKeepsOk(s);
    }
  }

  lemma RangeIsSplit(l: Life, r: ManagedRange)
    requires RangeOk(l, r)
    ensures var remaining := if r.next < r.end then (r.end - r.next) / PAGE else 0;
            (r.next - r.base) / PAGE + remaining == (r.end - r.base) / PAGE
    ensures r.backing == Contained || r.backing == Ddr
  {
    PagesBetween(r.base, r.next);
    PagesBetween(r.next, r.end);
    PagesBetween(r.base, r.end);
  }

  lemma PagesBetween(from: nat, to: nat)
    requires Aligned(from) && Aligned(to) && from <= to
    ensures (to - from) / PAGE == to / PAGE - from / PAGE
  {
    assert from == PAGE * (from / PAGE) && to == PAGE * (to / PAGE);
  }

  lemma {:induction false} RemainingAndGiven(l: Life, ranges: seq<ManagedRange>)
    requires forall i :: 0 <= i < |ranges| ==> RangeOk(l, ranges[i])
    ensures Given(ranges) + Remaining(ranges, Contained) + Remaining(ranges, Ddr) == Added(ranges)
  {
    hide RangeOk;
    if ranges != [] {
      var n := |ranges| - 1;
      RangeIsSplit(l, ranges[n]);
      RemainingAndGiven(l, ranges[..n]);
    }
  }

  /** Conservation: pages handed out and pages remaining are the pages added. */
  lemma PagesAreConserved(ss: seq<Store>, es: seq<Event>)
    requires IsRun(ss, es)
    ensures var s := ss[|es|];
            |s.handed| + Remaining(s.ranges, Contained) + Remaining(s.ranges, Ddr) == Added(s.ranges)
  {
    RunsAreOk(ss, es, |es|);
    RemainingAndGiven(ss[|es|].life, ss[|es|].ranges);
  }

  /** What was added is what the accepted `add_range` calls named. */
  lemma AddedIsTheRequests(s: Store, e: Event)
    requires StoreOk(s)
    ensures Added(Next(s, e).ranges) ==
            Added(s.ranges) +
            if e.Adds? && Addable(s.life, s.ranges, s.capacity, e.base, e.size, e.backing) then e.size / PAGE else 0
  {
    hide StoreOk, Promotable, Addable;
    match e
    case Lives(t) =>
    case Adds(base, size, b) =>
      if Addable(s.life, s.ranges, s.capacity, base, size, b) {
        AddsKeepsOk(s, base, size, b);
      }
    case Promotes(from, to) =>
      if Promotable(s.life, s.ranges, from, to) {
        PromotesKeepsOk(s, from, to);
      }
    case Allocates =>
      if AllocatePage(s.life, s.ranges).1.backing != Unavailable {
        AllocatesKeepsOk(s);
      }
  }

  /**
   * No address of the window ever becomes unavailable, in any state of any run, if the window fits the address space.
   */
  lemma WindowStaysBacked(ss: seq<Store>, es: seq<Event>, n: nat, address: Word)
    requires IsRun(ss, es) && n <= |es| && Contains(ss[0].life.contained, address)
    ensures BackingFor(ss[n].life, address) != Unavailable
  {
    RunsAreOk(ss, es, n);
    WindowIsBacked(ss[n].life, address);
  }

  // ---------------------------------------------------------------------------------------------
  // What every call yields, by the pages that remain

  /** In every state of every run the lifecycle is at one place of the bring-up order. */
  lemma {:induction false} LifeIsStaged(ss: seq<Store>, es: seq<Event>, k: nat) returns (n: nat, range: PhysicalRange)
    requires IsRun(ss, es) && k <= |es|
    ensures BringUp.Staged(n, ss[0].life.contained, range, ss[k].life)
  {
    if k == 0 {
      n, range := 0, PhysicalRange(0, 0);
    } else {
      n, range := LifeIsStaged(ss, es, k - 1);
      if es[k - 1].Lives? {
        var t := es[k - 1].transition;
        BringUp.NextIsAccepted(n, ss[0].life.contained, range, ss[k - 1].life, t);
        if BringUp.IsNext(n, ss[0].life.contained, t) {
          n, range := n + 1, if t.MarkDiscovered? then t.range else range;
        }
      }
    }
  }

  /** Ends with the same backing have it in between. */
  lemma BackedThroughout(l: Life, base: Word, end: Word, b: Backing, a: Word)
    requires Backed(l, base, end, b) && b != Unavailable && base <= a < end
    ensures BackingFor(l, a) == b
  {
  }

  predicate Within(base: int, end: int, a: int) { base <= a < end }

  /** `add_range` accepts whole pages without wrap, on addresses no range has, that all have the backing named. */
  lemma AddsExactly(s: Store, base: Word, size: Word, b: Backing)
    requires StoreOk(s)
    ensures Addable(s.life, s.ranges, s.capacity, base, size, b) <==>
              && |s.ranges| < s.capacity && b != Unavailable && 0 < size && Aligned(base) && Aligned(size)
              && base + size < TWO64
              && (forall a: Word :: base <= a < base + size ==> BackingFor(s.life, a) == b)
              && (forall i, a :: 0 <= i < |s.ranges| && Within(base, base + size, a) ==>
                    !Within(s.ranges[i].base, s.ranges[i].end, a))
  {
    hide HandedOk, Given, BackingFor;
    if 0 < size && base + size < TWO64 {
      var end := base + size;
      forall i | 0 <= i < |s.ranges|
        ensures Overlaps(base, end, s.ranges[i]) <==>
                exists a :: Within(base, end, a) && Within(s.ranges[i].base, s.ranges[i].end, a)
      {
        OverlapIsShared(s.life, base, end, s.ranges[i]);
      }
      if Backed(s.life, base, end, b) && b != Unavailable {
        forall a: Word | base <= a < end ensures BackingFor(s.life, a) == b {
          BackedThroughout(s.life, base, end, b, a);
        }
      }
    }
  }

  lemma OverlapIsShared(l: Life, base: Word, end: Word, r: ManagedRange)
    requires RangeOk(l, r) && base < end
    ensures Overlaps(base, end, r) <==> exists a :: Within(base, end, a) && Within(r.base, r.end, a)
  {
    if Overlaps(base, end, r) {
      var a := if base < r.base then r.base else base;
      assert Within(base, end, a) && Within(r.base, r.end, a);
    }
  }

  /** Once the domain is mainstore, every contained range can be relabelled: DDR covers the window. */
  lemma PromotionIsReady(ss: seq<Store>, es: seq<Event>, n: nat)
    requires IsRun(ss, es) && n <= |es| && ss[n].life.domain == Mainstore
    ensures Promotable(ss[n].life, ss[n].ranges, Contained, Ddr)
  {
    RunsAreOk(ss, es, n);
    var s := ss[n];
    forall i | 0 <= i < |s.ranges| && s.ranges[i].backing == Contained
      ensures Backed(s.life, s.ranges[i].base, s.ranges[i].end, Ddr)
    {
      assert RangeOk(s.life, s.ranges[i]);
      WindowIsBacked(s.life, s.ranges[i].base);
      WindowIsBacked(s.life, s.ranges[i].end - 1);
    }
  }

  /** Pages remain under a label exactly when some range with it can still give one. */
  lemma {:induction false} RemainingIsUsable(l: Life, ranges: seq<ManagedRange>, b: Backing)
    requires forall i :: 0 <= i < |ranges| ==> RangeOk(l, ranges[i])
    ensures Remaining(ranges, b) > 0 <==> exists i :: 0 <= i < |ranges| && Usable(ranges[i], b)
  {
    if ranges != [] {
      var n := |ranges| - 1;
      RemainingIsUsable(l, ranges[..n], b);
      if Usable(ranges[n], b) {
        assert RangeOk(l, ranges[n]);
        PagesBetween(ranges[n].next, ranges[n].end);
      }
      hide RangeOk;
      assert forall i :: 0 <= i < n ==> ranges[..n][i] == ranges[i];
    }
  }

  /** A page taken from a usable range is one page less under its label and no other. */
  lemma {:induction false} RemainingOneLess(l: Life, ranges: seq<ManagedRange>, i: nat, r: ManagedRange, b: Backing)
    requires i < |ranges| && RangeOk(l, ranges[i]) && ranges[i].next < ranges[i].end
    requires r == ranges[i].(next := r.next) && r.next == ranges[i].next + PAGE
    ensures Remaining(ranges[i := r], b) == Remaining(ranges, b) - if b == r.backing then 1 else 0
  {
    var n := |ranges| - 1;
    if i == n {
      assert ranges[i := r][..n] == ranges[..n];
      PagesBetween(ranges[i].next, ranges[i].end);
      if r.next < r.end {
        PagesBetween(r.next, r.end);
      }
    } else {
      RemainingOneLess(l, ranges[..n], i, r, b);
      assert ranges[i := r][..n] == ranges[..n][i := r];
    }
  }

  /** Where the next page comes from: DDR once enabled, contained memory before the transition, if any remains there. */
  function Source(l: Life, ranges: seq<ManagedRange>): Backing {
    if l.enabled && Remaining(ranges, Ddr) > 0 then Ddr
    else if !l.enabled && l.domain == InContained && Remaining(ranges, Contained) > 0 then Contained
    else Unavailable
  }

  lemma AllocateFromIsExact(l: Life, ranges: seq<ManagedRange>, b: Backing, c: Backing)
    requires RangesOk(l, ranges) && b != Unavailable
    ensures var (ranges', a) := AllocateFrom(ranges, b);
            && a.backing == (if Remaining(ranges, b) > 0 then b else Unavailable)
            && (a.backing == Unavailable ==> ranges' == ranges)
            && Remaining(ranges', c) == Remaining(ranges, c) - if a.backing == c != Unavailable then 1 else 0
  {
    RemainingIsUsable(l, ranges, b);
    var i := FirstUsable(ranges, b);
    if i < |ranges| {
      GivingKeepsRanges(l, ranges, i);
      RemainingOneLess(l, ranges, i, ranges[i].(next := ranges[i].next + PAGE), c);
    }
  }

  /** An allocation yields a page exactly when one remains where it may come from; nothing else is taken. */
  lemma AllocatesExactly(s: Store, c: Backing)
    requires StoreOk(s)
    ensures AllocatePage(s.life, s.ranges).1.backing == Source(s.life, s.ranges)
    ensures Source(s.life, s.ranges) == Unavailable ==> Next(s, Allocates) == s
    ensures Remaining(Next(s, Allocates).ranges, c) ==
            Remaining(s.ranges, c) - if c == Source(s.life, s.ranges) != Unavailable then 1 else 0
  {
    hide AllocateFrom, HandedOk, Given, RangesOk;
    AllocateFromIsExact(s.life, s.ranges, Ddr, c);
    AllocateFromIsExact(s.life, s.ranges, Contained, c);
  }

  lemma {:induction false} RemainingMoves(ranges: seq<ManagedRange>, from: Backing, to: Backing, c: Backing)
    requires from != to
    ensures Remaining(Relabelled(ranges, from, to), c) ==
            if c == from then 0 else Remaining(ranges, c) + if c == to then Remaining(ranges, from) else 0
  {
    if ranges != [] {
      RemainingMoves(ranges[..|ranges| - 1], from, to, c);
      var n, moved := |ranges| - 1, Relabelled(ranges, from, to);
      assert moved[..n] == Relabelled(ranges[..n], from, to);
      LeftMoves(ranges[n], moved[n], from, to, c);
      hide Left, Relabelled;
    }
  }

  lemma LeftMoves(r: ManagedRange, q: ManagedRange, from: Backing, to: Backing, c: Backing)
    requires from != to && q == if r.backing == from then r.(backing := to) else r
    ensures Left(q, c) == if c == from then 0 else Left(r, c) + if c == to then Left(r, from) else 0
  {
  }

  /** The pages remaining under each label after every kind of step. */
  lemma RemainingIsExact(s: Store, e: Event, c: Backing)
    requires StoreOk(s) && c != Unavailable
    ensures Remaining(Next(s, e).ranges, c) ==
            match e
            case Lives(_) => Remaining(s.ranges, c)
            case Adds(base, size, b) =>
              Remaining(s.ranges, c) +
              if Addable(s.life, s.ranges, s.capacity, base, size, b) && b == c then size / PAGE else 0
            case Promotes(from, to) =>
              if !Promotable(s.life, s.ranges, from, to) then Remaining(s.ranges, c)
              else if c == from then 0
              else Remaining(s.ranges, c) + if c == to then Remaining(s.ranges, from) else 0
            case Allocates => Remaining(s.ranges, c) - if c == Source(s.life, s.ranges) then 1 else 0
  {
    hide StoreOk, Promotable, Addable;
    match e
    case Lives(_) =>
    case Adds(base, size, b) =>
      if Addable(s.life, s.ranges, s.capacity, base, size, b) {
        AddedFits(s, base, size, b);
        var t := s.ranges + [ManagedRange(base, base, Sum(base, size), b)];
        assert t[..|s.ranges|] == s.ranges;
      }
    case Promotes(from, to) =>
      if Promotable(s.life, s.ranges, from, to) {
        PromotableFacts(s.life, s.ranges, from, to);
        RemainingMoves(s.ranges, from, to, c);
      }
    case Allocates =>
      AllocatesExactly(s, c);
  }

  lemma AddedFits(s: Store, base: Word, size: Word, b: Backing)
    requires Addable(s.life, s.ranges, s.capacity, base, size, b)
    ensures Sum(base, size) == base + size > base
  {
  }

  lemma PromotableFacts(l: Life, ranges: seq<ManagedRange>, from: Backing, to: Backing)
    requires Promotable(l, ranges, from, to)
    ensures from != to
  {
  }

  /** After any run: a page comes out if and only if one remains in the memory that may be used at that stage. */
  lemma PageIsAvailableExactly(ss: seq<Store>, es: seq<Event>)
    requires IsRun(ss, es)
    ensures var s := ss[|es|];
            AllocatePage(s.life, s.ranges).1.backing != Unavailable <==>
            (if s.life.enabled then Remaining(s.ranges, Ddr) > 0
             else s.life.domain == InContained && Remaining(s.ranges, Contained) > 0)
  {
    RunsAreOk(ss, es, |es|);
    AllocatesExactly(ss[|es|], Ddr);
  }
}
