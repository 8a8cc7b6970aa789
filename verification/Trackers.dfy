/**
 * The tracker forest in place: parent pointers, first-child pointers and doubly linked sibling lists.
 * The kernel's own list of roots is kept as the list behind the last slot.
 */
module Trackers {
  import opened Base
  import opened Lists
  import opened Machine
  import opened Forest

  /** The sibling list a parent stands for; `n` is the number of slots. */
  function ListOf(parent: int, n: nat): int { if parent == NIL then n else parent }

  ghost predicate ListsOk(previous: seq<int>, next: seq<int>, first: seq<int>, roots: int, kids: seq<seq<int>>) {
    && |first| == |previous| && |kids| == |first| + 1 && Threads(previous, next, kids)
    && (forall r :: 0 <= r < |first| ==> first[r] == First(kids[r])) && roots == First(kids[|first|])
  }

  /** `c` is an attached tracker in use whose parent owns the list `p`. */
  ghost predicate KidAt(used: seq<bool>, records: seq<Tracker>, floating: set<int>, p: int, c: int)
    requires |records| == |used|
  {
    && 0 <= c < |used| && used[c] && c !in floating && -1 <= records[c].parent < |used|
    && p == ListOf(records[c].parent, |used|)
  }

  ghost predicate Hangs(records: seq<Tracker>, kids: seq<seq<int>>, r: int)
    requires 0 <= r < |records| == |kids| - 1
  {
    -1 <= records[r].parent < |records| && r in kids[ListOf(records[r].parent, |records|)]
  }

  /**
   * The sibling lists hold exactly the trackers in use, each under its parent; only the trackers in
   * `floating`, which are being removed, hang nowhere.
   */
  ghost predicate KidsOk(used: seq<bool>, records: seq<Tracker>, kids: seq<seq<int>>, floating: set<int>) {
    && |records| == |used| && |kids| == |used| + 1
    && (forall p, i {:trigger kids[p][i]} :: 0 <= p < |kids| && 0 <= i < |kids[p]| ==>
          KidAt(used, records, floating, p, kids[p][i]))
    && (forall r :: 0 <= r < |used| && used[r] && r !in floating ==> Hangs(records, kids, r))
    && (forall r :: 0 <= r < |used| && !used[r] ==> kids[r] == [])
  }

  /** The forest as a map from the slots in use. */
  ghost function ForestOf(used: seq<bool>, records: seq<Tracker>): map<int, Tracker>
  {
    map r | 0 <= r < |used| && r < |records| && used[r] :: records[r]
  }

  lemma LinkKids(used: seq<bool>, records: seq<Tracker>, kids: seq<seq<int>>, floating: set<int>, t: int, parent: int)
    requires KidsOk(used, records, kids, floating) && 0 <= t < |used| && used[t] && t in floating
    requires parent == NIL || (0 <= parent < |used| && used[parent])
    ensures InNone(kids, t)
    ensures var h := ListOf(parent, |used|);
            KidsOk(used, records[t := records[t].(parent := parent)], kids[h := Inserted(kids[h], 0, t)],
                   floating - {t})
  {
    var h := ListOf(parent, |used|);
    var kids' := kids[h := Inserted(kids[h], 0, t)];
    var records' := records[t := records[t].(parent := parent)];
    assert InNone(kids, t);
    forall p, i | 0 <= p < |kids'| && 0 <= i < |kids'[p]|
      ensures KidAt(used, records', floating - {t}, p, kids'[p][i])
    {
      var c := if p != h then kids[p][i] else if i > 0 then kids[p][i - 1] else t;
      assert kids'[p][i] == c;
      assert c != t ==> KidAt(used, records, floating, p, c);
    }
    forall r | 0 <= r < |used| && used[r] && r !in floating - {t} ensures Hangs(records', kids', r) {
      if r == t {
        assert kids'[h][0] == t;
      } else {
        assert Hangs(records, kids, r);
        if r in kids[h] {
          InsertedKeeps(kids[h], 0, t, r);
        }
      }
    }
  }

  lemma InsertedKeeps(q: seq<int>, k: nat, t: int, r: int)
    requires k <= |q| && r in q
    ensures r in Inserted(q, k, t)
  {
    var i :| 0 <= i < |q| && q[i] == r;
    assert Inserted(q, k, t)[if i < k then i else i + 1] == r;
  }

  lemma UnlinkKids(used: seq<bool>, records: seq<Tracker>, kids: seq<seq<int>>, floating: set<int>,
                   t: int) returns (k: nat)
    requires KidsOk(used, records, kids, floating) && 0 <= t < |used| && used[t] && t !in floating
    requires forall p :: 0 <= p < |kids| ==> Distinct(kids[p])
    ensures -1 <= records[t].parent < |used|
    ensures var h := ListOf(records[t].parent, |used|);
            && k < |kids[h]| && kids[h][k] == t
            && KidsOk(used, records, kids[h := Without(kids[h], k)], floating + {t})
  {
    var h := ListOf(records[t].parent, |used|);
    assert Hangs(records, kids, t);
    k :| 0 <= k < |kids[h]| && kids[h][k] == t;
    var kids' := kids[h := Without(kids[h], k)];
    forall p, i | 0 <= p < |kids'| && 0 <= i < |kids'[p]| ensures KidAt(used, records, floating + {t}, p, kids'[p][i]) {
      var j := if p == h && i >= k then i + 1 else i;
      assert kids'[p][i] == kids[p][j];
      assert KidAt(used, records, floating, p, kids[p][j]);
    }
    forall r | 0 <= r < |used| && used[r] && r !in floating + {t} ensures Hangs(records, kids', r) {
      assert Hangs(records, kids, r);
      WithoutKeeps(kids[h], k, r);
    }
  }

  lemma WithoutKeeps(q: seq<int>, k: nat, r: int)
    requires k < |q| && r != q[k]
    ensures r in q ==> r in Without(q, k)
  {
    if r in q {
      var i :| 0 <= i < |q| && q[i] == r;
      assert Without(q, k)[if i < k then i else i - 1] == r;
    }
  }

  lemma LinkFacts(previous: seq<int>, next: seq<int>, first: seq<int>, roots: int, kids: seq<seq<int>>, used: seq<bool>,
                  records: seq<Tracker>, floating: set<int>)
    requires ListsOk(previous, next, first, roots, kids) && KidsOk(used, records, kids, floating)
    ensures |first| == |previous| == |next| == |used| == |records| && |kids| == |used| + 1
    ensures forall p {:trigger kids[p]} :: 0 <= p < |kids| ==> -1 <= First(kids[p]) < |used|
    ensures roots == First(kids[|used|]) && forall r :: 0 <= r < |used| ==> first[r] == First(kids[r])
    ensures forall p :: 0 <= p < |kids| ==> Distinct(kids[p])
  {
  }

  lemma LinkLists(previous: seq<int>, next: seq<int>, first: seq<int>, roots: int, kids: seq<seq<int>>, h: int, t: int)
    requires ListsOk(previous, next, first, roots, kids) && 0 <= h < |kids| && 0 <= t < |first| && InNone(kids, t)
    ensures First(kids[h]) != t && -1 <= First(kids[h]) < |previous| == |next|
    ensures ListsOk(Spliced(previous, First(kids[h]), t, NIL), Spliced(next, NIL, t, First(kids[h])),
                    if h == |first| then first else first[h := t], if h == |first| then t else roots,
                    kids[h := Inserted(kids[h], 0, t)])
  {
    SpliceThreads(previous, next, kids, h, 0, t);
    hide Threads, Spliced;
  }

  lemma UnlinkLists(previous: seq<int>, next: seq<int>, first: seq<int>, roots: int, kids: seq<seq<int>>, h: int,
                    k: nat)
    requires ListsOk(previous, next, first, roots, kids) && 0 <= h < |kids| && k < |kids[h]|
    ensures var t := kids[h][k];
            && 0 <= t < |next| && -1 <= previous[t] < |next| && -1 <= next[t] < |next| == |previous|
            && ListsOk(Cut(previous, next[t], t, previous[t]), Cut(next, previous[t], t, next[t]),
                       if h == |first| || previous[t] != NIL then first else first[h := next[t]],
                       if h == |first| && previous[t] == NIL then next[t] else roots,
                       kids[h := Without(kids[h], k)])
  {
    assert |next| == |previous|;
    hide Threads, Cut, Without, At;
    CutThreads(previous, next, kids, h, k);
    NoNil(previous, next, kids, h);
    CutFirst(kids[h], k);
  }

  /** The head of a list without its entry `k`. */
  lemma CutFirst(q: seq<int>, k: nat)
    requires k < |q| && forall i :: 0 <= i < |q| ==> 0 <= q[i]
    ensures At(q, k - 1) == NIL <==> k == 0
    ensures First(Without(q, k)) == if k == 0 then At(q, k + 1) else First(q)
  {
  }

  lemma NoNil(previous: seq<int>, next: seq<int>, qs: seq<seq<int>>, h: int)
    requires Threads(previous, next, qs) && 0 <= h < |qs|
    ensures forall i :: 0 <= i < |qs[h]| ==> 0 <= qs[h][i]
  {
    assert Chain(previous, next, qs[h]);
  }

  lemma NoNils(previous: seq<int>, next: seq<int>, qs: seq<seq<int>>)
    requires Threads(previous, next, qs)
    ensures |previous| == |next| && forall h :: 0 <= h < |qs| ==> (First(qs[h]) == NIL <==> qs[h] == [])
  {
    forall h | 0 <= h < |qs| ensures First(qs[h]) == NIL <==> qs[h] == [] {
      NoNil(previous, next, qs, h);
    }
  }

  lemma ReleaseKids(used: seq<bool>, records: seq<Tracker>, kids: seq<seq<int>>, floating: set<int>, t: int)
    requires KidsOk(used, records, kids, floating) && 0 <= t < |used| && t in floating && kids[t] == []
    ensures |records| == |used| && KidsOk(used[t := false], records[t := BLANK_TRACKER], kids, floating - {t})
  {
    var used', records' := used[t := false], records[t := BLANK_TRACKER];
    forall p, i | 0 <= p < |kids| && 0 <= i < |kids[p]| ensures KidAt(used', records', floating - {t}, p, kids[p][i]) {
      assert KidAt(used, records, floating, p, kids[p][i]);
    }
    forall r | 0 <= r < |used| && used'[r] && r !in floating - {t} ensures Hangs(records', kids, r) {
      assert Hangs(records, kids, r);
    }
  }

  lemma WriteKids(used: seq<bool>, records: seq<Tracker>, kids: seq<seq<int>>, floating: set<int>, t: int, v: Tracker)
    requires KidsOk(used, records, kids, floating) && 0 <= t < |used| == |records| && v.parent == records[t].parent
    ensures KidsOk(used, records[t := v], kids, floating)
  {
    forall p, i | 0 <= p < |kids| && 0 <= i < |kids[p]| ensures KidAt(used, records[t := v], floating, p, kids[p][i]) {
      assert KidAt(used, records, floating, p, kids[p][i]);
    }
    forall r | 0 <= r < |used| && used[r] && r !in floating ensures Hangs(records[t := v], kids, r) {
      assert Hangs(records, kids, r);
    }
  }

  lemma AllocateKids(used: seq<bool>, records: seq<Tracker>, kids: seq<seq<int>>, t: int)
    requires KidsOk(used, records, kids, {}) && 0 <= t < |used| && !used[t]
    ensures |records| == |used| && KidsOk(used[t := true], records[t := BLANK_TRACKER], kids, {t})
    ensures t < |kids| && kids[t] == []
  {
    var used', records' := used[t := true], records[t := BLANK_TRACKER];
    forall p, i | 0 <= p < |kids| && 0 <= i < |kids[p]| ensures KidAt(used', records', {t}, p, kids[p][i]) {
      assert KidAt(used, records, {}, p, kids[p][i]);
    }
    forall r | 0 <= r < |used| && used'[r] && r !in {t} ensures Hangs(records', kids, r) {
      assert Hangs(records, kids, r);
    }
  }

  const BLANK_TRACKER := Tracker(NIL, 0, NIL, ExitedClean, 0, false, 0)

  class TrackerTable {
    const used: array<bool>
    const records: array<Tracker>
    const firstChild: array<int>
    const previousSibling: array<int>
    const nextSibling: array<int>
    var roots: int
    ghost var kids: seq<seq<int>>

    ghost predicate Valid(floating: set<int>)
      reads this, used, records, firstChild, previousSibling, nextSibling
    {
      && firstChild != previousSibling && firstChild != nextSibling && previousSibling != nextSibling
      && ListsOk(previousSibling[..], nextSibling[..], firstChild[..], roots, kids)
      && KidsOk(used[..], records[..], kids, floating)
    }

    ghost function Forest(): map<int, Tracker>
      reads this, used, records
    {
      ForestOf(used[..], records[..])
    }

    constructor (slots: nat)
      ensures Valid({}) && used.Length == slots && records.Length == slots && Forest() == map[]
      ensures fresh(used) && fresh(records) && fresh(firstChild) && fresh(previousSibling) && fresh(nextSibling)
    {
      used := new bool[slots](i => false);
      records := new Tracker[slots](i => BLANK_TRACKER);
      firstChild := new int[slots](i => NIL);
      previousSibling := new int[slots](i => NIL);
      nextSibling := new int[slots](i => NIL);
      roots := NIL;
      kids := seq(slots + 1, i => []);
    }

    /** Hangs `t` in front of the children of `parent`. */
    method LinkTracker(t: int, parent: int, ghost floating: set<int>)
      requires Valid(floating) && 0 <= t < used.Length && used[t] && t in floating
      requires parent == NIL || (0 <= parent < used.Length && used[parent])
      modifies this`roots, this`kids, records, firstChild, previousSibling, nextSibling
      ensures Valid(floating - {t}) && records.Length == used.Length
      ensures records[..] == old(records[..])[t := old(records[t]).(parent := parent)]
      ensures var h := ListOf(parent, used.Length);
              h < |old(kids)| && kids == old(kids)[h := Inserted(old(kids)[h], 0, t)]
    {
      ghost var h := ListOf(parent, used.Length);
      hide ListsOk, KidsOk;
      LinkFacts(previousSibling[..], nextSibling[..], firstChild[..], roots, kids, used[..], records[..], floating);
      LinkKids(used[..], records[..], kids, floating, t, parent);
      LinkLists(previousSibling[..], nextSibling[..], firstChild[..], roots, kids, h, t);

      records[t] := records[t].(parent := parent);
      var first := if parent == NIL then roots else firstChild[parent];
      Link(previousSibling, nextSibling, NIL, first, t);
      if parent == NIL {
        roots := t;
      } else {
        firstChild[parent] := t;
      }
      kids := kids[h := Inserted(kids[h], 0, t)];
      assert records[..] == old(records[..])[t := old(records[t]).(parent := parent)];
      assert firstChild[..] == if parent == NIL then old(firstChild[..]) else old(firstChild[..])[parent := t];
    }

    /** Takes `t` out of its sibling list. */
    method UnlinkTracker(t: int, ghost floating: set<int>)
      requires Valid(floating) && 0 <= t < used.Length && used[t] && t !in floating && records.Length == used.Length
      modifies this`roots, this`kids, firstChild, previousSibling, nextSibling
      ensures Valid(floating + {t}) && -1 <= records[t].parent < used.Length
      ensures var h := ListOf(records[t].parent, used.Length);
              && h < |old(kids)| && |kids| == |old(kids)|
              && (exists k {:trigger Without(old(kids)[h], k)} :: 0 <= k < |old(kids)[h]| && old(kids)[h][k] == t
                    && kids == old(kids)[h := Without(old(kids)[h], k)])
    {
      hide ListsOk, KidsOk;
      LinkFacts(previousSibling[..], nextSibling[..], firstChild[..], roots, kids, used[..], records[..], floating);
      ghost var k := UnlinkKids(used[..], records[..], kids, floating, t);
      var parent := records[t].parent;
      ghost var h := ListOf(parent, used.Length);
      UnlinkLists(previousSibling[..], nextSibling[..], firstChild[..], roots, kids, h, k);

      if previousSibling[t] == NIL {
        if parent == NIL {
          roots := nextSibling[t];
        } else {
          firstChild[parent] := nextSibling[t];
        }
      }
      Unlink(previousSibling, nextSibling, t);
      kids := kids[h := Without(kids[h], k)];
      assert firstChild[..] ==
        if parent == NIL || old(previousSibling[t]) != NIL then old(firstChild[..])
        else old(firstChild[..])[parent := old(nextSibling[t])];
    }

    /** Gives the slot of a childless floating tracker back. */
    method ReleaseTracker(t: int, ghost floating: set<int>)
      requires Valid(floating) && 0 <= t < used.Length && t in floating && t < |kids| && kids[t] == []
      requires records.Length == used.Length
      modifies used, records
      ensures Valid(floating - {t}) && Forest() == old(Forest()) - {t}
    {
      hide ListsOk, KidsOk;
      ReleaseKids(used[..], records[..], kids, floating, t);
      records[t] := BLANK_TRACKER;
      used[t] := false;
      assert records[..] == old(records[..])[t := BLANK_TRACKER];
      assert used[..] == old(used[..])[t := false];
    }

    /** Rewrites a record without moving the tracker. */
    method WriteTracker(t: int, v: Tracker, ghost floating: set<int>)
      requires Valid(floating) && 0 <= t < used.Length == records.Length && used[t] && v.parent == records[t].parent
      modifies records
      ensures Valid(floating) && Forest() == old(Forest())[t := v]
    {
      hide ListsOk, KidsOk;
      WriteKids(used[..], records[..], kids, floating, t, v);
      records[t] := v;
      assert records[..] == old(records[..])[t := v];
    }

    /** The lowest free slot, now in use and hanging nowhere, or `NIL` when the table is full. */
    method AllocateTracker() returns (t: int)
      requires Valid({}) && records.Length == used.Length
      modifies used, records
      ensures t == NIL <==> FreeTracker(old(Forest()), used.Length, 0) == used.Length
      ensures t == NIL ==> Valid({}) && Forest() == old(Forest())
      ensures t != NIL ==>
                && t == FreeTracker(old(Forest()), used.Length, 0) && t !in old(Forest()) && 0 <= t < used.Length
                && used[t]
                && Valid({t}) && Forest() == old(Forest())[t := BLANK_TRACKER] && t < |kids| && kids[t] == []
    {
      hide ListsOk, KidsOk;
      ghost var f := Forest();
      t := 0;
      while t < used.Length
        invariant 0 <= t <= used.Length && forall j :: 0 <= j < t ==> j in f
      {
        if !used[t] {
          assert t !in f && FreeTracker(f, used.Length, 0) == t;
          AllocateKids(used[..], records[..], kids, t);
          used[t] := true;
          records[t] := BLANK_TRACKER;
          assert records[..] == old(records[..])[t := BLANK_TRACKER];
          assert used[..] == old(used[..])[t := true];
          return;
        }
        t := t + 1;
      }
      t := NIL;
    }

    /** The trackers that are in use and hang somewhere. */
    ghost function Attached(floating: set<int>): set<int>
      reads used
    {
      set r | 0 <= r < used.Length && used[r] && r !in floating
    }

    lemma TableFacts(floating: set<int>)
      requires Valid(floating)
      ensures used.Length == records.Length == firstChild.Length == previousSibling.Length == nextSibling.Length
      ensures |kids| == used.Length + 1
      ensures forall r :: 0 <= r < used.Length ==>
                firstChild[r] == First(kids[r]) && (firstChild[r] == NIL <==> kids[r] == [])
      ensures forall r, i :: 0 <= r < used.Length && 0 <= i < |kids[r]| ==>
                && 0 <= kids[r][i] < used.Length && used[kids[r][i]] && kids[r][i] !in floating
                && records[kids[r][i]].parent == r
      ensures forall r :: 0 <= r < used.Length && used[r] && r !in floating && 0 <= records[r].parent < used.Length ==>
                r in kids[records[r].parent]
    {
      hide Threads;
      NoNils(previousSibling[..], nextSibling[..], kids);
      assert forall r :: 0 <= r < used.Length ==> firstChild[..][r] == firstChild[r];
      assert forall r, i :: 0 <= r < used.Length && 0 <= i < |kids[r]| ==>
               KidAt(used[..], records[..], floating, r, kids[r][i]);
      assert forall r :: 0 <= r < used.Length && used[..][r] && r !in floating ==> Hangs(records[..], kids, r);
    }

    /** Moves the first child of the floating tracker `t` to `newParent`. */
    method AdoptChild(t: int, newParent: int, ghost floating: set<int>) returns (c: int)
      requires Valid(floating) && 0 <= t < used.Length == records.Length && t in floating && t < |kids| && kids[t] != []
      requires newParent == NIL || (0 <= newParent < used.Length && used[newParent] && newParent !in floating)
      modifies this`roots, this`kids, records, firstChild, previousSibling, nextSibling
      ensures Valid(floating) && 0 <= c < used.Length && used[c] && c !in floating && c == old(kids)[t][0]
      ensures old(records[c]).parent == t && c in old(Forest()) && records[c] == old(records[c]).(parent := newParent)
      ensures Forest() == old(Forest())[c := old(Forest())[c].(parent := newParent)]
      ensures |kids| == |old(kids)| && |kids[t]| < |old(kids)[t]|
      ensures forall r :: r in floating && r != t && 0 <= r < used.Length && r < |kids| ==> kids[r] == old(kids)[r]
    {
      hide Valid;
      TableFacts(floating);
      c := firstChild[t];
      UnlinkTracker(c, floating);
      TableFacts(floating + {c});
      LinkTracker(c, newParent, floating + {c});
      assert floating + {c} - {c} == floating;
    }

    /**
     * Frees `t`, hands its children to its parent and, when that is the kernel, frees the completed
     * ones too; `parked` when one of those had crashed.
     */
    method RemoveTracker(t: int, ghost floating: set<int>) returns (parked: bool)
      requires Valid(floating) && records.Length == used.Length && 0 <= t < used.Length && used[t] && t !in floating
      requires Rooted(Forest()) && records[t].parent !in floating
      requires forall r :: r in floating ==> 0 <= r < used.Length && used[r] && records[r].parent == NIL
      modifies this`roots, this`kids, used, records, firstChild, previousSibling, nextSibling
      ensures parked <==> CrashedOrphan(old(Forest()), t)
      ensures !parked ==> Valid(floating) && Forest() == Reap(old(Forest()), t)
      ensures !parked ==> |kids| == |old(kids)| && forall r :: r in floating && r < |kids| ==> kids[r] == old(kids)[r]
      decreases Attached(floating), 0
    {
      hide Valid, Reap, CrashedOrphan;
      TableFacts(floating);
      ghost var f := Forest();
      assert f[t] == records[t] && NIL !in f;
      var newParent := records[t].parent;
      UnlinkTracker(t, floating);
      ghost var F := floating + {t};
      TableFacts(F);
      assert t in Attached(floating) && t !in Attached(F) && Attached(F) <= Attached(floating);
      assert Suspended(F, t, kids);
      parked := EmptyTracker(t, newParent, F, f);
      if !parked {
        TableFacts(F);
        ReapLeaf(Forest(), t);
        ReleaseTracker(t, F);
        assert F - {t} == floating;
      }
    }

    /** The trackers of `F` are being removed; all but `t` hang from the kernel, and none of their lists has changed. */
    ghost predicate Suspended(F: set<int>, t: int, lists: seq<seq<int>>)
      requires records.Length == used.Length
      reads this, used, records
    {
      |kids| == |lists| == used.Length + 1 &&
      forall r :: r in F && r != t ==> r in Forest() && Forest()[r].parent == NIL && kids[r] == lists[r]
    }

    /** The loop: the children of the floating tracker `t` move to its former parent, or go too. */
    method EmptyTracker(t: int, newParent: int, ghost F: set<int>, ghost f: map<int, Tracker>) returns (parked: bool)
      requires Valid(F) && records.Length == used.Length && 0 <= t < used.Length && used[t] && t in F
      requires f == Forest() && Rooted(f) && records[t].parent == newParent && newParent !in F && Suspended(F, t, kids)
      modifies this`roots, this`kids, used, records, firstChild, previousSibling, nextSibling
      ensures parked ==> CrashedOrphan(f, t)
      ensures !parked ==>
                && Valid(F) && Suspended(F, t, old(kids)) && kids[t] == [] && t in Forest() && Rooted(Forest())
                && Reap(Forest(), t) == Reap(f, t) && (CrashedOrphan(Forest(), t) <==> CrashedOrphan(f, t))
      decreases Attached(F), 2
    {
      hide Valid, Reap, CrashedOrphan;
      TableFacts(F);
      parked := false;
      while firstChild[t] != NIL
        invariant Valid(F) && Suspended(F, t, old(kids))
        invariant firstChild.Length == used.Length && (firstChild[t] == NIL <==> kids[t] == [])
        invariant t in Forest() && Forest()[t] == f[t] && Rooted(Forest())
        invariant Reap(Forest(), t) == Reap(f, t) && (CrashedOrphan(Forest(), t) <==> CrashedOrphan(f, t))
        invariant Attached(F) <= old(Attached(F))
        decreases |kids[t]|
      {
        parked := EmptyOne(t, newParent, F);
        if parked {
          return;
        }
        TableFacts(F);
      }
    }

    /** One child of the floating tracker `t` moves to `newParent`; a completed child of the kernel goes too. */
    method EmptyOne(t: int, newParent: int, ghost F: set<int>) returns (parked: bool)
      requires Valid(F) && records.Length == used.Length && 0 <= t < used.Length && used[t] && t in F
      requires Rooted(Forest())
      requires records[t].parent == newParent && newParent !in F && Suspended(F, t, kids) && kids[t] != []
      modifies this`roots, this`kids, used, records, firstChild, previousSibling, nextSibling
      ensures parked ==> CrashedOrphan(old(Forest()), t)
      ensures !parked ==>
                && Valid(F) && Suspended(F, t, old(kids)) && |kids[t]| < |old(kids)[t]|
                && Attached(F) <= old(Attached(F))
                && t in Forest() && Forest()[t] == old(Forest())[t] && Rooted(Forest())
                && Reap(Forest(), t) == Reap(old(Forest()), t)
                && (CrashedOrphan(Forest(), t) <==> CrashedOrphan(old(Forest()), t))
      decreases Attached(F), 1
    {
      hide Valid, Reap, CrashedOrphan;
      ghost var g, before := Forest(), Attached(F);
      assert g[t] == records[t];
      var c := AdoptChild(t, newParent, F);
      parked := false;
      if newParent == NIL && records[c].task == NIL {
        ReapChildFirst(g, t, c);
        if records[c].status == Crashed {
          return true;
        }
        ghost var g' := Forest();
        forall r | r in F ensures r in Reap(g', c) && Reap(g', c)[r] == g'[r] {
          RootsSurvive(g', c, r);
        }
        ReapShrinks(g', c);
        parked := RemoveTracker(c, F);
        if !parked {
          forall r | r in Attached(F) ensures r in before {
            assert r in Forest() && r in g' && r in g;
          }
        }
      } else {
        assert !Doomed(g, t, c);
        ReparentSurvivor(g, t, c);
      }
    }

    /** The position of a list member, and where its sibling link leads. */
    lemma SiblingFacts(p: int, i: nat)
      requires Valid({}) && 0 <= p < used.Length && p < |kids| && i < |kids[p]|
      ensures 0 <= kids[p][i] < used.Length == nextSibling.Length == records.Length
      ensures nextSibling[kids[p][i]] == At(kids[p], i + 1)
      ensures kids[p][i] in Forest() && IsChild(Forest(), p, kids[p][i]) && Forest()[kids[p][i]] == records[kids[p][i]]
    {
      TableFacts({});
      assert Chain(previousSibling[..], nextSibling[..], kids[p]);
      assert nextSibling[..][kids[p][i]] == nextSibling[kids[p][i]];
    }

    /** Every child of `p` is in its list. */
    lemma ChildFacts(p: int, c: int)
      requires Valid({}) && records.Length == used.Length && 0 <= p < used.Length && p < |kids|
      requires IsChild(Forest(), p, c)
      ensures c in kids[p] && 0 <= c < used.Length && Forest()[c] == records[c]
    {
      TableFacts({});
    }

    /** A child of `p` that a wait for `tid` concerns: for a negative `tid` a completed one if there is one. */
    method FindChild(p: int, tid: int) returns (pick: int)
      requires Valid({}) && records.Length == used.Length && 0 <= p < used.Length && p < |kids|
      requires firstChild.Length == used.Length
      ensures ChildFound(Forest(), p, tid, pick)
    {
      hide Valid;
      TableFacts({});
      ghost var q, i := kids[p], 0;
      pick := firstChild[p];
      while pick != NIL
        invariant 0 <= i <= |q| && pick == At(q, i) && nextSibling.Length == used.Length
        invariant pick != NIL ==> 0 <= pick < used.Length && i < |q|
        invariant pick == NIL ==> i == |q|
        invariant forall j :: 0 <= j < i ==> if tid >= 0 then records[q[j]].key != tid else records[q[j]].task != NIL
        decreases |q| - i
      {
        SiblingFacts(p, i);
        if (if tid >= 0 then records[pick].key == tid else records[pick].task == NIL) {
          return;
        }
        pick := nextSibling[pick];
        i := i + 1;
        if i < |q| {
          SiblingFacts(p, i);
        }
      }
      forall c | IsChild(Forest(), p, c) ensures if tid >= 0 then Forest()[c].key != tid else Forest()[c].task != NIL {
        ChildFacts(p, c);
      }
      if tid < 0 {
        pick := firstChild[p];
        if q != [] {
          SiblingFacts(p, 0);
        } else {
          forall c ensures !IsChild(Forest(), p, c) {
            if IsChild(Forest(), p, c) {
              ChildFacts(p, c);
            }
          }
        }
      }
    }
  }
}
