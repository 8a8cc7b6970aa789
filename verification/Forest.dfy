/**
 * The tracker forest as a parent relation: what `remove_tracker_locked` keeps, whom it frees, and
 * who adopts the survivors.
 */
module Forest {
  import opened Base
  import opened Machine

  /** Every tracker hangs from the kernel or from an older tracker, so the forest has no cycle. */
  ghost predicate Rooted(f: map<int, Tracker>) {
    && NIL !in f
    && forall r :: r in f ==> f[r].parent == NIL || (f[r].parent in f && f[f[r].parent].key < f[r].key)
  }

  /** No completed tracker hangs from the kernel, except possibly one that is about to be removed. */
  ghost predicate NoOrphans(f: map<int, Tracker>, except: int) {
    forall r :: r in f && r != except && f[r].parent == NIL ==> f[r].task != NIL
  }

  ghost predicate DistinctKeys(f: map<int, Tracker>) {
    forall r, q :: r in f && q in f && r != q ==> f[r].key != f[q].key
  }

  /** The completed children of a freed tracker of a root target are freed too. */
  ghost predicate ClosedUnderOrphans(f: map<int, Tracker>, freed: set<int>) {
    forall d :: d in f && f[d].parent in freed && f[d].task == NIL ==> d in freed
  }

  /**
   * Whom `remove_tracker_locked` frees: only the target when it has a parent; otherwise the smallest
   * set that contains the target and the completed children of its members.
   */
  lemma {:induction false} DoomedIsLeast(f: map<int, Tracker>, t: int, d: int, freed: set<int>)
    requires Rooted(f) && t in f && d in f && t in freed
    requires f[t].parent == NIL ==> ClosedUnderOrphans(f, freed)
    ensures Doomed(f, t, d) ==> d in freed && (d == t || (f[t].parent == NIL && f[d].task == NIL))
    ensures f[t].parent == NIL && f[d].task == NIL && Doomed(f, t, f[d].parent) ==> Doomed(f, t, d)
    decreases f[d].key
  {
    if d != t && Doomed(f, t, d) {
      DoomedIsLeast(f, t, f[d].parent, freed);
    }
  }

  /** The closest ancestor of `d`, starting with `d` itself, that is not freed. */
  function NearestSurvivor(f: map<int, Tracker>, t: int, d: int): int
    decreases if d in f then f[d].key + 1 else 0
  {
    if d !in f || !Doomed(f, t, d) then d
    else if f[d].parent in f && f[f[d].parent].key >= f[d].key then NIL
    else NearestSurvivor(f, t, f[d].parent)
  }

  lemma {:induction false} DoomedChainEndsAtTarget(f: map<int, Tracker>, t: int, d: int)
    requires Rooted(f) && t in f && d in f && Doomed(f, t, d)
    ensures NearestSurvivor(f, t, d) == f[t].parent
    decreases f[d].key
  {
    if d != t {
      DoomedChainEndsAtTarget(f, t, f[d].parent);
    } else if f[t].parent in f {
      assert !Doomed(f, t, f[t].parent);
    }
  }

  /** Removing a completed tracker keeps the forest, and hands every survivor to its nearest surviving ancestor. */
  lemma ReapKeepsForest(f: map<int, Tracker>, t: int)
    requires Rooted(f) && t in f && f[t].task == NIL && NoOrphans(f, t)
    ensures var g := Reap(f, t);
            && Rooted(g) && NoOrphans(g, NIL) && t !in g
            && (forall d :: d in g ==> d in f && g[d] == f[d].(parent := NearestSurvivor(f, t, f[d].parent)))
            && (forall d :: d in f && d !in g ==> f[d].task == NIL)
            && (forall d :: d in f && d !in g && d != t ==> f[t].parent == NIL)
  {
    var g := Reap(f, t);
    forall d | d in f
      ensures Doomed(f, t, d) ==> f[d].task == NIL && (d == t || f[t].parent == NIL)
      ensures Doomed(f, t, f[d].parent) ==> f[f[d].parent].key < f[d].key
      ensures NearestSurvivor(f, t, f[d].parent) == if Doomed(f, t, f[d].parent) then f[t].parent else f[d].parent
    {
      if Doomed(f, t, f[d].parent) {
        DoomedChainEndsAtTarget(f, t, f[d].parent);
      }
    }
    forall d | d in g ensures g[d].parent == NIL || (g[d].parent in g && g[g[d].parent].key < g[d].key) {
      if Doomed(f, t, f[d].parent) {
        DoomedKeyOrder(f, t, f[d].parent);
      }
    }
  }

  lemma {:induction false} DoomedKeyOrder(f: map<int, Tracker>, t: int, d: int)
    requires Rooted(f) && t in f && d in f && Doomed(f, t, d)
    ensures f[t].key <= f[d].key
    ensures f[t].parent != NIL ==> !Doomed(f, t, f[t].parent)
    decreases f[d].key
  {
    if d != t {
      DoomedKeyOrder(f, t, f[d].parent);
    }
  }

  // ---------------------------------------------------------------------------------------------
  // Removal one child at a time

  /** Whether a freed chain passes through the child `c` of the target. */
  lemma {:induction false} DoomedSplits(f: map<int, Tracker>, t: int, c: int, d: int)
    requires Rooted(f) && t in f && c in f && d in f && f[c].parent == t && f[t].parent == NIL && f[c].task == NIL
    ensures var f' := f[c := f[c].(parent := NIL)];
            Doomed(f, t, d) <==> Doomed(f', c, d) || Doomed(f', t, d)
    ensures Doomed(f[c := f[c].(parent := NIL)], c, d) ==> d != t
    decreases f[d].key
  {
    if d != t && d != c && f[d].parent in f {
      DoomedSplits(f, t, c, f[d].parent);
    }
  }

  /** After the chain through `c` is gone, the rest of the freed trackers is still what it was. */
  lemma {:induction false} DoomedAfterReap(f: map<int, Tracker>, c: int, t: int, d: int)
    requires Rooted(f) && t in f && c in f && f[t].parent == NIL && f[c].parent == NIL && t != c && !Doomed(f, c, t)
    requires d in Reap(f, c)
    ensures t in Reap(f, c) && (Doomed(Reap(f, c), t, d) <==> Doomed(f, t, d))
    decreases f[d].key
  {
    var g := Reap(f, c);
    if d != t && f[d].parent in f {
      if Doomed(f, c, f[d].parent) {
        NotBoth(f, c, t, f[d].parent);
      } else {
        DoomedAfterReap(f, c, t, f[d].parent);
      }
    }
  }

  /** Two targets that hang from the kernel free disjoint sets. */
  lemma {:induction false} NotBoth(f: map<int, Tracker>, c: int, t: int, d: int)
    requires Rooted(f) && t in f && c in f && f[t].parent == NIL && f[c].parent == NIL && t != c && d in f
    ensures !(Doomed(f, c, d) && Doomed(f, t, d))
    decreases f[d].key
  {
    if d != c && d != t && f[d].parent in f {
      NotBoth(f, c, t, f[d].parent);
    }
  }

  lemma ReapRooted(f: map<int, Tracker>, t: int)
    requires Rooted(f) && t in f
    ensures Rooted(Reap(f, t))
  {
    var g := Reap(f, t);
    forall d | d in g ensures g[d].parent == NIL || (g[d].parent in g && g[g[d].parent].key < g[d].key) {
      if Doomed(f, t, f[d].parent) {
        DoomedKeyOrder(f, t, f[d].parent);
      }
    }
  }

  /** Handing a surviving child of the target to its grandparent beforehand changes nothing. */
  lemma ReparentSurvivor(f: map<int, Tracker>, t: int, c: int)
    requires Rooted(f) && t in f && c in f && f[c].parent == t && !Doomed(f, t, c)
    ensures var f' := f[c := f[c].(parent := f[t].parent)];
            && Rooted(f') && Reap(f', t) == Reap(f, t) && (CrashedOrphan(f', t) <==> CrashedOrphan(f, t))
  {
    var f' := f[c := f[c].(parent := f[t].parent)];
    assert Rooted(f');
    forall d ensures Doomed(f', t, d) <==> Doomed(f, t, d) {
      SameDoomed(f, t, c, d);
    }
    DoomedKeyOrder(f, t, t);
  }

  lemma {:induction false} SameDoomed(f: map<int, Tracker>, t: int, c: int, d: int)
    requires Rooted(f) && t in f && c in f && f[c].parent == t && !Doomed(f, t, c)
    ensures Doomed(f[c := f[c].(parent := f[t].parent)], t, d) <==> Doomed(f, t, d)
    decreases if d in f then f[d].key else 0
  {
    if d in f && d != t && f[d].parent in f && f[f[d].parent].key < f[d].key {
      SameDoomed(f, t, c, f[d].parent);
    }
  }

  /** Removing a completed child of a kernel-parented target first changes nothing. */
  lemma ReapChildFirst(f: map<int, Tracker>, t: int, c: int)
    requires Rooted(f) && t in f && c in f && f[c].parent == t && f[t].parent == NIL && f[c].task == NIL
    ensures var f' := f[c := f[c].(parent := NIL)];
            var g := Reap(f', c);
            && Rooted(f') && t in g && g[t] == f[t] && Rooted(g) && Reap(g, t) == Reap(f, t)
            && (CrashedOrphan(f, t) <==> f[c].status == Crashed || CrashedOrphan(f', c) || CrashedOrphan(g, t))
  {
    var f' := f[c := f[c].(parent := NIL)];
    var g := Reap(f', c);
    forall d | d in f ensures Doomed(f, t, d) <==> Doomed(f', c, d) || (d in g && Doomed(g, t, d)) {
      DoomedSplits(f, t, c, d);
      if d in g {
        DoomedSplits(f, t, c, t);
        DoomedAfterReap(f', c, t, d);
      }
    }
    DoomedSplits(f, t, c, t);
    ReapRooted(f', c);
    assert forall d :: d in Reap(f, t) <==> d in Reap(g, t);
    forall d | d in Reap(f, t) ensures Reap(f, t)[d] == Reap(g, t)[d] {
    }
  }

  /** Whether a removal meets a crashed orphan does not depend on the state of its target. */
  lemma SameOrphans(f: map<int, Tracker>, t: int, v: Tracker)
    requires Rooted(f) && t in f && v.parent == f[t].parent && v.key == f[t].key
    ensures CrashedOrphan(f[t := v], t) <==> CrashedOrphan(f, t)
  {
    forall d ensures Doomed(f[t := v], t, d) <==> Doomed(f, t, d) {
      TargetOnly(f, t, v, d);
    }
  }

  lemma {:induction false} TargetOnly(f: map<int, Tracker>, t: int, v: Tracker, d: int)
    requires Rooted(f) && t in f && v.parent == f[t].parent && v.key == f[t].key
    ensures Doomed(f[t := v], t, d) <==> Doomed(f, t, d)
    decreases if d in f then f[d].key else 0
  {
    if d in f && d != t && f[d].parent in f && f[f[d].parent].key < f[d].key {
      TargetOnly(f, t, v, f[d].parent);
    }
  }

  /** Removing a target without children frees just the target. */
  lemma ReapLeaf(f: map<int, Tracker>, t: int)
    requires Rooted(f) && t in f && forall d :: d in f ==> f[d].parent != t
    ensures Reap(f, t) == f - {t} && !CrashedOrphan(f, t)
  {
    forall d | d in f && d != t ensures !Doomed(f, t, d) {
      LeafDooms(f, t, d);
    }
    forall d | d in f && d != t ensures !Doomed(f, t, f[d].parent) {
      if f[d].parent in f {
        LeafDooms(f, t, f[d].parent);
      }
    }
  }

  lemma {:induction false} LeafDooms(f: map<int, Tracker>, t: int, d: int)
    requires Rooted(f) && t in f && d in f && d != t && forall r :: r in f ==> f[r].parent != t
    ensures !Doomed(f, t, d)
    decreases f[d].key
  {
    if f[d].parent in f {
      LeafDooms(f, t, f[d].parent);
    }
  }

  /** Other trackers that hang from the kernel are untouched. */
  lemma RootsSurvive(f: map<int, Tracker>, t: int, r: int)
    requires Rooted(f) && t in f && r in f && r != t && f[r].parent == NIL
    ensures r in Reap(f, t) && Reap(f, t)[r] == f[r]
  {
  }

  lemma ReapShrinks(f: map<int, Tracker>, t: int)
    requires t in f
    ensures Reap(f, t).Keys <= f.Keys
  {
  }
}
