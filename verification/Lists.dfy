/**
 * Intrusive doubly linked lists. The nodes are slots of a table; `previous` and `next` are the link
 * words of every slot, and a list is given by the slots it threads together.
 */
module Lists {
  import opened Base

  function First(q: seq<int>): int { if q == [] then NIL else q[0] }

  function Last(q: seq<int>): int { if q == [] then NIL else q[|q| - 1] }

  function At(q: seq<int>, i: int): int { if 0 <= i < |q| then q[i] else NIL }

  /** The link words thread the slots of `q`, in this order, and end with `NIL` on both sides. */
  ghost predicate Chain(previous: seq<int>, next: seq<int>, q: seq<int>) {
    && |previous| == |next| && Distinct(q)
    && (forall i :: 0 <= i < |q| ==> 0 <= q[i] < |next|)
    && (forall i {:trigger next[q[i]]} {:trigger previous[q[i]]} :: 0 <= i < |q| ==>
          next[q[i]] == At(q, i + 1) && previous[q[i]] == At(q, i - 1))
  }

  /** Writes to other slots do not disturb a list. */
  lemma ChainFrame(previous: seq<int>, next: seq<int>, previous': seq<int>, next': seq<int>, q: seq<int>)
    requires Chain(previous, next, q) && |previous'| == |previous| && |next'| == |next|
    requires forall i :: 0 <= i < |q| ==> previous'[q[i]] == previous[q[i]] && next'[q[i]] == next[q[i]]
    ensures Chain(previous', next', q)
  {
  }

  /** The link words after inserting `t` between the neighbours `p` and `n`, either of which may be `NIL`. */
  function Spliced(links: seq<int>, neighbour: int, t: int, value: int): (r: seq<int>)
    requires 0 <= t < |links| && -1 <= neighbour < |links|
    ensures |r| == |links|
  {
    var written := links[t := value];
    if neighbour == NIL then written else written[neighbour := t]
  }

  function Inserted(q: seq<int>, k: nat, t: int): (r: seq<int>)
    requires k <= |q|
    ensures |r| == |q| + 1
    ensures forall i :: 0 <= i < |r| ==> r[i] == if i < k then q[i] else if i == k then t else q[i - 1]
  {
    q[..k] + [t] + q[k..]
  }

  lemma SpliceNode(previous: seq<int>, next: seq<int>, q: seq<int>, k: nat, t: int, i: nat)
    requires Chain(previous, next, q) && k <= |q| && 0 <= t < |next| && t !in q && i <= |q|
    ensures var r := Inserted(q, k, t);
            && Spliced(next, At(q, k - 1), t, At(q, k))[r[i]] == At(r, i + 1)
            && Spliced(previous, At(q, k), t, At(q, k - 1))[r[i]] == At(r, i - 1)
  {
    var r := Inserted(q, k, t);
    if i < k {
      assert r[i] == q[i] && q[i] in q;
    } else if i > k {
      assert r[i] == q[i - 1] && q[i - 1] in q;
    }
  }

  lemma DistinctInserted(q: seq<int>, k: nat, t: int, bound: nat)
    requires Distinct(q) && k <= |q| && t !in q && 0 <= t < bound && forall i :: 0 <= i < |q| ==> 0 <= q[i] < bound
    ensures Distinct(Inserted(q, k, t)) && forall i :: 0 <= i <= |q| ==> 0 <= Inserted(q, k, t)[i] < bound
  {
    assert forall i :: 0 <= i < |q| ==> q[i] in q;
  }

  lemma SpliceKeepsChain(previous: seq<int>, next: seq<int>, q: seq<int>, k: nat, t: int)
    requires Chain(previous, next, q) && k <= |q| && 0 <= t < |next| && t !in q
    ensures Chain(Spliced(previous, At(q, k), t, At(q, k - 1)), Spliced(next, At(q, k - 1), t, At(q, k)),
                  Inserted(q, k, t))
  {
    hide Distinct, Spliced, Inserted;
    var r := Inserted(q, k, t);
    var previous', next' := Spliced(previous, At(q, k), t, At(q, k - 1)), Spliced(next, At(q, k - 1), t, At(q, k));
    DistinctInserted(q, k, t, |next|);
    hide At;
    forall i | 0 <= i < |r| ensures next'[r[i]] == At(r, i + 1) && previous'[r[i]] == At(r, i - 1) {
      SpliceNode(previous, next, q, k, t, i);
    }
  }

  /** The backward links after `t` left the front of a list whose second slot, if any, is `n`. */
  function Detached(previous: seq<int>, n: int, t: int): (r: seq<int>)
    requires 0 <= t < |previous| && -1 <= n < |previous|
    ensures |r| == |previous|
  {
    (if n == NIL then previous else previous[n := NIL])[t := NIL]
  }

  /** Unlinking the first slot. */
  lemma PopKeepsChain(previous: seq<int>, next: seq<int>, q: seq<int>)
    requires Chain(previous, next, q) && q != []
    ensures var n := next[q[0]];
            && n == First(q[1..]) && -1 <= n < |next|
            && Chain(Detached(previous, n, q[0]), next[q[0] := NIL], q[1..])
  {
    var n := next[q[0]];
    var previous' := Detached(previous, n, q[0]);
    var next' := next[q[0] := NIL];
    var r := q[1..];
    forall i | 0 <= i < |r| ensures next'[r[i]] == At(r, i + 1) && previous'[r[i]] == At(r, i - 1) {
      assert r[i] == q[i + 1] && q[i + 1] != q[0];
      assert i > 0 ==> q[i + 1] != q[1];
    }
  }

  // ---------------------------------------------------------------------------------------------
  // Several lists that share their link words

  /** No slot is in two lists. */
  ghost predicate Apart(qs: seq<seq<int>>) {
    forall g, h, i, j :: 0 <= g < |qs| && 0 <= h < |qs| && g != h && 0 <= i < |qs[g]| && 0 <= j < |qs[h]| ==>
      qs[g][i] != qs[h][j]
  }

  ghost predicate Threads(previous: seq<int>, next: seq<int>, qs: seq<seq<int>>) {
    && |previous| == |next| && Apart(qs)
    && forall h {:trigger qs[h]} :: 0 <= h < |qs| ==> Chain(previous, next, qs[h])
  }

  ghost predicate InNone(qs: seq<seq<int>>, t: int) {
    forall g, i :: 0 <= g < |qs| && 0 <= i < |qs[g]| ==> qs[g][i] != t
  }

  lemma ApartInserted(qs: seq<seq<int>>, h: int, k: nat, t: int)
    requires Apart(qs) && 0 <= h < |qs| && k <= |qs[h]| && InNone(qs, t)
    ensures Apart(qs[h := Inserted(qs[h], k, t)])
  {
    var rs := qs[h := Inserted(qs[h], k, t)];
    forall g, i, j | 0 <= g < |qs| && g != h && 0 <= i < |qs[g]| && 0 <= j < |rs[h]| ensures qs[g][i] != rs[h][j] {
    }
  }

  /** The neighbours of a position are slots or `NIL`. */
  lemma SpliceThreads(previous: seq<int>, next: seq<int>, qs: seq<seq<int>>, h: int, k: nat, t: int)
    requires Threads(previous, next, qs) && 0 <= h < |qs| && k <= |qs[h]| && 0 <= t < |next| && InNone(qs, t)
    ensures var p, n := At(qs[h], k - 1), At(qs[h], k);
            && -1 <= p < |next| && -1 <= n < |next|
            && Threads(Spliced(previous, n, t, p), Spliced(next, p, t, n), qs[h := Inserted(qs[h], k, t)])
  {
    var q := qs[h];
    var p, n := At(q, k - 1), At(q, k);
    assert t !in q;
    SpliceKeepsChain(previous, next, q, k, t);
    ApartInserted(qs, h, k, t);
    forall g | 0 <= g < |qs| && g != h ensures Chain(Spliced(previous, n, t, p), Spliced(next, p, t, n), qs[g]) {
      assert forall i :: 0 <= i < |qs[g]| ==> qs[g][i] != t && qs[g][i] != p && qs[g][i] != n;
      ChainFrame(previous, next, Spliced(previous, n, t, p), Spliced(next, p, t, n), qs[g]);
    }
  }

  /** Unlinking the first slot of one of the lists. */
  lemma PopThreads(previous: seq<int>, next: seq<int>, qs: seq<seq<int>>, h: int)
    requires Threads(previous, next, qs) && 0 <= h < |qs| && qs[h] != []
    ensures var t := qs[h][0];
            && 0 <= t < |next| && next[t] == First(qs[h][1..]) && -1 <= next[t] < |next|
            && var n := next[t];
               Threads(Detached(previous, n, t), next[t := NIL], qs[h := qs[h][1..]])
  {
    var q := qs[h];
    var t, n := q[0], next[q[0]];
    PopKeepsChain(previous, next, q);
    var previous', next' := Detached(previous, n, t), next[t := NIL];
    forall g | 0 <= g < |qs| && g != h ensures Chain(previous', next', qs[g]) {
      assert forall i :: 0 <= i < |qs[g]| ==> qs[g][i] != t && qs[g][i] != n;
      ChainFrame(previous, next, previous', next', qs[g]);
    }
    assert Apart(qs[h := q[1..]]);
  }

  /** Forgetting one of the lists. */
  lemma DropThreads(previous: seq<int>, next: seq<int>, qs: seq<seq<int>>, h: int)
    requires Threads(previous, next, qs) && 0 <= h < |qs|
    ensures Threads(previous, next, qs[h := []])
  {
    assert Chain(previous, next, []);
    assert Apart(qs[h := []]);
  }

  // ---------------------------------------------------------------------------------------------
  // Removal from anywhere

  function Without(q: seq<int>, k: nat): (r: seq<int>)
    requires k < |q|
    ensures |r| == |q| - 1
    ensures forall i :: 0 <= i < |r| ==> r[i] == if i < k then q[i] else q[i + 1]
  {
    q[..k] + q[k + 1..]
  }

  /** The link words after `t` left: its neighbour now points past it. */
  function Cut(links: seq<int>, neighbour: int, t: int, value: int): (r: seq<int>)
    requires 0 <= t < |links| && -1 <= neighbour < |links|
    ensures |r| == |links|
  {
    (if neighbour == NIL then links else links[neighbour := value])[t := NIL]
  }

  lemma CutNode(previous: seq<int>, next: seq<int>, q: seq<int>, k: nat, i: nat)
    requires Chain(previous, next, q) && k < |q| && i < |q| - 1
    ensures var r := Without(q, k);
            && Cut(next, At(q, k - 1), q[k], At(q, k + 1))[r[i]] == At(r, i + 1)
            && Cut(previous, At(q, k + 1), q[k], At(q, k - 1))[r[i]] == At(r, i - 1)
  {
    var r := Without(q, k);
    var j := if i < k then i else i + 1;
    assert r[i] == q[j] && q[j] != q[k];
    assert k > 0 && j != k - 1 ==> q[j] != q[k - 1];
    assert k + 1 < |q| && j != k + 1 ==> q[j] != q[k + 1];
  }

  lemma CutKeepsChain(previous: seq<int>, next: seq<int>, q: seq<int>, k: nat)
    requires Chain(previous, next, q) && k < |q|
    ensures Chain(Cut(previous, At(q, k + 1), q[k], At(q, k - 1)), Cut(next, At(q, k - 1), q[k], At(q, k + 1)),
                  Without(q, k))
  {
    hide Cut;
    var r := Without(q, k);
    var previous' := Cut(previous, At(q, k + 1), q[k], At(q, k - 1));
    var next' := Cut(next, At(q, k - 1), q[k], At(q, k + 1));
    assert Distinct(r);
    hide At, Without;
    forall i | 0 <= i < |r| ensures next'[r[i]] == At(r, i + 1) && previous'[r[i]] == At(r, i - 1) {
      CutNode(previous, next, q, k, i);
    }
  }

  lemma CutThreads(previous: seq<int>, next: seq<int>, qs: seq<seq<int>>, h: int, k: nat)
    requires Threads(previous, next, qs) && 0 <= h < |qs| && k < |qs[h]|
    ensures var q := qs[h];
            && 0 <= q[k] < |next| && -1 <= At(q, k - 1) < |next| && -1 <= At(q, k + 1) < |next|
            && previous[q[k]] == At(q, k - 1) && next[q[k]] == At(q, k + 1)
            && Threads(Cut(previous, At(q, k + 1), q[k], At(q, k - 1)), Cut(next, At(q, k - 1), q[k], At(q, k + 1)),
                       qs[h := Without(q, k)])
  {
    var q := qs[h];
    var p, n, t := At(q, k - 1), At(q, k + 1), q[k];
    CutKeepsChain(previous, next, q, k);
    var previous', next' := Cut(previous, n, t, p), Cut(next, p, t, n);
    forall g | 0 <= g < |qs| && g != h ensures Chain(previous', next', qs[g]) {
      assert forall i :: 0 <= i < |qs[g]| ==> qs[g][i] != t && qs[g][i] != p && qs[g][i] != n;
      ChainFrame(previous, next, previous', next', qs[g]);
    }
    assert Apart(qs[h := Without(q, k)]);
  }

  // ---------------------------------------------------------------------------------------------
  // The link words in place

  /** Links `t` between two neighbours, either of which may be `NIL`. */
  method Link(previous: array<int>, next: array<int>, before: int, after: int, t: int)
    requires previous != next && previous.Length == next.Length && 0 <= t < next.Length
    requires -1 <= before < next.Length && -1 <= after < next.Length && before != t && after != t
    modifies previous, next
    ensures previous[..] == Spliced(old(previous[..]), after, t, before)
    ensures next[..] == Spliced(old(next[..]), before, t, after)
  {
    previous[t] := before;
    next[t] := after;
    if before != NIL {
      next[before] := t;
    }
    if after != NIL {
      previous[after] := t;
    }
  }

  /** Unlinks `t` from the front of its list and returns its successor. */
  method UnlinkFirst(previous: array<int>, next: array<int>, t: int) returns (n: int)
    requires previous != next && previous.Length == next.Length && 0 <= t < next.Length && -1 <= next[t] < next.Length
    modifies previous, next
    ensures n == old(next[t]) && next[..] == old(next[..])[t := NIL]
    ensures previous[..] == Detached(old(previous[..]), n, t)
  {
    n := next[t];
    if n != NIL {
      previous[n] := NIL;
    }
    previous[t] := NIL;
    next[t] := NIL;
  }

  /** Unlinks `t` from anywhere in its list. */
  method Unlink(previous: array<int>, next: array<int>, t: int)
    requires previous != next && previous.Length == next.Length && 0 <= t < next.Length
    requires -1 <= next[t] < next.Length && -1 <= previous[t] < next.Length
    modifies previous, next
    ensures previous[..] == Cut(old(previous[..]), old(next[t]), t, old(previous[t]))
    ensures next[..] == Cut(old(next[..]), old(previous[t]), t, old(next[t]))
  {
    if previous[t] != NIL {
      next[previous[t]] := next[t];
    }
    if next[t] != NIL {
      previous[next[t]] := previous[t];
    }
    previous[t] := NIL;
    next[t] := NIL;
  }
}
