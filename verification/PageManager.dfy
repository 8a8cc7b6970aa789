/** The page allocator in place: a fixed table of ranges, and memory that every handed-out page clears. */
module PageManager {
  import opened Base
  import opened Lifecycle
  import opened Pages

  const WORDS: nat := 512

  /** Physical memory by word address. */
  class PhysicalMemory {
    var words: map<nat, nat>

    constructor ()
      ensures words == map[]
    {
      words := map[];
    }
  }

  /** Memory after the first `n` words of a page are cleared. */
  function Zeroed(m: map<nat, nat>, page: nat, n: nat): map<nat, nat> {
    if n == 0 then m else Zeroed(m, page, n - 1)[page + 8 * (n - 1) := 0]
  }

  predicate IsWordOf(page: nat, n: nat, a: int) { page <= a < page + 8 * n && (a - page) % 8 == 0 }

  lemma {:induction false} ZeroedAt(m: map<nat, nat>, page: nat, n: nat, a: nat)
    ensures a in Zeroed(m, page, n) <==> a in m || IsWordOf(page, n, a)
    ensures a in Zeroed(m, page, n) ==> Zeroed(m, page, n)[a] == if IsWordOf(page, n, a) then 0 else m[a]
  {
    if n > 0 {
      ZeroedAt(m, page, n - 1, a);
    }
  }

  class PageManager {
    const life: MemoryLifecycle
    const memory: PhysicalMemory
    const slots: array<ManagedRange>
    var count: nat
    ghost var handed: seq<Word>

    ghost predicate Valid()
      reads this
    {
      count <= slots.Length
    }

    ghost function Abs(): Store
      requires Valid()
      reads this, slots, life
    {
      Store(life.state, slots[..count], slots.Length, handed)
    }

    constructor (lifecycle: MemoryLifecycle, physical: PhysicalMemory, capacity: nat)
      ensures Valid() && Abs() == Store(lifecycle.state, [], capacity, []) && life == lifecycle && memory == physical
      ensures fresh(slots)
    {
      life := lifecycle;
      memory := physical;
      slots := new ManagedRange[capacity](i => ManagedRange(0, 0, 0, Unavailable));
      count := 0;
      handed := [];
      new;
      assert slots[..0] == [];
    }

    method AddRange(base: Word, size: Word, backing: Backing) returns (ok: bool)
      requires Valid()
      modifies this, slots
      ensures Valid() && Abs() == Next(old(Abs()), Adds(base, size, backing))
      ensures ok == Addable(old(Abs()).life, old(Abs()).ranges, slots.Length, base, size, backing)
    {
      if count >= slots.Length || backing == Unavailable || size == 0 || !Aligned(base) || !Aligned(size) {
        return false;
      }
      var end := Sum(base, size);
      if end <= base {
        return false;
      }
      var index := 0;
      while index < count
        invariant 0 <= index <= count
        invariant forall i :: 0 <= i < index ==> !Overlaps(base, end, slots[..count][i])
      {
        assert slots[..count][index] == slots[index];
        if Overlaps(base, end, slots[index]) {
          return false;
        }
        index := index + 1;
      }
      if BackingFor(life.state, base) != backing || BackingFor(life.state, end - 1) != backing {
        return false;
      }
      slots[count] := ManagedRange(base, base, end, backing);
      count := count + 1;
      ok := true;
      assert slots[..count] == old(slots[..count]) + [ManagedRange(base, base, end, backing)];
    }

    /** Checks every range with the label before relabelling any. */
    method PromoteBacking(from: Backing, to: Backing) returns (promoted: nat)
      requires Valid()
      modifies slots
      ensures Valid() && Abs() == Next(old(Abs()), Promotes(from, to))
      ensures promoted == Promote(old(Abs()).life, old(Abs()).ranges, from, to).1
    {
      hide BackingFor, Relabelled;
      if from == to || from == Unavailable || to == Unavailable {
        return 0;
      }
      promoted := 0;
      var index := 0;
      ghost var was := slots[..count];
      while index < count
        invariant 0 <= index <= count && slots[..count] == was && promoted == CountLabel(was[..index], from)
        invariant forall i :: 0 <= i < index && was[i].backing == from ==>
                    Backed(life.state, was[i].base, was[i].end, to)
      {
        var r := slots[index];
        assert was[index] == slots[..count][index] == r;
        CountNext(was, index, from);
        if r.backing == from {
          if BackingFor(life.state, r.base) != to || r.end == 0 || BackingFor(life.state, r.end - 1) != to {
            assert !Backed(life.state, was[index].base, was[index].end, to);
            return 0;
          }
          promoted := promoted + 1;
        }
        index := index + 1;
      }
      assert was[..count] == was;
      Relabel(from, to);
    }

    method Relabel(from: Backing, to: Backing)
      requires Valid() && from != to
      modifies slots
      ensures slots[..count] == Relabelled(old(slots[..count]), from, to)
    {
      ghost var was := slots[..count];
      var index := 0;
      while index < count
        invariant 0 <= index <= count
        invariant forall i :: index <= i < count ==> slots[i] == was[i]
        invariant forall i :: 0 <= i < index ==>
                    slots[i] == if was[i].backing == from then was[i].(backing := to) else was[i]
      {
        if slots[index].backing == from {
          slots[index] := slots[index].(backing := to);
        }
        index := index + 1;
      }
    }

    method ZeroPage(page: nat)
      modifies memory
      ensures memory.words == Zeroed(old(memory.words), page, WORDS)
    {
      var index := 0;
      while index < WORDS
        invariant 0 <= index <= WORDS && memory.words == Zeroed(old(memory.words), page, index)
      {
        memory.words := memory.words[page + 8 * index := 0];
        index := index + 1;
      }
    }

    method AllocateFrom(backing: Backing) returns (a: Allocation)
      requires Valid()
      modifies slots, memory
      ensures (slots[..count], a) == Pages.AllocateFrom(old(slots[..count]), backing)
      ensures memory.words == if FirstUsable(old(slots[..count]), backing) == count then old(memory.words)
                              else Zeroed(old(memory.words), a.address, WORDS)
    {
      ghost var was := slots[..count];
      var index := 0;
      while index < count
        invariant 0 <= index <= count && forall i :: 0 <= i < index ==> !Usable(was[i], backing)
      {
        var r := slots[index];
        assert r == was[index];
        if r.backing == backing && r.next < r.end {
          assert FirstUsable(was, backing) == index;
          slots[index] := r.(next := Sum(r.next, PAGE));
          ZeroPage(r.next);
          assert slots[..count] == was[index := r.(next := Sum(r.next, PAGE))];
          return Allocation(r.next, backing);
        }
        index := index + 1;
      }
      a := NOTHING;
      assert FirstUsable(was, backing) == count;
    }

    /** One page, cleared; DDR once it is published, contained memory before the transition. */
    method AllocatePage() returns (a: Allocation)
      requires Valid() && StoreOk(Abs())
      modifies this, slots, memory
      ensures Valid() && Abs() == Next(old(Abs()), Allocates)
      ensures a == Pages.AllocatePage(old(Abs()).life, old(Abs()).ranges).1
      ensures a.backing == Source(old(Abs()).life, old(Abs()).ranges)
      ensures memory.words == if a.backing == Unavailable then old(memory.words)
                              else Zeroed(old(memory.words), a.address, WORDS)
    {
      AllocatesExactly(Abs(), Ddr);
      hide StoreOk, Source, Remaining;
      var state := life.state;
      if state.enabled {
        a := AllocateFrom(Ddr);
      } else if state.domain == InContained {
        a := AllocateFrom(Contained);
      } else {
        a := NOTHING;
      }
      if a.backing != Unavailable {
        handed := handed + [a.address];
      }
    }

    method RemainingPages(backing: Backing) returns (n: nat)
      requires Valid()
      ensures n == Remaining(slots[..count], backing)
    {
      n := 0;
      var index := 0;
      while index < count
        invariant 0 <= index <= count && n == Remaining(slots[..index], backing)
      {
        var r := slots[index];
        assert slots[..index + 1][..index] == slots[..index];
        if r.backing == backing && r.next < r.end {
          n := n + (r.end - r.next) / PAGE;
        }
        index := index + 1;
      }
    }
  }
}
