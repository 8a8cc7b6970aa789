/** Sv39 tables in place: they are built word by word in memory, from pages that the allocator hands out. */
module PageTables {
  import opened Base
  import opened Lifecycle
  import opened Pages
  import opened PageManager
  import opened Sv39

  /** The managed memory lies below the 56 bits of a physical address. */
  ghost predicate Fits(ranges: seq<ManagedRange>) {
    forall i :: 0 <= i < |ranges| ==> ranges[i].end <= TWO56
  }

  lemma AllocationFacts(s: Store)
    requires StoreOk(s) && Fits(s.ranges)
    ensures var a := AllocatePage(s.life, s.ranges).1;
            var t := Next(s, Allocates);
            && StoreOk(t) && Fits(t.ranges)
            && (a.backing != Unavailable ==>
                  && Aligned(a.address) && a.address < TWO56 && a.address !in s.handed
                  && t.handed == s.handed + [a.address])
            && (a.backing == Unavailable ==> t == s)
  {
    var a := AllocatePage(s.life, s.ranges).1;
    if a.backing != Unavailable {
      AllocatesKeepsOk(s);
    }
  }

  /** A cleared page is an empty root table. */
  lemma EmptyRoot(m: Memory, page: nat)
    requires Aligned(page) && 0 < page < TWO56
    ensures var m' := Zeroed(m, page, 512);
            TablesOk(m', page, map[page := Root]) && forall t :: InRange(t) ==> Translate(m', page, t) == Fault
  {
    hide Zeroed;
    var m' := Zeroed(m, page, 512);
    var tables := map[page := Root];
    forall i {:trigger Slot(page, i)} | 0 <= i < 512 ensures Slot(page, i) in m' && m'[Slot(page, i)] == 0 {
      ZeroedAt(m, page, 512, Slot(page, i));
      WordsOfPage(page, page, i);
    }
    assert TablePage(m', page);
    assert TablesOk(m', page, tables);
    forall t | InRange(t) ensures Translate(m', page, t) == Fault {
      WalkIsDeciding(m', page, tables, t);
      assert m'[Slot(page, t.v2)] == 0;
      ZeroFaults();
    }
  }

  lemma NoTableAtZero(m: Memory, root: nat, tables: map<nat, Path>)
    requires TablesOk(m, root, tables)
    ensures 0 !in tables
  {
    assert forall p :: p in tables ==> TablePage(m, p);
  }

  // ---------------------------------------------------------------------------------------------
  // The paths that have a table

  ghost function Paths(tables: map<nat, Path>): set<Path> { set p | p in tables :: tables[p] }

  /** A table is reachable along the path. */
  predicate HasTable(m: Memory, root: nat, p: Path) {
    match p
    case Root => true
    case Middle(v2) => v2 < 512 && Below(m, root, v2) != 0
    case Low(v2, v1) => v2 < 512 && v1 < 512 && Below(m, Below(m, root, v2), v1) != 0
  }

  lemma PathsAreTables(m: Memory, root: nat, tables: map<nat, Path>, p: Path)
    requires TablesOk(m, root, tables)
    ensures p in Paths(tables) <==> HasTable(m, root, p)
  {
    if p in Paths(tables) {
      var q :| q in tables && tables[q] == p;
      assert Leads(m, root, tables[q], q) && TablePage(m, q);
    }
    if HasTable(m, root, p) {
      match p {
        case Root => assert root in tables;
        case Middle(v2) => BelowFacts(m, root, tables, root, v2);
        case Low(v2, v1) => DecidingThroughTables(m, root, tables, Vpn(v2, v1, 0));
      }
    }
  }

  lemma PointerFacts(m: Memory, root: nat, tables: map<nat, Path>, table: nat, i: nat)
    requires TablesOk(m, root, tables) && table in tables && !tables[table].Low? && i < 512
    requires Slot(table, i) in m && ValidPte(m[Slot(table, i)])
    ensures !LeafPte(m[Slot(table, i)]) && AddressOf(m[Slot(table, i)]) != 0
    ensures AddressOf(m[Slot(table, i)]) in tables && tables[AddressOf(m[Slot(table, i)])] == Child(tables[table], i)
  {
    BelowFacts(m, root, tables, table, i);
    assert TablePage(m, Below(m, table, i));
    PointerRoundTrip(Below(m, table, i));
  }

  lemma NoSuchPath(m: Memory, root: nat, tables: map<nat, Path>, table: nat, i: nat)
    requires TablesOk(m, root, tables) && table in tables && !tables[table].Low? && i < 512
    requires Below(m, table, i) == 0
    ensures Child(tables[table], i) !in Paths(tables)
  {
    PathsAreTables(m, root, tables, Child(tables[table], i));
    assert Leads(m, root, tables[table], table);
  }

  lemma AddPath(tables: map<nat, Path>, child: nat, p: Path)
    requires child !in tables
    ensures Paths(tables[child := p]) == Paths(tables) + {p}
  {
    var tables' := tables[child := p];
    assert tables'[child] == p;
    forall q | q in tables ensures tables[q] in Paths(tables') {
      assert tables'[q] == tables[q];
    }
  }

  lemma RootIsTable(m: Memory, root: nat, tables: map<nat, Path>)
    requires TablesOk(m, root, tables)
    ensures root in tables && tables[root] == Root
  {
  }

  lemma LowFacts(m: Memory, root: nat, tables: map<nat, Path>, low: nat, t: Vpn)
    requires TablesOk(m, root, tables) && InRange(t) && low in tables && tables[low] == Low(t.v2, t.v1)
    ensures Slot(low, t.v0) in m
  {
    assert TablePage(m, low);
  }

  /** Growing by one set and then another. */
  lemma Grows(have: set<Path>, first: set<Path>, more: set<Path>)
    ensures |first + more - have| == |first - have| + |more - (have + first)|
  {
    assert first + more - have == (first - have) + (more - (have + first));
  }

  /** The two tables above the entry of a page. */
  ghost function PathsOf(va: nat): set<Path> {
    {Middle(VpnOf(va).v2), Low(VpnOf(va).v2, VpnOf(va).v1)}
  }

  /** Not writable without being readable. */
  predicate Permitted(flags: nat) { !(Bit(flags, 2) && !Bit(flags, 1)) }

  /** Readable or executable. */
  predicate Accessible(flags: nat) { Bit(flags, 1) || Bit(flags, 3) }

  /** What `map_page_4k` asks of its arguments. */
  predicate Mappable(root: nat, va: nat, pa: nat, flags: nat) {
    root != 0 && Aligned(va) && Aligned(pa) && Permitted(flags)
  }

  /** The paths among these that have no table. */
  ghost function Missing(m: Memory, root: nat, paths: set<Path>): set<Path> {
    set p | p in paths && !HasTable(m, root, p)
  }

  lemma MissingPaths(m: Memory, root: nat, tables: map<nat, Path>, paths: set<Path>)
    requires TablesOk(m, root, tables)
    ensures Missing(m, root, paths) == paths - Paths(tables)
  {
    hide TablesOk, HasTable, Paths;
    forall p | p in paths ensures p in Paths(tables) <==> HasTable(m, root, p) {
      PathsAreTables(m, root, tables, p);
    }
  }

  // ---------------------------------------------------------------------------------------------
  // Ranges of pages

  function PageAt(base: nat, k: nat): nat { base + PAGE * k }

  /** What `map_range_4k` asks of its arguments: no end reaches 2^64. */
  predicate MappableRange(va: nat, pa: nat, size: nat) {
    size != 0 && Aligned(va) && Aligned(pa) && Aligned(size) && va + size < TWO64 && pa + size < TWO64
  }

  /** The page numbers of the first `n` pages. */
  ghost function Touched(va: nat, n: nat): set<Vpn> {
    if n == 0 then {} else Touched(va, n - 1) + {VpnOf(PageAt(va, n - 1))}
  }

  /** The tables above the first `n` pages. */
  ghost function TouchedPaths(va: nat, n: nat): set<Path> {
    if n == 0 then {} else TouchedPaths(va, n - 1) + PathsOf(PageAt(va, n - 1))
  }

  /** The entries of the first `n` pages are set, and no other differs from before. */
  ghost predicate Decided(before: Memory, m: Memory, root: nat, va: nat, pa: nat, flags: nat, n: nat) {
    && (forall k {:trigger PageAt(va, k)} :: 0 <= k < n ==>
          Deciding(m, root, VpnOf(PageAt(va, k))) == Pte(PageAt(pa, k), WithValid(flags)))
    && (forall t :: InRange(t) && t !in Touched(va, n) ==> Deciding(m, root, t) == Deciding(before, root, t))
  }

  lemma DecidedNone(m: Memory, root: nat, va: nat, pa: nat, flags: nat)
    ensures Decided(m, m, root, va, pa, flags, 0)
  {
  }

  lemma WrittenIsValid(pa: nat, flags: nat)
    requires flags < 256
    ensures ValidPte(Pte(pa, WithValid(flags)))
  {
    EvenPart(pa / 4096 * 512, WithValid(flags));
  }

  /** A page is written only where the entry was not valid, so never over an earlier one. */
  lemma DecideNext(before: Memory, m: Memory, m': Memory, root: nat, va: nat, pa: nat, flags: nat, n: nat, ok: bool)
    requires Decided(before, m, root, va, pa, flags, n) && flags < 256
    requires ok ==> !ValidPte(Deciding(m, root, VpnOf(PageAt(va, n))))
    requires forall t :: InRange(t) ==>
               Deciding(m', root, t) ==
                 if ok && t == VpnOf(PageAt(va, n)) then Pte(PageAt(pa, n), WithValid(flags)) else Deciding(m, root, t)
    ensures Decided(before, m', root, va, pa, flags, if ok then n + 1 else n)
  {
    hide Deciding, Pte, WithValid, ValidPte;
    forall k {:trigger PageAt(va, k)} | 0 <= k < n
      ensures Deciding(m', root, VpnOf(PageAt(va, k))) == Pte(PageAt(pa, k), WithValid(flags))
    {
      WrittenIsValid(PageAt(pa, k), flags);
    }
  }

  lemma DecidedPages(before: Memory, m: Memory, root: nat, va: nat, pa: nat, flags: nat, n: nat)
    requires Decided(before, m, root, va, pa, flags, n) && flags < 256 && Permitted(flags) && Accessible(flags)
    requires Aligned(pa) && PageAt(pa, n) <= TWO56
    ensures forall k {:trigger PageAt(va, k)} :: 0 <= k < n ==>
              && InRange(VpnOf(PageAt(va, k)))
              && AtLeaf(Deciding(m, root, VpnOf(PageAt(va, k)))) == Page(PageAt(pa, k), WithValid(flags))
  {
    hide Bit, AtLeaf, Deciding, WithValid;
    forall k {:trigger PageAt(va, k)} | 0 <= k < n
      ensures InRange(VpnOf(PageAt(va, k)))
      ensures AtLeaf(Deciding(m, root, VpnOf(PageAt(va, k)))) == Page(PageAt(pa, k), WithValid(flags))
    {
      LeafIsExact(PageAt(pa, k), flags);
    }
  }

  class AddressSpace {
    const pages: PageManager
    var root: nat
    ghost var tables: map<nat, Path>

    ghost predicate Ready()
      reads pages, pages.slots, pages.life
    {
      pages.Valid() && StoreOk(pages.Abs()) && Fits(pages.Abs().ranges)
    }

    ghost predicate Valid()
      reads this, pages, pages.slots, pages.life, pages.memory
    {
      && Ready() && (if root == 0 then tables == map[] else TablesOk(pages.memory.words, root, tables))
      && forall p :: p in tables ==> p in pages.handed
    }

    /** What the hardware makes of a virtual page number. */
    ghost function Translation(t: Vpn): Sv39.Translation
      reads this, pages, pages.memory
    {
      Translate(pages.memory.words, root, t)
    }

    /** The entry that decides a virtual page number. */
    ghost function Entry(t: Vpn): nat
      reads this, pages, pages.memory
    {
      Deciding(pages.memory.words, root, t)
    }

    /**
     * No page remains where one may come from, or the page at address 0 is out, which the code takes for none.
     */
    ghost predicate Exhausted()
      requires pages.Valid()
      reads pages, pages.slots, pages.life
    {
      Source(pages.Abs().life, pages.Abs().ranges) == Unavailable || 0 in pages.handed
    }

    /** Exactly these paths have a table now, and one page was drawn for each that had none before. */
    ghost predicate Grew(before: map<nat, Path>, drawn: nat, paths: set<Path>)
      reads this, pages
    {
      Paths(tables) == Paths(before) + paths && |pages.handed| == drawn + |paths - Paths(before)|
    }

    /** The hardware's translation is decided by the entry. */
    lemma TranslationIsEntry()
      requires Valid() && root != 0
      ensures forall t :: InRange(t) ==> Translation(t) == AtLeaf(Entry(t))
    {
      hide Ready, Translate, AtLeaf, Deciding, TablesOk;
      forall t | InRange(t) ensures Translation(t) == AtLeaf(Entry(t)) {
        WalkIsDeciding(pages.memory.words, root, tables, t);
      }
    }

    /** `create_address_space`: an empty root table, or no address space when no page is left. */
    constructor (manager: PageManager)
      requires manager.Valid() && StoreOk(manager.Abs()) && Fits(manager.Abs().ranges)
      modifies manager, manager.slots, manager.memory
      ensures Valid() && pages == manager
      ensures forall t :: InRange(t) ==> Translation(t) == Fault || root == 0
    {
      pages := manager;
      root := 0;
      tables := map[];
      new;
      var page := TakePage();
      if page != 0 {
        root := page;
        tables := map[page := Root];
        EmptyRoot(old(manager.memory.words), page);
        assert page in pages.handed;
      }
    }

    /** One cleared page, or 0. */
    method TakePage() returns (page: nat)
      requires Ready()
      modifies pages, pages.slots, pages.memory
      ensures Ready()
      ensures page != 0 ==>
                && Aligned(page) && page < TWO56 && page !in old(pages.handed)
                && pages.handed == old(pages.handed) + [page]
                && pages.memory.words == Zeroed(old(pages.memory.words), page, 512)
      ensures page == 0 ==> Exhausted()
      ensures page == 0 ==>
                || (pages.handed == old(pages.handed) && pages.memory.words == old(pages.memory.words))
                || (&& pages.handed == old(pages.handed) + [0]
                    && pages.memory.words == Zeroed(old(pages.memory.words), 0, 512))
    {
      hide StoreOk, Zeroed;
      AllocationFacts(pages.Abs());
      AllocatesExactly(pages.Abs(), Ddr);
      hide Fits, AllocatePage, Source;
      var a := pages.AllocatePage();
      page := if a.Valid() then a.address else 0;
    }

    /** The table under entry `i` of `table`, created when there is none; 0 when no page is left for it. */
    method EnsureChildTable(table: nat, i: nat) returns (child: nat)
      requires Valid() && root != 0 && table in tables && !tables[table].Low? && i < 512
      modifies this, pages, pages.slots, pages.memory
      ensures Valid() && root == old(root)
      ensures forall p :: p in old(tables) ==> p in tables && tables[p] == old(tables)[p]
      ensures forall t :: InRange(t) ==> Entry(t) == old(Entry(t))
      ensures child != 0 ==> child in tables && tables[child] == Child(old(tables)[table], i)
      ensures child != 0 ==> Grew(old(tables), |old(pages.handed)|, {Child(old(tables)[table], i)})
      ensures child == 0 ==> Exhausted()
    {
      hide Ready, Zeroed, AtLeaf, TablesOk;
      BelowFacts(pages.memory.words, root, tables, table, i);
      ghost var path := Child(tables[table], i);
      var e := pages.memory.words[Slot(table, i)];
      if ValidPte(e) {
        child := if LeafPte(e) then 0 else AddressOf(e);
        PointerFacts(pages.memory.words, root, tables, table, i);
        assert path in Paths(tables);
        assert {path} - Paths(tables) == {} && Paths(tables) + {path} == Paths(tables);
        return;
      }
      NoSuchPath(pages.memory.words, root, tables, table, i);
      ghost var m := pages.memory.words;
      child := TakePage();
      if child == 0 {
        if pages.memory.words != m {
          assert 0 !in tables by { NoTableAtZero(m, root, tables); }
          ZeroElsewhere(m, root, tables, 0);
        }
        return;
      }
      ZeroElsewhere(m, root, tables, child);
      BelowFacts(pages.memory.words, root, tables, table, i);
      LinkChild(pages.memory.words, root, tables, table, i, child);
      AddPath(tables, child, path);
      pages.memory.words := pages.memory.words[Slot(table, i) := Pte(child, 1)];
      tables := tables[child := path];
      assert child in pages.handed;
      assert {path} - Paths(old(tables)) == {path};
    }

    /** The lowest table for a page, 0 when no page is left for it or for the one above. */
    method EnsureLowTable(t: Vpn) returns (low: nat)
      requires Valid() && root != 0 && InRange(t)
      modifies this, pages, pages.slots, pages.memory
      ensures Valid() && root == old(root)
      ensures forall u :: InRange(u) ==> Entry(u) == old(Entry(u))
      ensures low != 0 ==> low in tables && tables[low] == Low(t.v2, t.v1)
      ensures low != 0 ==> Grew(old(tables), |old(pages.handed)|, {Middle(t.v2), Low(t.v2, t.v1)})
      ensures low == 0 ==> Exhausted()
    {
      hide Ready, TablesOk, Paths, Deciding;
      RootIsTable(pages.memory.words, root, tables);
      var middle := EnsureChildTable(root, t.v2);
      if middle == 0 {
        return 0;
      }
      low := EnsureChildTable(middle, t.v1);
      Grows(Paths(old(tables)), {Middle(t.v2)}, {Low(t.v2, t.v1)});
      assert {Middle(t.v2)} + {Low(t.v2, t.v1)} == {Middle(t.v2), Low(t.v2, t.v1)};
    }

    /** The work of `map_page_4k`, on the entries. */
    method MapEntry(va: Word, pa: Word, flags: nat) returns (ok: bool)
      requires Valid() && flags < 256
      modifies this, pages, pages.slots, pages.memory
      ensures Valid() && root == old(root)
      ensures ok ==> Mappable(root, va, pa, flags) && !ValidPte(old(Entry(VpnOf(va))))
      ensures !ok && Mappable(root, va, pa, flags) ==> ValidPte(Entry(VpnOf(va))) || Exhausted()
      ensures forall t :: InRange(t) ==>
                Entry(t) == if ok && t == VpnOf(va) then Pte(pa, WithValid(flags)) else old(Entry(t))
      ensures ok ==> Grew(old(tables), |old(pages.handed)|, PathsOf(va))
    {
      hide Ready, Bit, TablesOk, AtLeaf, Paths, Exhausted;
      var t := VpnOf(va);
      if root == 0 || !Aligned(va) || !Aligned(pa) {
        return false;
      }
      if !Permitted(flags) {
        return false;
      }
      var low := EnsureLowTable(t);
      if low == 0 {
        return false;
      }
      SetLeaf(pages.memory.words, root, tables, low, t, Pte(pa, WithValid(flags)));
      LowFacts(pages.memory.words, root, tables, low, t);
      if ValidPte(pages.memory.words[Slot(low, t.v0)]) {
        return false;
      }
      pages.memory.words := pages.memory.words[Slot(low, t.v0) := Pte(pa, WithValid(flags))];
      ok := true;
    }

    /** `map_page_4k`: decides the translation of one page, or of none; a failed call changes none. */
    method MapPage4k(va: Word, pa: Word, flags: nat) returns (ok: bool)
      requires Valid() && flags < 256
      modifies this, pages, pages.slots, pages.memory
      ensures Valid() && root == old(root)
      ensures ok ==> Mappable(root, va, pa, flags) && !ValidPte(old(Entry(VpnOf(va))))
      ensures !ok && Mappable(root, va, pa, flags) ==> ValidPte(Entry(VpnOf(va))) || Exhausted()
      ensures root != 0 ==> forall t :: InRange(t) && !(ok && t == VpnOf(va)) ==> Translation(t) == old(Translation(t))
      ensures ok ==> (Translation(VpnOf(va)) == Page(pa, WithValid(flags)) <==> pa < TWO56 && Accessible(flags))
      ensures ok ==> |pages.handed| == |old(pages.handed)| + |Missing(old(pages.memory.words), root, PathsOf(va))|
    {
      hide Ready, Bit, TablesOk, AtLeaf, Paths, Exhausted, Deciding, Translate, HasTable;
      if root != 0 {
        TranslationIsEntry();
        MissingPaths(pages.memory.words, root, tables, PathsOf(va));
      }
      ok := MapEntry(va, pa, flags);
      if root != 0 {
        TranslationIsEntry();
      }
      if ok {
        LeafIsExact(pa, flags);
      }
    }

    lemma GrewNone()
      ensures Grew(tables, |pages.handed|, {})
    {
    }

    /** One turn of the loop of `map_range_4k`, after `n` pages. */
    method MapNext(va: Word, pa: Word, offset: Word, flags: nat,
                   ghost before: Memory, ghost first: map<nat, Path>, ghost drawn: nat, ghost n: nat) returns (ok: bool)
      requires Valid() && flags < 256 && offset == PAGE * n && va + offset < TWO64 && pa + offset < TWO64
      requires Decided(before, pages.memory.words, root, va, pa, flags, n) && Grew(first, drawn, TouchedPaths(va, n))
      modifies this, pages, pages.slots, pages.memory
      ensures Valid() && root == old(root)
      ensures Decided(before, pages.memory.words, root, va, pa, flags, if ok then n + 1 else n)
      ensures ok ==> root != 0 && Permitted(flags) && Grew(first, drawn, TouchedPaths(va, n + 1))
      ensures !ok ==>
                || !Mappable(root, PageAt(va, n), PageAt(pa, n), flags)
                || ValidPte(Entry(VpnOf(PageAt(va, n)))) || Exhausted()
    {
      hide Ready, TablesOk, Permitted, Deciding, Paths, Exhausted, VpnOf, Pte, WithValid, Decided, ValidPte, PathsOf;
      ghost var m := pages.memory.words;
      ok := MapEntry(va + offset, pa + offset, flags);
      DecideNext(before, m, pages.memory.words, root, va, pa, flags, n, ok);
      Grows(Paths(first), TouchedPaths(va, n), PathsOf(PageAt(va, n)));
    }

    /** The work of `map_range_4k`, on the entries; `done` pages are mapped. */
    method MapEntries(va: Word, pa: Word, size: Word, flags: nat) returns (ok: bool, ghost done: nat)
      requires Valid() && flags < 256
      modifies this, pages, pages.slots, pages.memory
      ensures Valid() && root == old(root)
      ensures ok <==> MappableRange(va, pa, size) && done == size / PAGE
      ensures if MappableRange(va, pa, size) then done <= size / PAGE else done == 0
      ensures MappableRange(va, pa, size) && !ok ==>
                || !Mappable(root, PageAt(va, done), PageAt(pa, done), flags)
                || ValidPte(Entry(VpnOf(PageAt(va, done)))) || Exhausted()
      ensures Decided(old(pages.memory.words), pages.memory.words, root, va, pa, flags, done)
      ensures ok ==> Grew(old(tables), |old(pages.handed)|, TouchedPaths(va, done))
      ensures done > 0 ==> root != 0 && Permitted(flags)
    {
      hide Valid, Permitted, Mappable, Deciding, Paths, Exhausted, VpnOf, Decided, ValidPte, Grew;
      done := 0;
      DecidedNone(pages.memory.words, root, va, pa, flags);
      if size == 0 || !Aligned(va) || !Aligned(pa) || !Aligned(size) {
        return false, 0;
      }
      if Sum(va, size) <= va || Sum(pa, size) <= pa {
        return false, 0;
      }
      assert MappableRange(va, pa, size);
      assert Grew(old(tables), |old(pages.handed)|, TouchedPaths(va, 0)) by { GrewNone(); }
      var offset := 0;
      while offset < size
        invariant Valid() && root == old(root) && offset == PAGE * done && offset <= size
        invariant Decided(old(pages.memory.words), pages.memory.words, root, va, pa, flags, done)
        invariant Grew(old(tables), |old(pages.handed)|, TouchedPaths(va, done))
        invariant done > 0 ==> root != 0 && Permitted(flags)
      {
        ok := MapNext(va, pa, offset, flags, old(pages.memory.words), old(tables), |old(pages.handed)|, done);
        if !ok {
          return false, done;
        }
        offset := offset + PAGE;
        done := done + 1;
      }
      ok := true;
    }

    /**
     * `map_range_4k`: maps exactly the pages before the first that fails, and on success draws one page for
     * each touched table that was missing.
     */
    method MapRange4k(va: Word, pa: Word, size: Word, flags: nat) returns (ok: bool, ghost done: nat)
      requires Valid() && flags < 256
      modifies this, pages, pages.slots, pages.memory
      ensures Valid() && root == old(root)
      ensures ok <==> MappableRange(va, pa, size) && done == size / PAGE
      ensures if MappableRange(va, pa, size) then done <= size / PAGE else done == 0
      ensures MappableRange(va, pa, size) && !ok ==>
                || !Mappable(root, PageAt(va, done), PageAt(pa, done), flags)
                || ValidPte(Entry(VpnOf(PageAt(va, done)))) || Exhausted()
      ensures root != 0 ==> forall t :: InRange(t) && t !in Touched(va, done) ==> Translation(t) == old(Translation(t))
      ensures root != 0 && pa + size <= TWO56 && Accessible(flags) ==>
                forall k {:trigger PageAt(va, k)} :: 0 <= k < done ==>
                  Translation(VpnOf(PageAt(va, k))) == Page(PageAt(pa, k), WithValid(flags))
      ensures ok ==>
                var missing := Missing(old(pages.memory.words), root, TouchedPaths(va, done));
                root != 0 && |pages.handed| == |old(pages.handed)| + |missing|
    {
      hide Ready, TablesOk, AtLeaf, Paths, Exhausted, Deciding, Translate, HasTable, Mappable, VpnOf, Permitted;
      hide Accessible, WithValid;
      ghost var m, all := pages.memory.words, tables;
      if root != 0 {
        TranslationIsEntry();
      }
      ok, done := MapEntries(va, pa, size, flags);
      assert MappableRange(va, pa, size) ==> 0 < size / PAGE;
      if root != 0 {
        TranslationIsEntry();
        MissingPaths(m, root, all, TouchedPaths(va, done));
        if done > 0 && pa + size <= TWO56 && Accessible(flags) {
          DecidedPages(m, pages.memory.words, root, va, pa, flags, done);
        }
      }
    }
  }
}
