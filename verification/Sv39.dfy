/**
 * Sv39 page tables against the translation process of section 4.3.2 of the RISC-V Privileged
 * Architecture specification (version 20211203), with the Sv39 parameters of section 4.4.
 */
module Sv39 {
  import opened Base
  import opened Pages
  import opened PageManager

  const TWO44: nat := 0x1000_0000_0000
  const TWO54: nat := 0x40_0000_0000_0000
  const TWO56: nat := 0x100_0000_0000_0000

  type Memory = map<nat, nat>

  // ---------------------------------------------------------------------------------------------
  // The translation process, from the specification

  datatype Translation = Fault | Page(address: nat, flags: nat)

  /** The three nine-bit parts of a virtual page number, most significant first. */
  datatype Vpn = Vpn(v2: nat, v1: nat, v0: nat)

  function Part(t: Vpn, level: nat): nat { if level == 2 then t.v2 else if level == 1 then t.v1 else t.v0 }

  predicate Bit(x: nat, n: nat) { (x / Pow2(n)) % 2 == 1 }

  function Pow2(n: nat): nat {
    match n case 0 => 1 case 1 => 2 case 2 => 4 case 3 => 8 case 4 => 16 case 5 => 32 case 6 => 64 case _ => 128
  }

  /** The page size in base pages at a level. */
  function Span(level: nat): nat { if level == 2 then 512 * 512 else if level == 1 then 512 else 1 }

  /** The offset of the page within a superpage leaf. */
  function Within(t: Vpn, level: nat): nat { if level == 2 then t.v1 * 512 + t.v0 else if level == 1 then t.v0 else 0 }

  function Walk(m: Memory, table: nat, level: nat, t: Vpn): Translation
    requires level <= 2
    decreases level
  {
    var a := table + 8 * Part(t, level);
    if a !in m then Fault else
    var pte := m[a];
    var ppn := pte / 1024 % TWO44;
    if !Bit(pte, 0) || (!Bit(pte, 1) && Bit(pte, 2)) || pte / TWO54 != 0 then Fault
    else if Bit(pte, 1) || Bit(pte, 3) then
      if ppn % Span(level) != 0 then Fault else Page((ppn + Within(t, level)) * 4096, pte % 256)
    else if level == 0 || Bit(pte, 4) || Bit(pte, 6) || Bit(pte, 7) then Fault
    else Walk(m, ppn * 4096, level - 1, t)
  }

  function Translate(m: Memory, root: nat, t: Vpn): Translation { Walk(m, root, 2, t) }

  // ---------------------------------------------------------------------------------------------
  // Entries as the code reads and writes them

  function VpnOf(va: nat): Vpn { Vpn(va / 0x4000_0000 % 512, va / 0x20_0000 % 512, va / 4096 % 512) }

  /** `make_pte` for flags within the ten low bits. */
  function Pte(address: nat, flags: nat): nat { address / 4096 * 1024 + flags }

  function AddressOf(pte: nat): nat { pte / 1024 % TWO44 * 4096 }

  predicate ValidPte(pte: nat) { pte % 2 == 1 }

  predicate LeafPte(pte: nat) { pte / 2 % 8 != 0 }

  function WithValid(flags: nat): nat { if flags % 2 == 1 then flags else flags + 1 }

  /** What the walk makes of the entry it finds in a lowest table. */
  function AtLeaf(pte: nat): Translation {
    if !Bit(pte, 0) || (!Bit(pte, 1) && Bit(pte, 2)) || pte / TWO54 != 0 then Fault
    else if Bit(pte, 1) || Bit(pte, 3) then Page(AddressOf(pte), pte % 256) else Fault
  }

  lemma EvenPart(q: nat, y: nat)
    ensures (2 * q + y) % 2 == y % 2
  {
  }

  /** The low bits of an entry are its flags. */
  lemma BitOfEntry(ppn: nat, flags: nat, n: nat)
    requires flags < 1024 && n <= 7
    ensures Bit(ppn * 1024 + flags, n) <==> Bit(flags, n)
  {
    if n <= 3 {
      LowBitOfEntry(ppn, flags, n);
    } else {
      HighBitOfEntry(ppn, flags, n);
    }
  }

  lemma LowBitOfEntry(ppn: nat, flags: nat, n: nat)
    requires flags < 1024 && n <= 3
    ensures Bit(ppn * 1024 + flags, n) <==> Bit(flags, n)
  {
    var x := ppn * 1024 + flags;
    match n
    case 0 => assert x / 1 == 2 * (ppn * 512) + flags / 1; EvenPart(ppn * 512, flags / 1);
    case 1 => assert x / 2 == 2 * (ppn * 256) + flags / 2; EvenPart(ppn * 256, flags / 2);
    case 2 => assert x / 4 == 2 * (ppn * 128) + flags / 4; EvenPart(ppn * 128, flags / 4);
    case 3 => assert x / 8 == 2 * (ppn * 64) + flags / 8; EvenPart(ppn * 64, flags / 8);
  }

  lemma HighBitOfEntry(ppn: nat, flags: nat, n: nat)
    requires flags < 1024 && 4 <= n <= 7
    ensures Bit(ppn * 1024 + flags, n) <==> Bit(flags, n)
  {
    var x := ppn * 1024 + flags;
    match n
    case 4 => assert x / 16 == 2 * (ppn * 32) + flags / 16; EvenPart(ppn * 32, flags / 16);
    case 5 => assert x / 32 == 2 * (ppn * 16) + flags / 32; EvenPart(ppn * 16, flags / 32);
    case 6 => assert x / 64 == 2 * (ppn * 8) + flags / 64; EvenPart(ppn * 8, flags / 64);
    case 7 => assert x / 128 == 2 * (ppn * 4) + flags / 128; EvenPart(ppn * 4, flags / 128);
  }

  lemma FieldsOfEntry(ppn: nat, flags: nat)
    requires flags < 1024
    ensures var x := ppn * 1024 + flags;
            && x / 1024 == ppn && x % 256 == flags % 256 && (x / TWO54 == 0 <==> ppn < TWO44)
            && (ppn < TWO44 ==> x / 1024 % TWO44 == ppn)
  {
    var x := ppn * 1024 + flags;
    assert x / 1024 == ppn;
    assert x == (ppn * 4) * 256 + flags;
    if ppn < TWO44 {
      assert x < TWO54;
    } else {
      assert x >= TWO54;
    }
  }

  /**
   * A leaf that the code writes translates to exactly the requested page and flags if and only if the
   * address fits the 44-bit page number and the page is readable or executable.
   */
  lemma LeafIsExact(address: nat, flags: nat)
    requires Aligned(address) && flags < 256 && !(Bit(flags, 2) && !Bit(flags, 1))
    ensures AtLeaf(Pte(address, WithValid(flags))) == Page(address, WithValid(flags)) <==>
              address < TWO56 && (Bit(flags, 1) || Bit(flags, 3))
  {
    var ppn, f := address / 4096, WithValid(flags);
    FieldsOfEntry(ppn, f);
    BitOfEntry(ppn, f, 0);
    BitOfEntry(ppn, f, 1);
    BitOfEntry(ppn, f, 2);
    BitOfEntry(ppn, f, 3);
    assert address == ppn * 4096;
    assert f / 2 == flags / 2 && f / 4 == flags / 4 && f / 8 == flags / 8;
  }

  lemma PointerRoundTrip(child: nat)
    requires Aligned(child) && child < TWO56
    ensures var e := Pte(child, 1);
            ValidPte(e) && !LeafPte(e) && AddressOf(e) == child && e / TWO54 == 0
            && Bit(e, 0) && !Bit(e, 1) && !Bit(e, 2) && !Bit(e, 3) && !Bit(e, 4) && !Bit(e, 6) && !Bit(e, 7)
  {
    var ppn := child / 4096;
    FieldsOfEntry(ppn, 1);
    PointerShape(ppn);
    assert child == ppn * 4096;
    hide Bit;
    forall n {:trigger Bit(ppn * 1024 + 1, n)} | 0 <= n <= 7 ensures Bit(ppn * 1024 + 1, n) <==> n == 0 {
      BitOfEntry(ppn, 1, n);
      OnlyBitZero(n);
    }
  }

  lemma OnlyBitZero(n: nat)
    requires n <= 7
    ensures Bit(1, n) <==> n == 0
  {
  }

  lemma PointerShape(ppn: nat)
    ensures ValidPte(ppn * 1024 + 1) && !LeafPte(ppn * 1024 + 1)
  {
    assert (ppn * 1024 + 1) / 2 == ppn * 512;
    assert ppn * 512 % 8 == 0;
  }

  // ---------------------------------------------------------------------------------------------
  // Well-formed tables

  /** Which part of the address space a table page describes. */
  datatype Path = Root | Middle(v2: nat) | Low(v2: nat, v1: nat)

  function Child(p: Path, i: nat): Path {
    match p
    case Root => Middle(i)
    case Middle(v2) => Low(v2, i)
    case Low(v2, v1) => Low(v2, v1)
  }

  predicate InRange(t: Vpn) { t.v2 < 512 && t.v1 < 512 && t.v0 < 512 }

  /** The word of entry `i` of a table page. */
  function Slot(table: nat, i: nat): nat { table + 8 * i }

  ghost predicate TablePage(m: Memory, table: nat) {
    0 < table < TWO56 && Aligned(table) && forall i {:trigger Slot(table, i)} :: 0 <= i < 512 ==> Slot(table, i) in m
  }

  /** An upper entry is invalid, or points to the table of its part of the address space. */
  ghost predicate EntryOk(tables: map<nat, Path>, p: Path, i: nat, e: nat) {
    || p.Low? || !ValidPte(e)
    || (e == Pte(AddressOf(e), 1) && AddressOf(e) in tables && tables[AddressOf(e)] == Child(p, i))
  }

  /** The table one level down, or 0 when there is none. */
  function Below(m: Memory, table: nat, i: nat): nat {
    if table != 0 && Slot(table, i) in m && ValidPte(m[Slot(table, i)]) then AddressOf(m[Slot(table, i)]) else 0
  }

  /** The table is where the path leads. */
  predicate Leads(m: Memory, root: nat, p: Path, table: nat) {
    match p
    case Root => table == root
    case Middle(v2) => v2 < 512 && Below(m, root, v2) == table
    case Low(v2, v1) => v2 < 512 && v1 < 512 && Below(m, Below(m, root, v2), v1) == table
  }

  ghost predicate TablesOk(m: Memory, root: nat, tables: map<nat, Path>) {
    && root in tables && tables[root] == Root
    && (forall p :: p in tables ==> Leads(m, root, tables[p], p))
    && (forall p :: p in tables ==> TablePage(m, p))
    && (forall p, i {:trigger Slot(p, i), tables[p]} :: p in tables && 0 <= i < 512 ==>
          EntryOk(tables, tables[p], i, m[Slot(p, i)]))
  }

  /** The entry that decides a translation, or 0 when a table is missing. */
  function Deciding(m: Memory, root: nat, t: Vpn): nat {
    var low := Below(m, Below(m, root, t.v2), t.v1);
    if low != 0 && Slot(low, t.v0) in m then m[Slot(low, t.v0)] else 0
  }

  lemma BelowFacts(m: Memory, root: nat, tables: map<nat, Path>, table: nat, i: nat)
    requires TablesOk(m, root, tables) && table in tables && !tables[table].Low? && i < 512
    ensures Slot(table, i) in m
    ensures Below(m, table, i) == 0 <==> !ValidPte(m[Slot(table, i)])
    ensures Below(m, table, i) != 0 ==>
              && Below(m, table, i) in tables && tables[Below(m, table, i)] == Child(tables[table], i)
              && m[Slot(table, i)] == Pte(Below(m, table, i), 1)
  {
    assert EntryOk(tables, tables[table], i, m[Slot(table, i)]);
    assert TablePage(m, table);
  }

  /** The architectural walk of well-formed tables is decided by one entry. */
  lemma WalkIsDeciding(m: Memory, root: nat, tables: map<nat, Path>, t: Vpn)
    requires TablesOk(m, root, tables) && InRange(t)
    ensures Translate(m, root, t) == AtLeaf(Deciding(m, root, t))
  {
    hide Bit, AtLeaf;
    BelowFacts(m, root, tables, root, t.v2);
    var middle := Below(m, root, t.v2);
    WalkDown(m, root, tables, root, 2, t);
    if middle != 0 {
      BelowFacts(m, root, tables, middle, t.v1);
      WalkDown(m, root, tables, middle, 1, t);
      var low := Below(m, middle, t.v1);
      if low != 0 {
        assert TablePage(m, low);
        WalkLow(m, low, t);
      }
    }
    ZeroFaults();
  }

  lemma ZeroFaults()
    ensures AtLeaf(0) == Fault
  {
  }

  lemma WalkDown(m: Memory, root: nat, tables: map<nat, Path>, table: nat, level: nat, t: Vpn)
    requires TablesOk(m, root, tables) && InRange(t) && 1 <= level <= 2 && table in tables && !tables[table].Low?
    ensures var below := Below(m, table, Part(t, level));
            Walk(m, table, level, t) == if below == 0 then Fault else Walk(m, below, level - 1, t)
  {
    hide Bit, ValidPte, Pte;
    var i := Part(t, level);
    BelowFacts(m, root, tables, table, i);
    var below := Below(m, table, i);
    if below != 0 {
      assert TablePage(m, below);
      PointerRoundTrip(below);
      WalkPointer(m, table, level, t, below);
    } else {
      InvalidBit(m[Slot(table, i)]);
    }
  }

  /** What the walk makes of a pointer to the next table. */
  lemma WalkPointer(m: Memory, table: nat, level: nat, t: Vpn, below: nat)
    requires 1 <= level <= 2 && Slot(table, Part(t, level)) in m
    requires var e := m[Slot(table, Part(t, level))];
             && AddressOf(e) == below && e / TWO54 == 0
             && Bit(e, 0) && !Bit(e, 1) && !Bit(e, 2) && !Bit(e, 3) && !Bit(e, 4) && !Bit(e, 6) && !Bit(e, 7)
    ensures Walk(m, table, level, t) == Walk(m, below, level - 1, t)
  {
    hide Bit;
  }

  lemma InvalidBit(e: nat)
    requires !ValidPte(e)
    ensures !Bit(e, 0)
  {
  }

  lemma WalkLow(m: Memory, low: nat, t: Vpn)
    requires Slot(low, t.v0) in m
    ensures Walk(m, low, 0, t) == AtLeaf(m[Slot(low, t.v0)])
  {
  }

  // ---------------------------------------------------------------------------------------------
  // Writes

  lemma SlotsAreApart(p: nat, q: nat, i: nat, j: nat)
    requires Aligned(p) && Aligned(q) && i < 512 && j < 512
    ensures Slot(p, i) == Slot(q, j) <==> p == q && i == j
  {
  }

  /** Memory that agrees on the tables translates alike. */
  lemma SameTables(m: Memory, m': Memory, root: nat, tables: map<nat, Path>)
    requires TablesOk(m, root, tables)
    requires forall p, i {:trigger Slot(p, i)} :: p in tables && 0 <= i < 512 ==>
               Slot(p, i) in m' && m'[Slot(p, i)] == m[Slot(p, i)]
    ensures TablesOk(m', root, tables)
    ensures forall p, i :: p in tables && 0 <= i < 512 ==> Below(m', p, i) == Below(m, p, i)
    ensures forall t :: InRange(t) ==> Deciding(m', root, t) == Deciding(m, root, t)
  {
    assert forall p :: p in tables ==> TablePage(m, p);
    assert forall p, i :: p in tables && 0 <= i < 512 ==> Below(m', p, i) == Below(m, p, i);
    forall p | p in tables ensures Leads(m', root, tables[p], p) && TablePage(m', p) {
      assert Leads(m, root, tables[p], p);
      LeadsThroughTables(m, root, tables, p);
    }
    forall t | InRange(t) ensures Deciding(m', root, t) == Deciding(m, root, t) {
      DecidingThroughTables(m, root, tables, t);
    }
    forall p, i | p in tables && 0 <= i < 512 ensures EntryOk(tables, tables[p], i, m'[Slot(p, i)]) {
      assert EntryOk(tables, tables[p], i, m[Slot(p, i)]);
    }
  }

  /** A lower table hangs from a middle one. */
  lemma LeadsThroughTables(m: Memory, root: nat, tables: map<nat, Path>, p: nat)
    requires TablesOk(m, root, tables) && p in tables
    ensures tables[p].Low? ==> Below(m, root, tables[p].v2) in tables
  {
    assert Leads(m, root, tables[p], p) && TablePage(m, p);
    if tables[p].Low? {
      BelowFacts(m, root, tables, root, tables[p].v2);
    }
  }

  lemma DecidingThroughTables(m: Memory, root: nat, tables: map<nat, Path>, t: Vpn)
    requires TablesOk(m, root, tables) && InRange(t)
    ensures var middle := Below(m, root, t.v2);
            && (middle != 0 ==> middle in tables && tables[middle] == Middle(t.v2))
            && (middle == 0 ==> Below(m, middle, t.v1) == 0)
            && var low := Below(m, middle, t.v1);
               low != 0 ==> low in tables && tables[low] == Low(t.v2, t.v1) && Slot(low, t.v0) in m
  {
    BelowFacts(m, root, tables, root, t.v2);
    var middle := Below(m, root, t.v2);
    if middle != 0 {
      BelowFacts(m, root, tables, middle, t.v1);
      if Below(m, middle, t.v1) != 0 {
        assert TablePage(m, Below(m, middle, t.v1));
      }
    }
  }

  lemma WordsOfPage(p: nat, page: nat, i: nat)
    requires Aligned(p) && Aligned(page) && i < 512
    ensures IsWordOf(page, 512, Slot(p, i)) <==> p == page
  {
  }

  /** Clearing a page that is not a table leaves every translation alone. */
  lemma ZeroElsewhere(m: Memory, root: nat, tables: map<nat, Path>, page: nat)
    requires TablesOk(m, root, tables) && Aligned(page) && page !in tables
    ensures var m' := Zeroed(m, page, 512);
            && TablesOk(m', root, tables)
            && (forall p, i :: p in tables && 0 <= i < 512 ==> Below(m', p, i) == Below(m, p, i))
            && (forall t :: InRange(t) ==> Deciding(m', root, t) == Deciding(m, root, t))
            && (0 < page < TWO56 ==> TablePage(m', page))
            && (forall i {:trigger Slot(page, i)} :: 0 <= i < 512 ==> Slot(page, i) in m' && m'[Slot(page, i)] == 0)
  {
    hide Zeroed;
    var m' := Zeroed(m, page, 512);
    forall p, i {:trigger Slot(p, i)} | p in tables && 0 <= i < 512
      ensures Slot(p, i) in m' && m'[Slot(p, i)] == m[Slot(p, i)]
    {
      assert TablePage(m, p);
      ZeroedAt(m, page, 512, Slot(p, i));
      WordsOfPage(p, page, i);
    }
    forall i {:trigger Slot(page, i)} | 0 <= i < 512 ensures Slot(page, i) in m' && m'[Slot(page, i)] == 0 {
      ZeroedAt(m, page, 512, Slot(page, i));
      WordsOfPage(page, page, i);
    }
    hide IsWordOf, Aligned;
    SameTables(m, m', root, tables);
  }

  /** What a new, empty table under entry `i` of `table` changes: that entry, and no translation. */
  ghost predicate Linked(m: Memory, m': Memory, root: nat, tables: map<nat, Path>, table: nat, i: nat, child: nat)
    requires table in tables
  {
    && TablesOk(m', root, tables[child := Child(tables[table], i)])
    && (forall q, j :: q in tables && 0 <= j < 512 ==>
          Below(m', q, j) == if q == table && j == i then child else Below(m, q, j))
    && (forall j :: 0 <= j < 512 ==> Below(m', child, j) == 0)
    && (forall t :: InRange(t) ==> Deciding(m', root, t) == Deciding(m, root, t))
  }

  lemma LinkBelow(m: Memory, root: nat, tables: map<nat, Path>, table: nat, i: nat, child: nat)
    requires TablesOk(m, root, tables) && table in tables && i < 512 && child !in tables && TablePage(m, child)
    requires forall j {:trigger Slot(child, j)} :: 0 <= j < 512 ==> m[Slot(child, j)] == 0
    ensures var m' := m[Slot(table, i) := Pte(child, 1)];
            && (forall q, j :: q in tables && 0 <= j < 512 ==>
                  Below(m', q, j) == if q == table && j == i then child else Below(m, q, j))
            && (forall j :: 0 <= j < 512 ==> Below(m', child, j) == 0)
            && (forall q, j {:trigger Slot(q, j)} :: q in tables && 0 <= j < 512 && (q != table || j != i) ==>
                  m'[Slot(q, j)] == m[Slot(q, j)])
            && (forall j {:trigger Slot(child, j)} :: 0 <= j < 512 ==> m'[Slot(child, j)] == 0)
  {
    var m' := m[Slot(table, i) := Pte(child, 1)];
    PointerRoundTrip(child);
    forall q, j {:trigger Slot(q, j)} | (q in tables || q == child) && 0 <= j < 512
      ensures (q != table || j != i) ==> m'[Slot(q, j)] == m[Slot(q, j)]
      ensures q == table && j == i ==> m'[Slot(q, j)] == Pte(child, 1)
      ensures Slot(q, j) in m' && q != 0
    {
      assert q in tables ==> TablePage(m, q);
      assert TablePage(m, table);
      SlotsAreApart(q, table, j, i);
    }
  }

  lemma LinkChild(m: Memory, root: nat, tables: map<nat, Path>, table: nat, i: nat, child: nat)
    requires TablesOk(m, root, tables) && table in tables && !tables[table].Low? && i < 512 && child !in tables
    requires TablePage(m, child) && !ValidPte(m[Slot(table, i)])
    requires forall j {:trigger Slot(child, j)} :: 0 <= j < 512 ==> m[Slot(child, j)] == 0
    ensures Linked(m, m[Slot(table, i) := Pte(child, 1)], root, tables, table, i, child)
  {
    var m' := m[Slot(table, i) := Pte(child, 1)];
    var tables' := tables[child := Child(tables[table], i)];
    LinkBelow(m, root, tables, table, i, child);
    LinkedTables(m, root, tables, table, i, child);
    forall t | InRange(t) ensures Deciding(m', root, t) == Deciding(m, root, t) {
      LinkedDeciding(m, root, tables, table, i, child, t);
    }
  }

  lemma LinkedTables(m: Memory, root: nat, tables: map<nat, Path>, table: nat, i: nat, child: nat)
    requires TablesOk(m, root, tables) && table in tables && !tables[table].Low? && i < 512 && child !in tables
    requires TablePage(m, child) && !ValidPte(m[Slot(table, i)])
    requires forall j {:trigger Slot(child, j)} :: 0 <= j < 512 ==> m[Slot(child, j)] == 0
    ensures TablesOk(m[Slot(table, i) := Pte(child, 1)], root, tables[child := Child(tables[table], i)])
  {
    var m' := m[Slot(table, i) := Pte(child, 1)];
    var tables' := tables[child := Child(tables[table], i)];
    LinkBelow(m, root, tables, table, i, child);
    PointerRoundTrip(child);
    BelowFacts(m, root, tables, table, i);
    assert Leads(m, root, tables[table], table);
    forall p | p in tables ensures Leads(m', root, tables[p], p) && TablePage(m', p) {
      assert TablePage(m, p) && Leads(m, root, tables[p], p);
      LeadsThroughTables(m, root, tables, p);
    }
    assert Leads(m', root, tables'[child], child) && TablePage(m', child);
    forall p, j {:trigger Slot(p, j)} | p in tables' && 0 <= j < 512
      ensures EntryOk(tables', tables'[p], j, m'[Slot(p, j)])
    {
      if p in tables {
        assert EntryOk(tables, tables[p], j, m[Slot(p, j)]);
      }
    }
  }

  lemma LinkedDeciding(m: Memory, root: nat, tables: map<nat, Path>, table: nat, i: nat, child: nat, t: Vpn)
    requires TablesOk(m, root, tables) && table in tables && !tables[table].Low? && i < 512 && child !in tables
    requires InRange(t)
    requires TablePage(m, child) && !ValidPte(m[Slot(table, i)])
    requires forall j {:trigger Slot(child, j)} :: 0 <= j < 512 ==> m[Slot(child, j)] == 0
    ensures Deciding(m[Slot(table, i) := Pte(child, 1)], root, t) == Deciding(m, root, t)
  {
    LinkBelow(m, root, tables, table, i, child);
    BelowFacts(m, root, tables, table, i);
    DecidingThroughTables(m, root, tables, t);
  }

  /** Writing a leaf decides exactly one translation. */
  lemma SetLeaf(m: Memory, root: nat, tables: map<nat, Path>, low: nat, t: Vpn, e: nat)
    requires TablesOk(m, root, tables) && InRange(t) && low in tables && tables[low] == Low(t.v2, t.v1)
    ensures var m' := m[Slot(low, t.v0) := e];
            && TablesOk(m', root, tables) && Deciding(m, root, t) == m[Slot(low, t.v0)]
            && (forall p, i :: p in tables && 0 <= i < 512 && !tables[p].Low? ==> Below(m', p, i) == Below(m, p, i))
            && (forall u :: InRange(u) ==> Deciding(m', root, u) == if u == t then e else Deciding(m, root, u))
  {
    var m' := m[Slot(low, t.v0) := e];
    assert TablePage(m, low) && Leads(m, root, tables[low], low);
    forall p, i {:trigger Slot(p, i)} | p in tables && 0 <= i < 512
      ensures Slot(p, i) in m' && m'[Slot(p, i)] == if p == low && i == t.v0 then e else m[Slot(p, i)]
    {
      assert TablePage(m, p);
      SlotsAreApart(p, low, i, t.v0);
    }
    forall p | p in tables ensures Leads(m', root, tables[p], p) && TablePage(m', p) {
      assert TablePage(m, p) && Leads(m, root, tables[p], p);
      LeadsThroughTables(m, root, tables, p);
      if tables[p].Low? {
        BelowFacts(m, root, tables, root, tables[p].v2);
      }
    }
    forall p, j {:trigger Slot(p, j)} | p in tables && 0 <= j < 512
      ensures EntryOk(tables, tables[p], j, m'[Slot(p, j)])
    {
      assert EntryOk(tables, tables[p], j, m[Slot(p, j)]);
    }
    forall u | InRange(u) ensures Deciding(m', root, u) == if u == t then e else Deciding(m, root, u) {
      DecidingThroughTables(m, root, tables, u);
    }
  }
}
