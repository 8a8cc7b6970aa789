/** Where the packer puts each partition of a manifest. */
module FfsLayout {
  import opened Bytes
  import opened FfsFormat

  datatype Option<+T> = None | Some(value: T)

  /** A partition's input: none is named, the named one is not given, or its bytes. */
  datatype Source = Unsourced | Missing | Given(bytes: seq<Byte>)

  /** One partition of a parsed manifest. */
  datatype Spec = Spec(
    name: string,
    source: Source,
    optional: bool,
    padTo: int,
    align: Option<int>,
    offset: Option<int>,
    size: Option<int>,
    misc: seq<string>,
    ecc: bool,
    shaVersion: bool,
    shaPerEc: bool)

  /** The image section of a parsed manifest. */
  datatype Geometry = Geometry(size: int, block: int, tocOffset: int, tocSize: int, dataOffset: int, fill: int)

  /**
   * What the packer asks of the geometry. It rejects a negative table offset or size, or a negative block size,
   * only when it packs them; here they are rejected at once.
   */
  predicate GeometryOk(g: Geometry) {
    && g.block > 0 && g.size > 0 && g.size % g.block == 0
    && g.tocOffset >= 0 && g.tocSize >= 0 && g.tocOffset % g.block == 0 && g.tocSize % g.block == 0
    && g.tocOffset + g.tocSize <= g.size && g.tocOffset + g.tocSize <= g.dataOffset && g.dataOffset % g.block == 0
    && 0 <= g.fill < 256
  }

  // ---------------------------------------------------------------------------------------------
  // Alignment

  function And(a: nat, b: nat): (r: nat)
    ensures r <= a && r <= b
  {
    if a == 0 || b == 0 then 0 else a % 2 * (b % 2) + 2 * And(a / 2, b / 2)
  }

  lemma {:induction false} AndMask(x: nat, n: nat)
    ensures And(x, Power(n) - 1) == x % Power(n)
  {
    hide And;
    if x == 0 {
      MaskOfZero(Power(n));
    } else if n == 0 {
      NoMask(x);
    } else {
      AndMask(x / 2, n - 1);
      MaskStep(x, Power(n - 1));
    }
  }

  lemma MaskOfZero(m: nat)
    requires m > 0
    ensures And(0, m - 1) == 0 % m
  {
  }

  lemma NoMask(x: nat)
    ensures And(x, 0) == x % 1
  {
  }

  lemma MaskStep(x: nat, m: nat)
    requires x > 0 && m > 0 && And(x / 2, m - 1) == x / 2 % m
    ensures And(x, 2 * m - 1) == x % (2 * m)
  {
    hide And;
    AndOdd(x, m);
    ModHalf(x, m);
  }

  lemma AndOdd(x: nat, m: nat)
    requires x > 0 && m > 0
    ensures And(x, 2 * m - 1) == x % 2 + 2 * And(x / 2, m - 1)
  {
    assert (2 * m - 1) / 2 == m - 1 && (2 * m - 1) % 2 == 1;
  }

  lemma ModHalf(x: nat, m: nat)
    requires m > 0
    ensures x % (2 * m) == x % 2 + 2 * (x / 2 % m)
  {
    var q, r := x / 2 / m, x / 2 % m;
    assert x / 2 == q * m + r;
    assert x == (2 * m) * q + (x % 2 + 2 * r);
    QuotientUnique(x, 2 * m, q, x % 2 + 2 * r);
  }

  lemma QuotientUnique(x: nat, m: nat, q: nat, r: nat)
    requires x == m * q + r && r < m
    ensures x % m == r
  {
    var d := x / m - q;
    assert x == m * (x / m) + x % m;
    assert m * d == r - x % m by { assert m * (x / m) - m * q == m * d; }
    assert d > 0 ==> m * d >= m;
    assert d < 0 ==> m * d + m <= 0;
  }

  /** The bit test of `_align_up` accepts exactly the powers of two. */
  lemma {:induction false} PowersOfTwo(a: nat)
    requires a > 0
    ensures And(a, a - 1) == 0 <==> exists n: nat :: a == Power(n)
  {
    if a % 2 == 0 {
      PowersOfTwo(a / 2);
      assert (a - 1) / 2 == a / 2 - 1 && And(a, a - 1) == 2 * And(a / 2, a / 2 - 1);
      HalfPower(a);
    } else if a > 1 {
      assert (a - 1) / 2 == a / 2;
      AndSelf(a / 2);
      assert And(a, a - 1) == 2 * (a / 2);
      forall n: nat ensures a != Power(n) {
        assert n > 0 ==> Power(n) == 2 * Power(n - 1);
      }
    } else {
      assert a == Power(0);
    }
  }

  lemma HalfPower(a: nat)
    requires a > 0 && a % 2 == 0
    ensures (exists n: nat :: a == Power(n)) <==> (exists n: nat :: a / 2 == Power(n))
  {
    if n: nat :| a / 2 == Power(n) {
      assert a == Power(n + 1);
    }
    if n: nat :| a == Power(n) {
      var k: nat := n - 1;
      assert a / 2 == Power(k);
    }
  }

  lemma {:induction false} AndSelf(a: nat)
    ensures And(a, a) == a
  {
    if a > 0 {
      AndSelf(a / 2);
    }
  }

  /** Masking out the low bits of `x` is subtracting them. */
  function AlignUp(value: nat, alignment: int): (r: Result<nat>)
    ensures r.Ok? ==> value <= r.value
  {
    if alignment <= 0 || And(alignment, alignment - 1) != 0 then Err
    else var x := value + alignment - 1; Ok(x - And(x, alignment - 1))
  }

  ghost predicate PowerOfTwo(a: int) { a > 0 && exists n: nat :: a == Power(n) }

  /** The result is the least multiple that is not below the value; only powers of two are accepted. */
  lemma AlignUpIsLeast(value: nat, alignment: int)
    ensures AlignUp(value, alignment).Ok? <==> PowerOfTwo(alignment)
    ensures AlignUp(value, alignment).Ok? ==>
              var r := AlignUp(value, alignment).value;
              r % alignment == 0 && value <= r < value + alignment
  {
    hide And, Power;
    if alignment > 0 {
      PowersOfTwo(alignment);
      if n: nat :| alignment == Power(n) {
        var x := value + alignment - 1;
        AndMask(x, n);
        RoundDown(x, alignment);
      }
    }
  }

  lemma RoundDown(x: nat, m: nat)
    requires m > 0
    ensures x - m < x - x % m <= x && (x - x % m) % m == 0
  {
    assert x == m * (x / m) + x % m;
    MultipleOf(m, x / m);
  }

  lemma MultipleOf(m: nat, q: nat)
    requires m > 0
    ensures m * q % m == 0
  {
    QuotientUnique(m * q, m, q, 0);
  }

  // ---------------------------------------------------------------------------------------------
  // One partition

  function FlagOf(name: string): Option<nat> {
    match name
    case "preserved" => Some(0x80)
    case "readonly" => Some(0x40)
    case "backup" => Some(0x20)
    case "reprovision" => Some(0x10)
    case "volatile" => Some(0x08)
    case "clear_ecc" => Some(0x04)
    case "golden" => Some(0x01)
    case _ => None
  }

  /** The bits of the first `k` flag names. */
  function MiscFlags(names: seq<string>, k: nat): Result<nat>
    requires k <= |names|
  {
    if k == 0 then Ok(0) else
    match MiscFlags(names, k - 1)
    case Err => Err
    case Ok(bits) =>
      match FlagOf(names[k - 1])
      case None => Err
      case Some(bit) => Ok(bits + bit - And(bits, bit))
  }

  function Repeat(b: Byte, n: nat): (s: seq<Byte>)
    ensures |s| == n && forall i :: 0 <= i < n ==> s[i] == b
  {
    seq(n, i => b)
  }

  /** The padded payload, or nothing for an optional partition without its input. */
  function PayloadFor(spec: Spec, fill: Byte): Result<Option<seq<Byte>>> {
    match spec.source
    case Unsourced => Ok(Some([]))
    case Missing => if spec.optional then Ok(None) else Err
    case Given(bytes) =>
      if bytes == [] then Err
      else if spec.padTo <= 1 then Ok(Some(bytes))
      else match AlignUp(|bytes|, spec.padTo)
        case Err => Err
        case Ok(n) => Ok(Some(bytes + Repeat(fill, n - |bytes|)))
  }

  function OffsetFor(g: Geometry, spec: Spec, cursor: nat): Result<int>
    requires g.block > 0
  {
    var offset := match spec.offset
                  case Some(at) => Ok(at)
                  case None =>
                    match AlignUp(cursor, if spec.align.Some? then spec.align.value else g.block)
                    case Err => Err
                    case Ok(at) => Ok(at);
    if offset.Err? || offset.value % g.block != 0 then Err else offset
  }

  function RoomFor(g: Geometry, spec: Spec, length: nat): Result<int>
    requires g.block > 0
  {
    match spec.size
    case None => (match AlignUp(if length == 0 then 1 else length, g.block) case Err => Err case Ok(room) => Ok(room))
    case Some(size) => if size % g.block != 0 || size < length then Err else Ok(size)
  }

  /** The partition of a manifest entry, before it is compared with the others. */
  function Proposed(g: Geometry, spec: Spec, cursor: nat): Result<Option<Partition>>
    requires GeometryOk(g)
  {
    match PayloadFor(spec, g.fill)
    case Err => Err
    case Ok(None) => Ok(None)
    case Ok(Some(payload)) =>
      var offset, room := OffsetFor(g, spec, cursor), RoomFor(g, spec, |payload|);
      var misc := MiscFlags(spec.misc, |spec.misc|);
      if offset.Err? || room.Err? || misc.Err? || room.value <= 0 || offset.value + room.value > g.size then Err else
      Ok(Some(Partition(spec.name, offset.value, room.value, |payload|, payload, 0, if spec.ecc then INTEG_ECC else 0,
                        (if spec.shaVersion then 0x80 else 0) + (if spec.shaPerEc then 0x40 else 0),
                        misc.value, TYPE_DATA)))
  }

  // ---------------------------------------------------------------------------------------------
  // All of them

  datatype Layout = Layout(partitions: seq<Partition>, cursor: nat)

  /** The table's own entry, for `n` other partitions. */
  function TableEntry(g: Geometry, n: nat): Partition {
    Partition("part", g.tocOffset, g.tocSize, HEADER_SIZE + (n + 1) * ENTRY_SIZE, [], 0, 0, 0, MISC_READONLY,
              TYPE_PARTITION)
  }

  /** Apart from the table and from every partition already placed. */
  predicate Clear(g: Geometry, placed: seq<Partition>, p: Partition) {
    Apart(TableEntry(g, 0), p) && forall i :: 0 <= i < |placed| ==> Apart(placed[i], p)
  }

  function Advance(g: Geometry, spec: Spec, l: Layout): Result<Layout>
    requires GeometryOk(g)
  {
    match Proposed(g, spec, l.cursor)
    case Err => Err
    case Ok(None) => Ok(l)
    case Ok(Some(p)) =>
      if !Clear(g, l.partitions, p) then Err
      else Ok(Layout(l.partitions + [p], if p.offset + p.room > l.cursor then p.offset + p.room else l.cursor))
  }

  /** The layout after the first `k` manifest entries. */
  function Placed(g: Geometry, specs: seq<Spec>, k: nat): Result<Layout>
    requires GeometryOk(g) && k <= |specs|
  {
    if k == 0 then Ok(Layout([], g.dataOffset)) else
    match Placed(g, specs, k - 1)
    case Err => Err
    case Ok(l) => Advance(g, specs[k - 1], l)
  }

  lemma {:induction false} PlacedErrStays(g: Geometry, specs: seq<Spec>, k: nat, n: nat)
    requires GeometryOk(g) && k <= n <= |specs| && Placed(g, specs, k).Err?
    ensures Placed(g, specs, n).Err?
  {
    if k < n {
      PlacedErrStays(g, specs, k, n - 1);
    }
  }

  /** No two partitions share a byte, none reaches into the table, and each has space for its payload. */
  lemma {:induction false} PlacedApart(g: Geometry, specs: seq<Spec>, k: nat)
    requires GeometryOk(g) && k <= |specs| && Placed(g, specs, k).Ok?
    ensures var s := Placed(g, specs, k).value.partitions;
            && (forall i :: 0 <= i < |s| ==>
                  && s[i].actual == |s[i].payload| <= s[i].room && 0 < s[i].room && s[i].offset + s[i].room <= g.size
                  && Apart(TableEntry(g, 0), s[i]))
            && (forall i, j :: 0 <= i < j < |s| ==> Apart(s[i], s[j]))
  {
    if k > 0 {
      PlacedApart(g, specs, k - 1);
      ProposedFits(g, specs[k - 1], Placed(g, specs, k - 1).value.cursor);
    }
  }

  lemma ProposedFits(g: Geometry, spec: Spec, cursor: nat)
    requires GeometryOk(g)
    ensures var r := Proposed(g, spec, cursor);
            r.Ok? && r.value.Some? ==>
              var p := r.value.value;
              p.actual == |p.payload| <= p.room && 0 < p.room && p.offset + p.room <= g.size
  {
    var payload := PayloadFor(spec, g.fill);
    if payload.Ok? && payload.value.Some? {
      var n := |payload.value.value|;
      AlignUpIsLeast(if n == 0 then 1 else n, g.block);
    }
  }

  /** The loop of `build_image` over the manifest. */
  method Place(g: Geometry, specs: seq<Spec>) returns (r: Result<seq<Partition>>)
    requires GeometryOk(g)
    ensures r == var l := Placed(g, specs, |specs|); if l.Ok? then Ok(l.value.partitions) else Err
  {
    hide Proposed;
    var partitions: seq<Partition>, cursor: nat, index := [], g.dataOffset, 0;
    var intervals := [(g.tocOffset, g.tocOffset + g.tocSize)];
    while index < |specs|
      invariant 0 <= index <= |specs| && Placed(g, specs, index) == Ok(Layout(partitions, cursor))
      invariant |intervals| == |partitions| + 1 && intervals[0] == (g.tocOffset, g.tocOffset + g.tocSize)
      invariant forall i :: 0 <= i < |partitions| ==>
                  intervals[i + 1] == (partitions[i].offset, partitions[i].offset + partitions[i].room)
    {
      var proposed := Proposed(g, specs[index], cursor);
      if proposed.Err? {
        PlacedErrStays(g, specs, index + 1, |specs|);
        return Err;
      }
      if proposed.value.Some? {
        var p := proposed.value.value;
        var end := p.offset + p.room;
        var clear := Disjoint(intervals, p.offset, end);
        ProposedFits(g, specs[index], cursor);
        assert clear <==> Clear(g, partitions, p) by { SameIntervals(g, partitions, intervals, p); }
        if !clear {
          PlacedErrStays(g, specs, index + 1, |specs|);
          return Err;
        }
        partitions := partitions + [p];
        intervals := intervals + [(p.offset, end)];
        cursor := if end > cursor then end else cursor;
      }
      index := index + 1;
    }
    r := Ok(partitions);
  }

  /** The overlap test against every interval taken so far. */
  method Disjoint(intervals: seq<(int, int)>, offset: int, end: int) returns (clear: bool)
    ensures clear <==> forall i :: 0 <= i < |intervals| ==> intervals[i].1 <= offset || end <= intervals[i].0
  {
    var index := 0;
    while index < |intervals|
      invariant 0 <= index <= |intervals|
      invariant forall i :: 0 <= i < index ==> intervals[i].1 <= offset || end <= intervals[i].0
    {
      if offset < intervals[index].1 && intervals[index].0 < end {
        return false;
      }
      index := index + 1;
    }
    clear := true;
  }

  lemma SameIntervals(g: Geometry, placed: seq<Partition>, intervals: seq<(int, int)>, p: Partition)
    requires |intervals| == |placed| + 1 && intervals[0] == (g.tocOffset, g.tocOffset + g.tocSize)
    requires forall i :: 0 <= i < |placed| ==> intervals[i + 1] == (placed[i].offset, placed[i].offset + placed[i].room)
    ensures Clear(g, placed, p) <==>
              forall i :: 0 <= i < |intervals| ==> intervals[i].1 <= p.offset || p.offset + p.room <= intervals[i].0
  {
    if forall i :: 0 <= i < |intervals| ==> intervals[i].1 <= p.offset || p.offset + p.room <= intervals[i].0 {
      forall i | 0 <= i < |placed| ensures Apart(placed[i], p) {
        assert intervals[i + 1].0 == placed[i].offset;
      }
    }
    if Clear(g, placed, p) {
      forall i | 0 <= i < |intervals| ensures intervals[i].1 <= p.offset || p.offset + p.room <= intervals[i].0 {
        if i > 0 {
          assert Apart(placed[i - 1], p);
          assert intervals[i - 1 + 1] == (placed[i - 1].offset, placed[i - 1].offset + placed[i - 1].room);
        }
      }
    }
  }
}
