/** What a manifest asks for, and that the layout is exactly that: partition by partition, or a refusal. */
module FfsManifest {
  import opened Bytes
  import opened FfsFormat
  import opened FfsLayout

  // ---------------------------------------------------------------------------------------------
  // Bits

  predicate BitAt(x: nat, m: nat) { if m == 0 then x % 2 == 1 else BitAt(x / 2, m - 1) }

  lemma {:induction false} ZeroHasNoBits(m: nat)
    ensures !BitAt(0, m)
  {
    if m > 0 {
      ZeroHasNoBits(m - 1);
    }
  }

  /** Adding a power of two that is not yet in sets its bit and no other. */
  lemma {:induction false} SetBit(x: nat, n: nat, m: nat)
    ensures And(x, Power(n)) <= Power(n)
    ensures BitAt(x + Power(n) - And(x, Power(n)), m) <==> m == n || BitAt(x, m)
  {
    var y := x + Power(n) - And(x, Power(n));
    if x == 0 {
      OneBit(n, m);
      ZeroHasNoBits(m);
    } else if n == 0 {
      AndOne(x);
      if m > 0 {
        assert y / 2 == x / 2;
      }
    } else {
      AndEven(x, Power(n - 1));
      if m > 0 {
        SetBit(x / 2, n - 1, m - 1);
        assert y / 2 == x / 2 + Power(n - 1) - And(x / 2, Power(n - 1));
      }
    }
  }

  lemma {:induction false} OneBit(n: nat, m: nat)
    ensures BitAt(Power(n), m) <==> m == n
  {
    if n == 0 {
      if m > 0 {
        ZeroHasNoBits(m - 1);
      }
    } else if m > 0 {
      OneBit(n - 1, m - 1);
    }
  }

  lemma AndOne(x: nat)
    requires x > 0
    ensures And(x, 1) == x % 2
  {
    assert And(x / 2, 0) == 0;
  }

  lemma AndEven(x: nat, a: nat)
    requires x > 0 && a > 0
    ensures And(x, 2 * a) == 2 * And(x / 2, a)
  {
  }

  /** The bits determine the number. */
  lemma {:induction false} SameBits(x: nat, y: nat)
    requires forall m :: BitAt(x, m) <==> BitAt(y, m)
    ensures x == y
    decreases x + y
  {
    if x != y {
      assert BitAt(x, 0) <==> BitAt(y, 0);
      forall m: nat ensures BitAt(x / 2, m) <==> BitAt(y / 2, m) {
        assert BitAt(x, m + 1) <==> BitAt(y, m + 1);
      }
      SameBits(x / 2, y / 2);
    }
  }

  // ---------------------------------------------------------------------------------------------
  // Flags

  /** The bit position of a flag name. */
  function Position(name: string): Option<nat> {
    match name
    case "preserved" => Some(7)
    case "readonly" => Some(6)
    case "backup" => Some(5)
    case "reprovision" => Some(4)
    case "volatile" => Some(3)
    case "clear_ecc" => Some(2)
    case "golden" => Some(0)
    case _ => None
  }

  lemma FlagIsBit(name: string)
    ensures FlagOf(name).Some? <==> Position(name).Some?
    ensures Position(name).Some? ==> FlagOf(name).value == Power(Position(name).value)
  {
    assert Power(0) == 1 && Power(1) == 2 && Power(2) == 4 && Power(3) == 8;
    assert Power(4) == 16 && Power(5) == 32 && Power(6) == 64 && Power(7) == 128;
  }

  ghost predicate Named(names: seq<string>, k: nat, m: nat)
    requires k <= |names|
  {
    exists i :: 0 <= i < k && Position(names[i]) == Some(m)
  }

  predicate AllKnown(names: seq<string>, k: nat)
    requires k <= |names|
  {
    forall i :: 0 <= i < k ==> Position(names[i]).Some?
  }

  lemma NamedNext(names: seq<string>, k: nat, m: nat)
    requires 0 < k <= |names|
    ensures Named(names, k, m) <==> Named(names, k - 1, m) || Position(names[k - 1]) == Some(m)
  {
    hide Position;
  }

  /** The flag byte has exactly the bits of the names, and an unknown name is an error. */
  lemma {:induction false} MiscIsNamed(names: seq<string>, k: nat)
    requires k <= |names|
    ensures MiscFlags(names, k).Ok? <==> AllKnown(names, k)
    ensures MiscFlags(names, k).Ok? ==> forall m :: BitAt(MiscFlags(names, k).value, m) <==> Named(names, k, m)
  {
    if k == 0 {
      forall m ensures !BitAt(0, m) {
        ZeroHasNoBits(m);
      }
    } else {
      MiscIsNamed(names, k - 1);
      FlagIsBit(names[k - 1]);
      hide FlagOf, Position, And, Power, BitAt;
      if AllKnown(names, k) {
        var bits, n := MiscFlags(names, k - 1).value, Position(names[k - 1]).value;
        forall m ensures BitAt(MiscFlags(names, k).value, m) <==> Named(names, k, m) {
          SetBit(bits, n, m);
          NamedNext(names, k, m);
        }
      }
    }
  }

  // ---------------------------------------------------------------------------------------------
  // One partition

  /** The least multiple of `m` that is not below `value`. */
  predicate LeastMultiple(value: int, m: int, r: int)
    requires m > 0
  {
    r % m == 0 && value <= r < value + m
  }

  lemma LeastIsUnique(value: int, m: int, r: int, s: int)
    requires m > 0 && LeastMultiple(value, m, r) && LeastMultiple(value, m, s)
    ensures r == s
  {
    var a, b := r / m, s / m;
    assert r == m * a + r % m && s == m * b + s % m;
    Gap(m, a, b);
  }

  lemma Gap(m: int, a: int, b: int)
    requires m > 0 && -m < m * a - m * b < m
    ensures a == b
  {
    if a > b {
      Times(m, a - b);
      Spread(m, a, b);
    } else if a < b {
      Times(m, b - a);
      Spread(m, b, a);
    }
  }

  lemma Spread(m: int, a: int, b: int)
    ensures m * (a - b) == m * a - m * b
  {
  }

  lemma {:induction false} Times(m: int, d: nat)
    requires m > 0 && d > 0
    ensures m * d >= m
  {
    if d > 1 {
      Times(m, d - 1);
      Spread(m, d, 1);
    }
  }

  function Alignment(g: Geometry, spec: Spec): int { if spec.align.Some? then spec.align.value else g.block }

  /** Left out on purpose: an optional partition whose input is not given. */
  predicate Absent(spec: Spec) { spec.source.Missing? && spec.optional }

  /** The input is there and not empty, alignments that are used are powers of two, and flags are known. */
  ghost predicate Sound(g: Geometry, spec: Spec) {
    && !spec.source.Missing? && (spec.source.Given? ==> spec.source.bytes != [])
    && (spec.source.Given? && spec.padTo > 1 ==> PowerOfTwo(spec.padTo))
    && (spec.offset.None? ==> PowerOfTwo(Alignment(g, spec))) && (spec.size.None? ==> PowerOfTwo(g.block))
    && AllKnown(spec.misc, |spec.misc|)
  }

  /** The payload is the input, filled up to the least multiple asked for. */
  ghost predicate PayloadAsAsked(g: Geometry, spec: Spec, payload: seq<Byte>) {
    match spec.source
    case Given(bytes) =>
      && bytes <= payload && (forall i :: |bytes| <= i < |payload| ==> payload[i] == g.fill)
      && if spec.padTo > 1 then LeastMultiple(|bytes|, spec.padTo, |payload|) else payload == bytes
    case _ => payload == []
  }

  /** What the manifest entry asks of its partition, when `cursor` is the end of everything before it. */
  ghost predicate AsAsked(g: Geometry, spec: Spec, cursor: nat, p: Partition)
    requires g.block > 0
  {
    && p.name == spec.name && PayloadAsAsked(g, spec, p.payload) && p.actual == |p.payload|
    && p.offset % g.block == 0
    && (match spec.offset
        case Some(at) => p.offset == at
        case None => Alignment(g, spec) > 0 && LeastMultiple(cursor, Alignment(g, spec), p.offset))
    && (match spec.size
        case Some(size) => p.room == size && size % g.block == 0 && |p.payload| <= size
        case None => LeastMultiple(if p.payload == [] then 1 else |p.payload|, g.block, p.room))
    && p.misc >= 0 && (forall m :: BitAt(p.misc, m) <==> Named(spec.misc, |spec.misc|, m))
    && p.integrity == (if spec.ecc then 0x8000 else 0) && p.flags == 0 && p.kind == 1
    && p.version == (if spec.shaVersion then 0x80 else 0) + (if spec.shaPerEc then 0x40 else 0)
  }

  lemma AlignsIf(value: nat, m: int)
    ensures AlignUp(value, m).Ok? <==> PowerOfTwo(m)
    ensures AlignUp(value, m).Ok? ==> LeastMultiple(value, m, AlignUp(value, m).value)
  {
    AlignUpIsLeast(value, m);
    hide AlignUp;
  }

  lemma PayloadIsAsked(g: Geometry, spec: Spec, payload: seq<Byte>)
    requires GeometryOk(g)
    ensures PayloadFor(spec, g.fill) == Ok(Some(payload)) <==>
              && !spec.source.Missing? && (spec.source.Given? ==> spec.source.bytes != [])
              && (spec.source.Given? && spec.padTo > 1 ==> PowerOfTwo(spec.padTo))
              && PayloadAsAsked(g, spec, payload)
  {
    if spec.source.Given? && spec.padTo > 1 {
      var bytes := spec.source.bytes;
      AlignsIf(|bytes|, spec.padTo);
      hide AlignUp, PowerOfTwo;
      if AlignUp(|bytes|, spec.padTo).Ok? {
        var n := AlignUp(|bytes|, spec.padTo).value;
        if PayloadAsAsked(g, spec, payload) {
          LeastIsUnique(|bytes|, spec.padTo, n, |payload|);
          assert payload == bytes + Repeat(g.fill, n - |bytes|);
        }
        assert PayloadAsAsked(g, spec, bytes + Repeat(g.fill, n - |bytes|));
      }
    }
  }

  lemma OffsetIsAsked(g: Geometry, spec: Spec, cursor: nat, offset: int)
    requires GeometryOk(g)
    ensures OffsetFor(g, spec, cursor) == Ok(offset) <==>
              && offset % g.block == 0
              && (match spec.offset
                  case Some(at) => offset == at
                  case None => PowerOfTwo(Alignment(g, spec)) && LeastMultiple(cursor, Alignment(g, spec), offset))
  {
    if spec.offset.None? {
      AlignsIf(cursor, Alignment(g, spec));
      hide AlignUp, PowerOfTwo;
      if AlignUp(cursor, Alignment(g, spec)).Ok? && LeastMultiple(cursor, Alignment(g, spec), offset) {
        LeastIsUnique(cursor, Alignment(g, spec), AlignUp(cursor, Alignment(g, spec)).value, offset);
      }
    }
  }

  lemma RoomIsAsked(g: Geometry, spec: Spec, length: nat, room: int)
    requires GeometryOk(g)
    ensures RoomFor(g, spec, length) == Ok(room) <==>
              match spec.size
              case Some(size) => room == size && size % g.block == 0 && length <= size
              case None => PowerOfTwo(g.block) && LeastMultiple(if length == 0 then 1 else length, g.block, room)
  {
    if spec.size.None? {
      var least := if length == 0 then 1 else length;
      AlignsIf(least, g.block);
      hide AlignUp, PowerOfTwo;
      if AlignUp(least, g.block).Ok? && LeastMultiple(least, g.block, room) {
        LeastIsUnique(least, g.block, AlignUp(least, g.block).value, room);
      }
    }
  }

  /** A manifest entry is turned into a partition if and only if it is sound and the partition is as asked and fits. */
  lemma ProposedIsAsked(g: Geometry, spec: Spec, cursor: nat, p: Partition)
    requires GeometryOk(g)
    ensures Proposed(g, spec, cursor) == Ok(None) <==> Absent(spec)
    ensures Proposed(g, spec, cursor) == Ok(Some(p)) <==>
              Sound(g, spec) && AsAsked(g, spec, cursor, p) && 0 < p.room && p.offset + p.room <= g.size
  {
    hide Proposed, Sound, AsAsked;
    ProposedIsAbsent(g, spec, cursor);
    if Proposed(g, spec, cursor) == Ok(Some(p)) {
      ProposedGives(g, spec, cursor, p);
    }
    if Sound(g, spec) && AsAsked(g, spec, cursor, p) && 0 < p.room && p.offset + p.room <= g.size {
      ProposedTakes(g, spec, cursor, p);
    }
  }

  lemma ProposedIsAbsent(g: Geometry, spec: Spec, cursor: nat)
    requires GeometryOk(g)
    ensures Proposed(g, spec, cursor) == Ok(None) <==> Absent(spec)
  {
    hide PayloadFor, OffsetFor, RoomFor, MiscFlags;
    PayloadNoneIsAbsent(spec, g.fill);
  }

  lemma ProposedGives(g: Geometry, spec: Spec, cursor: nat, p: Partition)
    requires GeometryOk(g) && Proposed(g, spec, cursor) == Ok(Some(p))
    ensures Sound(g, spec) && AsAsked(g, spec, cursor, p) && 0 < p.room && p.offset + p.room <= g.size
  {
    hide PayloadFor, OffsetFor, RoomFor, MiscFlags, PowerOfTwo, LeastMultiple, AllKnown, BitAt, Named, PayloadAsAsked;
    PayloadIsAsked(g, spec, p.payload);
    OffsetIsAsked(g, spec, cursor, p.offset);
    RoomIsAsked(g, spec, |p.payload|, p.room);
    MiscIsNamed(spec.misc, |spec.misc|);
    PowersArePositive(Alignment(g, spec));
  }

  lemma ProposedTakes(g: Geometry, spec: Spec, cursor: nat, p: Partition)
    requires GeometryOk(g) && Sound(g, spec) && AsAsked(g, spec, cursor, p)
    requires 0 < p.room && p.offset + p.room <= g.size
    ensures Proposed(g, spec, cursor) == Ok(Some(p))
  {
    hide PayloadFor, OffsetFor, RoomFor, MiscFlags, PowerOfTwo, LeastMultiple, AllKnown, BitAt, Named, PayloadAsAsked;
    PayloadIsAsked(g, spec, p.payload);
    OffsetIsAsked(g, spec, cursor, p.offset);
    RoomIsAsked(g, spec, |p.payload|, p.room);
    MiscIsNamed(spec.misc, |spec.misc|);
    SameBits(p.misc, MiscFlags(spec.misc, |spec.misc|).value);
  }

  lemma PowersArePositive(a: int)
    ensures PowerOfTwo(a) ==> a > 0
  {
  }

  lemma PayloadNoneIsAbsent(spec: Spec, fill: Byte)
    ensures PayloadFor(spec, fill) == Ok(None) <==> Absent(spec)
  {
  }

  // ---------------------------------------------------------------------------------------------
  // All of them

  /** The end of everything placed: the start of the data area or the furthest end. */
  function EndOf(g: Geometry, s: seq<Partition>): int {
    if s == [] then g.dataOffset
    else
      var end, before := s[|s| - 1].offset + s[|s| - 1].room, EndOf(g, s[..|s| - 1]);
      if end > before then end else before
  }

  /** `s` is what the first `k` entries ask for, in their order, without the absent ones and without overlaps. */
  ghost predicate LaidAsAsked(g: Geometry, specs: seq<Spec>, k: nat, s: seq<Partition>)
    requires GeometryOk(g) && k <= |specs|
    decreases k
  {
    if k == 0 then s == []
    else if Absent(specs[k - 1]) then LaidAsAsked(g, specs, k - 1, s)
    else
      && s != [] && LaidAsAsked(g, specs, k - 1, s[..|s| - 1]) && Sound(g, specs[k - 1])
      && var before, p := s[..|s| - 1], s[|s| - 1];
         && EndOf(g, before) >= 0 && AsAsked(g, specs[k - 1], EndOf(g, before), p)
         && 0 < p.room && p.offset + p.room <= g.size && Clear(g, before, p)
  }

  /** The layout is what the manifest asks for, and is refused if and only if nothing is. */
  lemma {:induction false} PlacedIsAsked(g: Geometry, specs: seq<Spec>, k: nat, s: seq<Partition>)
    requires GeometryOk(g) && k <= |specs|
    ensures Placed(g, specs, k).Ok? && Placed(g, specs, k).value.partitions == s <==> LaidAsAsked(g, specs, k, s)
    ensures var l := Placed(g, specs, k); l.Ok? ==> l.value.cursor == EndOf(g, l.value.partitions)
    decreases k
  {
    hide AsAsked, Sound, Proposed, Clear, Absent;
    if k > 0 {
      var before := if Absent(specs[k - 1]) || s == [] then s else s[..|s| - 1];
      PlacedIsAsked(g, specs, k - 1, before);
      AdvanceIsAsked(g, specs, k, s, before);
    }
  }

  lemma AdvanceIsAsked(g: Geometry, specs: seq<Spec>, k: nat, s: seq<Partition>, before: seq<Partition>)
    requires GeometryOk(g) && 0 < k <= |specs|
    requires before == if Absent(specs[k - 1]) || s == [] then s else s[..|s| - 1]
    requires Placed(g, specs, k - 1).Ok? && Placed(g, specs, k - 1).value.partitions == before <==>
               LaidAsAsked(g, specs, k - 1, before)
    requires Placed(g, specs, k - 1).Ok? ==>
               Placed(g, specs, k - 1).value.cursor == EndOf(g, Placed(g, specs, k - 1).value.partitions)
    ensures Placed(g, specs, k).Ok? && Placed(g, specs, k).value.partitions == s <==> LaidAsAsked(g, specs, k, s)
    ensures var l := Placed(g, specs, k); l.Ok? ==> l.value.cursor == EndOf(g, l.value.partitions)
  {
    hide AsAsked, Sound, Proposed, Clear, Absent;
    if Placed(g, specs, k - 1).Ok? {
      var l := Placed(g, specs, k - 1).value;
      var r := Proposed(g, specs[k - 1], l.cursor);
      if s != [] {
        ProposedIsAsked(g, specs[k - 1], l.cursor, s[|s| - 1]);
      }
      if r.Ok? && r.value.Some? {
        ProposedIsAsked(g, specs[k - 1], l.cursor, r.value.value);
        assert (l.partitions + [r.value.value])[..|l.partitions|] == l.partitions;
        if s != [] && s[..|s| - 1] == l.partitions {
          assert s == l.partitions + [s[|s| - 1]];
        }
      } else if s == [] {
        AbsentIsNone(g, specs[k - 1], l.cursor);
      }
    }
  }

  lemma AbsentIsNone(g: Geometry, spec: Spec, cursor: nat)
    requires GeometryOk(g)
    ensures Proposed(g, spec, cursor) == Ok(None) <==> Absent(spec)
  {
    ProposedIsAsked(g, spec, cursor, TableEntry(g, 0));
  }
}
