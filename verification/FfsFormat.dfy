/** The OpenPOWER FFS version 1 partition table: what a header and an entry look like on flash. */
module FfsFormat {
  import opened Base
  import opened Bytes

  datatype Result<+T> = Ok(value: T) | Err

  const MAGIC: nat := 0x50415254
  const VERSION: nat := 1
  const HEADER_SIZE: nat := 48
  const ENTRY_SIZE: nat := 128
  const NAME_MAX: nat := 15
  const PID_TOPLEVEL: nat := 0xFFFFFFFF
  const TYPE_DATA: nat := 1
  const TYPE_PARTITION: nat := 3
  const INTEG_ECC: nat := 0x8000
  const MISC_READONLY: nat := 0x40

  datatype Partition = Partition(
    name: string,
    offset: int,
    room: int,
    actual: int,
    payload: seq<Byte>,
    flags: int,
    integrity: int,
    version: int,
    misc: int,
    kind: int)

  /** The table of contents as the packer returns it and the inspector reads it back. */
  datatype Contents = Contents(size: nat, block: nat, tocOffset: nat, tocSize: nat, partitions: seq<Partition>)

  // ---------------------------------------------------------------------------------------------
  // Names

  predicate Ascii(name: string) { forall i :: 0 <= i < |name| ==> name[i] as int < 128 }

  function Encode(name: string): (b: seq<Byte>)
    requires Ascii(name)
    ensures |b| == |name|
  {
    seq(|name|, i requires 0 <= i < |name| => name[i] as int)
  }

  function Decode(b: seq<Byte>): (name: string)
    requires forall i :: 0 <= i < |b| ==> b[i] < 128
    ensures |name| == |b|
  {
    seq(|b|, i requires 0 <= i < |b| => b[i] as char)
  }

  /** One to fifteen ASCII characters. */
  predicate Nameable(name: string) { Ascii(name) && 0 < |name| <= NAME_MAX }

  predicate NulFree(name: string) { forall i :: 0 <= i < |name| ==> name[i] as int != 0 }

  function NameBytes(name: string): (b: seq<Byte>)
    requires Nameable(name)
    ensures |b| == 16
  {
    Encode(name) + Zeros(NAME_MAX + 1 - |name|)
  }

  /** Where the first zero byte is. */
  function Cut(b: seq<Byte>): (n: nat)
    ensures n <= |b| && (forall i :: 0 <= i < n ==> b[i] != 0) && (n < |b| ==> b[n] == 0)
  {
    if b == [] || b[0] == 0 then 0 else 1 + Cut(b[1..])
  }

  /** A name as a reader of zero-terminated strings sees it. */
  function Shown(name: string): (shown: string)
    ensures shown <= name && NulFree(shown)
  {
    if name == "" || name[0] as int == 0 then "" else [name[0]] + Shown(name[1..])
  }

  lemma {:induction false} ShownIsName(name: string)
    ensures Shown(name) == name <==> NulFree(name)
    ensures |Shown(name)| < |name| ==> name[|Shown(name)|] as int == 0
  {
    if name != "" && name[0] as int != 0 {
      ShownIsName(name[1..]);
      assert name == [name[0]] + name[1..];
    }
  }

  /** What is read back of a written name is the part before its first NUL. */
  lemma NameRoundTrip(name: string)
    requires Nameable(name)
    ensures var b := NameBytes(name);
            var n := Cut(b);
            (forall i :: 0 <= i < n ==> b[i] < 128) && Decode(b[..n]) == Shown(name)
  {
    var b := NameBytes(name);
    var n := Cut(b);
    ShownIsName(name);
    assert b[|name|] == 0;
    assert forall i :: 0 <= i < |name| ==> b[i] == name[i] as int;
    assert n == |Shown(name)|;
    assert Decode(b[..n]) == Shown(name);
  }

  // ---------------------------------------------------------------------------------------------
  // Records

  predicate ZeroIn(s: seq<Byte>, from: nat, to: nat)
    requires to <= |s|
  {
    forall i :: from <= i < to ==> s[i] == 0
  }

  /** A field fits an unsigned 32-bit, 16-bit or 8-bit slot. */
  predicate Fits32(x: int) { 0 <= x < TWO32 }

  predicate Fits16(x: int) { 0 <= x < 0x1_0000 }

  predicate Fits8(x: int) { 0 <= x < 256 }

  /** The bytes of one entry, its checksum included. */
  ghost predicate EntryIs(e: seq<Byte>, p: Partition, block: nat, id: nat) {
    && |e| == ENTRY_SIZE && block > 0 && Nameable(p.name) && e[..16] == NameBytes(p.name)
    && p.offset == Word(e, 16) * block && p.room == Word(e, 20) * block
    && Word(e, 24) == PID_TOPLEVEL && Word(e, 28) == id && Word(e, 32) == p.kind && Word(e, 36) == p.flags
    && Word(e, 40) == p.actual && ZeroIn(e, 44, 62)
    && Half(e, 62) == p.integrity && e[64] == p.version && e[65] == p.misc && ZeroIn(e, 66, 124)
    && Xors(e, 32) == 0
  }

  /** The bytes of the header, its checksum included. */
  ghost predicate HeaderIs(h: seq<Byte>, c: Contents) {
    && |h| == HEADER_SIZE && c.block > 0
    && Word(h, 0) == MAGIC && Word(h, 4) == VERSION && c.tocSize == Word(h, 8) * c.block && Word(h, 12) == ENTRY_SIZE
    && Word(h, 16) == |c.partitions| && Word(h, 20) == c.block && c.size == Word(h, 24) * c.block && ZeroIn(h, 28, 44)
    && Xors(h, 12) == 0
  }

  function EntryStart(c: Contents, k: nat): nat { c.tocOffset + HEADER_SIZE + ENTRY_SIZE * k }

  /** The table of contents on flash. */
  ghost predicate TableIs(image: seq<Byte>, c: Contents) {
    && |image| == c.size && EntryStart(c, |c.partitions|) <= c.tocOffset + c.tocSize <= c.size
    && HeaderIs(image[c.tocOffset..c.tocOffset + HEADER_SIZE], c)
    && forall k {:trigger EntryStart(c, k)} :: 0 <= k < |c.partitions| ==>
         EntryIs(image[EntryStart(c, k)..EntryStart(c, k) + ENTRY_SIZE], c.partitions[k], c.block, k + 1)
  }

  predicate Apart(p: Partition, q: Partition) { p.offset + p.room <= q.offset || q.offset + q.room <= p.offset }

  /** Every partition, the table included, has its own part of the image, with space for its bytes. */
  ghost predicate LaidOut(c: Contents) {
    && (forall i :: 0 <= i < |c.partitions| ==>
          var p := c.partitions[i];
          && 0 <= p.offset < p.offset + p.room <= c.size && |p.payload| <= p.room && 0 <= p.actual <= p.room)
    && (forall i, j :: 0 <= i < j < |c.partitions| ==> Apart(c.partitions[i], c.partitions[j]))
  }
}
