/** The two readers of a partition table: the image inspector, and the firmware's partition lookup. */
module FfsReaders {
  import opened Bytes
  import opened FfsFormat

  method XorWords(s: seq<Byte>) returns (r: Result<nat>)
    ensures r == if |s| % 4 == 0 then Ok(Xors(s, |s| / 4)) else Err
  {
    if |s| % 4 != 0 {
      return Err;
    }
    var checksum, k := 0, 0;
    while 4 * k < |s|
      invariant 4 * k <= |s| && checksum == Xors(s, k)
    {
      checksum := Xor(checksum, Word(s, 4 * k));
      k := k + 1;
    }
    r := Ok(checksum);
  }

  // ---------------------------------------------------------------------------------------------
  // The inspector

  function InspectEntry(e: seq<Byte>, block: nat, size: nat): Result<Partition>
    requires |e| == ENTRY_SIZE
  {
    var n := Cut(e[..16]);
    if Xors(e, 32) != 0 || !(forall i :: 0 <= i < n ==> e[..16][i] < 128) then Err else
    var offset, room, actual := Word(e, 16) * block, Word(e, 20) * block, Word(e, 40);
    if offset + room > size || actual > room then Err else
    Ok(Partition(Decode(e[..16][..n]), offset, room, actual, [], Word(e, 36), Half(e, 62), e[64], e[65], Word(e, 32)))
  }

  /** The first `k` entries; one that the image cuts short is an error. */
  function InspectEntries(image: seq<Byte>, start: nat, block: nat, k: nat): Result<seq<Partition>> {
    if k == 0 then Ok([]) else
    match InspectEntries(image, start, block, k - 1)
    case Err => Err
    case Ok(before) =>
      var at := start + ENTRY_SIZE * (k - 1);
      if at + ENTRY_SIZE > |image| then Err else
      match InspectEntry(image[at..at + ENTRY_SIZE], block, |image|)
      case Err => Err
      case Ok(p) => Ok(before + [p])
  }

  predicate HeaderOk(h: seq<Byte>, size: nat)
    requires |h| == HEADER_SIZE
  {
    && Xors(h, 12) == 0 && Word(h, 0) == MAGIC && Word(h, 4) == VERSION && Word(h, 12) == ENTRY_SIZE
    && Word(h, 24) * Word(h, 20) == size && HEADER_SIZE + Word(h, 16) * ENTRY_SIZE <= Word(h, 8) * Word(h, 20)
  }

  function Inspect(image: seq<Byte>, toc: int): Result<Contents> {
    if toc < 0 || toc + HEADER_SIZE > |image| then Err else
    var h := image[toc..toc + HEADER_SIZE];
    if !HeaderOk(h, |image|) then Err else
    match InspectEntries(image, toc + HEADER_SIZE, Word(h, 20), Word(h, 16))
    case Err => Err
    case Ok(partitions) => Ok(Contents(|image|, Word(h, 20), toc, Word(h, 8) * Word(h, 20), partitions))
  }

  lemma {:induction false} ErrStays(image: seq<Byte>, start: nat, block: nat, k: nat, n: nat)
    requires k <= n && InspectEntries(image, start, block, k).Err?
    ensures InspectEntries(image, start, block, n).Err?
  {
    if k < n {
      ErrStays(image, start, block, k, n - 1);
    }
  }

  method InspectTable(image: seq<Byte>, start: nat, block: nat, count: nat) returns (r: Result<seq<Partition>>)
    ensures r == InspectEntries(image, start, block, count)
  {
    hide InspectEntry;
    var partitions, index := [], 0;
    while index < count
      invariant 0 <= index <= count && InspectEntries(image, start, block, index) == Ok(partitions)
    {
      var at := start + ENTRY_SIZE * index;
      var p := if at + ENTRY_SIZE > |image| then Err else InspectEntry(image[at..at + ENTRY_SIZE], block, |image|);
      assert InspectEntries(image, start, block, index + 1) == if p.Ok? then Ok(partitions + [p.value]) else Err;
      if p.Err? {
        ErrStays(image, start, block, index + 1, count);
        return Err;
      }
      partitions := partitions + [p.value];
      index := index + 1;
    }
    r := Ok(partitions);
  }

  method InspectImage(image: seq<Byte>, toc: int) returns (r: Result<Contents>)
    ensures r == Inspect(image, toc)
  {
    hide InspectEntries, Xors;
    if toc < 0 || toc + HEADER_SIZE > |image| {
      return Err;
    }
    var h := image[toc..toc + HEADER_SIZE];
    var sum := XorWords(h);
    if sum != Ok(0) || Word(h, 0) != MAGIC || Word(h, 4) != VERSION || Word(h, 12) != ENTRY_SIZE {
      return Err;
    }
    var count, block := Word(h, 16), Word(h, 20);
    if Word(h, 24) * block != |image| || HEADER_SIZE + count * ENTRY_SIZE > Word(h, 8) * block {
      return Err;
    }
    var partitions := InspectTable(image, toc + HEADER_SIZE, block, count);
    r := if partitions.Ok? then Ok(Contents(|image|, block, toc, Word(h, 8) * block, partitions.value)) else Err;
  }

  /** The first partition with a name. */
  function Named(partitions: seq<Partition>, name: string): Result<Partition> {
    if partitions == [] then Err else if partitions[0].name == name then Ok(partitions[0])
    else Named(partitions[1..], name)
  }

  // ---------------------------------------------------------------------------------------------
  // The firmware

  const FLASH_BASE: nat := 0x2000_0000
  const FLASH_SIZE: nat := 0x200_0000
  const TOC_OFFSET: nat := 0x1000
  const TOC_SIZE: nat := 0x8000
  const BLOCK_SIZE: nat := 0x1000
  const BLOCK_COUNT: nat := 0x2000
  const MAX_ENTRIES: nat := 255

  datatype PartitionInfo = PartitionInfo(
    offset: nat, address: nat, room: nat, actual: nat, flags: nat, integrity: nat, version: nat, misc: nat)

  method ChecksumIsZero(s: seq<Byte>) returns (zero: bool)
    ensures zero <==> |s| % 4 == 0 && Xors(s, |s| / 4) == 0
  {
    if |s| % 4 != 0 {
      return false;
    }
    hide Xor, Word;
    ghost var k, words := 0, |s| / 4;
    var checksum, offset := 0, 0;
    while offset < |s|
      invariant offset == 4 * k && k <= words && checksum == Xors(s, k)
    {
      checksum := Xor(checksum, Word(s, offset));
      offset := offset + 4;
      k := k + 1;
    }
    zero := checksum == 0;
  }

  /** The number of entries, when the header describes this device. */
  function ParseHeader(h: seq<Byte>): Result<nat>
    requires |h| == HEADER_SIZE
  {
    if Xors(h, 12) != 0 || Word(h, 0) != MAGIC || Word(h, 4) != VERSION || Word(h, 12) != ENTRY_SIZE then Err
    else if Word(h, 16) == 0 || Word(h, 16) > MAX_ENTRIES then Err
    else if Word(h, 20) != BLOCK_SIZE || Word(h, 24) != BLOCK_COUNT then Err
    else if Word(h, 8) * BLOCK_SIZE != TOC_SIZE || HEADER_SIZE + Word(h, 16) * ENTRY_SIZE > TOC_SIZE then Err
    else Ok(Word(h, 16))
  }

  function ParsePartition(e: seq<Byte>): Result<PartitionInfo>
    requires |e| == ENTRY_SIZE
  {
    var offset, room, actual := Word(e, 16) * BLOCK_SIZE, Word(e, 20) * BLOCK_SIZE, Word(e, 40);
    if Xors(e, 32) != 0 || Word(e, 20) == 0 || offset + room > FLASH_SIZE || actual > room then Err
    else Ok(PartitionInfo(offset, FLASH_BASE + offset, room, actual, Word(e, 36), Half(e, 62), e[64], e[65]))
  }

  /** The first sixteen bytes of an entry are the name and a terminating zero. */
  predicate NameIs(e: seq<Byte>, name: seq<Byte>)
    requires |e| >= 16
  {
    |name| <= NAME_MAX && e[..|name|] == name && e[|name|] == 0
  }

  function EntryAt(flash: seq<Byte>, k: nat): (e: seq<Byte>)
    requires TOC_OFFSET + HEADER_SIZE + ENTRY_SIZE * (k + 1) <= |flash|
    ensures |e| == ENTRY_SIZE
  {
    flash[TOC_OFFSET + HEADER_SIZE + ENTRY_SIZE * k..TOC_OFFSET + HEADER_SIZE + ENTRY_SIZE * (k + 1)]
  }

  /** The lookup from entry `k` on. */
  function FindFrom(flash: seq<Byte>, count: nat, name: seq<Byte>, k: nat): Result<PartitionInfo>
    requires TOC_OFFSET + HEADER_SIZE + ENTRY_SIZE * count <= |flash| && k <= count
    decreases count - k
  {
    if k == count || Xors(EntryAt(flash, k), 32) != 0 then Err
    else if NameIs(EntryAt(flash, k), name) then ParsePartition(EntryAt(flash, k))
    else FindFrom(flash, count, name, k + 1)
  }

  function Find(flash: seq<Byte>, name: seq<Byte>): Result<PartitionInfo>
    requires |flash| == FLASH_SIZE
  {
    match ParseHeader(flash[TOC_OFFSET..TOC_OFFSET + HEADER_SIZE])
    case Err => Err
    case Ok(count) => FindFrom(flash, count, name, 0)
  }

  /** `expected` is a C string, so its bytes are followed by a zero and hold none. */
  method NameMatches(e: seq<Byte>, expected: seq<Byte>) returns (matches: bool)
    requires |e| == ENTRY_SIZE && forall i :: 0 <= i < |expected| ==> expected[i] != 0
    ensures matches == NameIs(e, expected)
  {
    var index := 0;
    while index <= NAME_MAX
      invariant 0 <= index <= NAME_MAX + 1 && index <= |expected| && e[..index] == expected[..index]
    {
      var actual := e[index];
      var wanted := if index < |expected| then expected[index] else 0;
      if actual != wanted {
        assert index < |expected| <= NAME_MAX ==> e[..|expected|][index] == actual;
        return false;
      }
      if wanted == 0 {
        return true;
      }
      index := index + 1;
    }
    matches := false;
  }

  /** Looks a partition up by name; whatever the flash holds, what it returns lies inside the device. */
  method FindPartition(flash: seq<Byte>, name: seq<Byte>) returns (r: Result<PartitionInfo>)
    requires |flash| == FLASH_SIZE && forall i :: 0 <= i < |name| ==> name[i] != 0
    ensures r == Find(flash, name)
    ensures r.Ok? ==> 0 < r.value.room && r.value.offset + r.value.room <= FLASH_SIZE && r.value.actual <= r.value.room
  {
    hide Xors, NameIs;
    var header := ParseHeader(flash[TOC_OFFSET..TOC_OFFSET + HEADER_SIZE]);
    if header.Err? {
      return Err;
    }
    var index := 0;
    while index < header.value
      invariant 0 <= index <= header.value
      invariant Find(flash, name) == FindFrom(flash, header.value, name, index)
    {
      var entry := EntryAt(flash, index);
      var good := ChecksumIsZero(entry);
      if !good {
        return Err;
      }
      var matches := NameMatches(entry, name);
      if matches {
        return ParsePartition(entry);
      }
      index := index + 1;
    }
    r := Err;
  }
}
