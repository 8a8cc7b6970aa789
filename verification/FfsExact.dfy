/** What the two readers accept, for any bytes: the conditions on the table, without the order in which they are met. */
module FfsExact {
  import opened Bytes
  import opened FfsFormat
  import opened FfsReaders

  function Part(image: seq<Byte>, at: nat, n: nat): (b: seq<Byte>)
    requires at + n <= |image|
    ensures |b| == n
  {
    image[at..at + n]
  }

  // ---------------------------------------------------------------------------------------------
  // The firmware

  /** The header is sound and describes this device; `count` entries follow it. */
  ghost predicate DeviceHeader(flash: seq<Byte>, count: nat)
    requires |flash| == 0x200_0000
  {
    var h := Part(flash, 0x1000, 48);
    && Xors(h, 12) == 0 && Word(h, 0) == 0x50415254 && Word(h, 4) == 1 && Word(h, 12) == 128
    && Word(h, 20) == 0x1000 && Word(h, 24) == 0x2000 && Word(h, 8) == 8 && Word(h, 16) == count
    && 1 <= count <= 255
  }

  /** Entry `k` of the device's table. */
  function DeviceEntry(flash: seq<Byte>, k: nat): (e: seq<Byte>)
    requires |flash| == 0x200_0000 && k < 255
    ensures |e| == 128
  {
    Part(flash, 0x1030 + 128 * k, 128)
  }

  /** What the entry says about its partition, which lies inside the device and has room for its bytes. */
  ghost predicate EntrySays(e: seq<Byte>, i: PartitionInfo)
    requires |e| == 128
  {
    && i.offset == Word(e, 16) * 0x1000 && i.address == 0x2000_0000 + i.offset && i.room == Word(e, 20) * 0x1000
    && i.actual == Word(e, 40) && i.flags == Word(e, 36) && i.integrity == Half(e, 62) && i.version == e[64]
    && i.misc == e[65]
    && 0 < i.room && i.offset + i.room <= 0x200_0000 && i.actual <= i.room
  }

  /** Entry `k` is the first with the name, every checksum up to it holds, and it says `i`. */
  ghost predicate FoundAt(flash: seq<Byte>, name: seq<Byte>, count: nat, k: nat, i: PartitionInfo)
    requires |flash| == 0x200_0000
  {
    && k < count <= 255 && (forall j :: 0 <= j <= k ==> Xors(DeviceEntry(flash, j), 32) == 0)
    && (forall j :: 0 <= j < k ==> !NameIs(DeviceEntry(flash, j), name)) && NameIs(DeviceEntry(flash, k), name)
    && EntrySays(DeviceEntry(flash, k), i)
  }

  lemma {:induction false} FindFromIsExact(flash: seq<Byte>, name: seq<Byte>, count: nat, k: nat, i: PartitionInfo)
    requires |flash| == FLASH_SIZE && k <= count <= 255
    requires forall j :: 0 <= j < k ==> Xors(DeviceEntry(flash, j), 32) == 0 && !NameIs(DeviceEntry(flash, j), name)
    ensures FindFrom(flash, count, name, k) == Ok(i) <==> exists m :: k <= m && FoundAt(flash, name, count, m, i)
    decreases count - k
  {
    hide Xors, NameIs, Word, Half;
    if k < count {
      assert EntryAt(flash, k) == DeviceEntry(flash, k);
      if Xors(EntryAt(flash, k), 32) == 0 && !NameIs(EntryAt(flash, k), name) {
        FindFromIsExact(flash, name, count, k + 1, i);
        if m :| k <= m && FoundAt(flash, name, count, m, i) {
          assert m != k;
        }
      } else if Xors(EntryAt(flash, k), 32) == 0 {
        ParseIsExact(DeviceEntry(flash, k), i);
        if FindFrom(flash, count, name, k) == Ok(i) {
          assert FoundAt(flash, name, count, k, i);
        }
        if m :| k <= m && FoundAt(flash, name, count, m, i) {
          assert m == k;
        }
      }
    }
  }

  lemma ParseIsExact(e: seq<Byte>, i: PartitionInfo)
    requires |e| == 128 && Xors(e, 32) == 0
    ensures ParsePartition(e) == Ok(i) <==> EntrySays(e, i)
  {
    hide Xors, Word, Half;
  }

  lemma HeaderIsExact(flash: seq<Byte>, count: nat)
    requires |flash| == FLASH_SIZE
    ensures ParseHeader(flash[TOC_OFFSET..TOC_OFFSET + HEADER_SIZE]) == Ok(count) <==> DeviceHeader(flash, count)
  {
    hide Xors, Word;
  }

  /** A lookup yields a partition if and only if the header is sound and the first entry with the name says so. */
  lemma FindIsExact(flash: seq<Byte>, name: seq<Byte>, i: PartitionInfo)
    requires |flash| == FLASH_SIZE
    ensures Find(flash, name) == Ok(i) <==>
              exists count, k :: DeviceHeader(flash, count) && FoundAt(flash, name, count, k, i)
  {
    hide FindFrom, ParseHeader, DeviceHeader, FoundAt;
    var header := ParseHeader(flash[TOC_OFFSET..TOC_OFFSET + HEADER_SIZE]);
    if header.Ok? {
      HeaderIsExact(flash, header.value);
      CountFits(flash, header.value);
      FindFromIsExact(flash, name, header.value, 0, i);
      if Find(flash, name) == Ok(i) {
        var m :| 0 <= m && FoundAt(flash, name, header.value, m, i);
        assert DeviceHeader(flash, header.value);
      }
    }
    if count, k :| DeviceHeader(flash, count) && FoundAt(flash, name, count, k, i) {
      HeaderIsExact(flash, count);
    }
  }

  lemma CountFits(flash: seq<Byte>, count: nat)
    requires |flash| == FLASH_SIZE && DeviceHeader(flash, count)
    ensures count <= 255
  {
  }

  // ---------------------------------------------------------------------------------------------
  // The inspector

  /** What the inspector shows of an entry: its name up to the first zero, and its fields, inside the image. */
  ghost predicate Shows(e: seq<Byte>, block: nat, size: nat, p: Partition)
    requires |e| == 128
  {
    && Xors(e, 32) == 0 && Ascii(p.name) && NulFree(p.name) && |p.name| <= 16
    && Encode(p.name) == e[..|p.name|] && (|p.name| < 16 ==> e[|p.name|] == 0)
    && p.offset == Word(e, 16) * block && p.room == Word(e, 20) * block && p.kind == Word(e, 32)
    && p.flags == Word(e, 36) && p.actual == Word(e, 40) && p.integrity == Half(e, 62) && p.version == e[64]
    && p.misc == e[65] && p.payload == [] && p.offset + p.room <= size && p.actual <= p.room
  }

  lemma CutIsUnique(b: seq<Byte>, n: nat)
    requires n <= |b| && (forall i :: 0 <= i < n ==> b[i] != 0) && (n < |b| ==> b[n] == 0)
    ensures Cut(b) == n
  {
    var m := Cut(b);
    if m < n {
      assert false;
    } else if n < m {
      assert false;
    }
  }

  lemma EntryIsExact(e: seq<Byte>, block: nat, size: nat, p: Partition)
    requires |e| == 128
    ensures InspectEntry(e, block, size) == Ok(p) <==> Shows(e, block, size, p)
  {
    hide Xors, Word, Half;
    var b := e[..16];
    var n := Cut(b);
    if InspectEntry(e, block, size).Ok? {
      var name := Decode(b[..n]);
      assert Encode(name) == e[..n] by {
        assert b[..n] == e[..n];
      }
      assert Ascii(name) && NulFree(name) by {
        assert forall i :: 0 <= i < n ==> name[i] as int == b[i];
      }
    }
    if Shows(e, block, size, p) {
      forall i | 0 <= i < |p.name| ensures b[i] == p.name[i] as int && b[i] != 0 && b[i] < 128 {
        assert Encode(p.name)[i] == e[..|p.name|][i];
      }
      CutIsUnique(b, |p.name|);
      assert Decode(b[..n]) == p.name;
    }
  }

  lemma {:induction false} EntriesAreExact(image: seq<Byte>, start: nat, block: nat, k: nat, s: seq<Partition>)
    ensures InspectEntries(image, start, block, k) == Ok(s) <==>
              && |s| == k && (k > 0 ==> start + 128 * k <= |image|)
              && forall j :: 0 <= j < k ==> Shows(Part(image, start + 128 * j, 128), block, |image|, s[j])
    decreases k
  {
    hide InspectEntry, Shows;
    if k > 0 {
      var before := if s == [] then [] else s[..|s| - 1];
      EntriesAreExact(image, start, block, k - 1, before);
      var r := InspectEntries(image, start, block, k - 1);
      if r.Ok? {
        EntriesAreExact(image, start, block, k - 1, r.value);
      }
      if start + 128 * k <= |image| {
        var e := Part(image, start + 128 * (k - 1), 128);
        var p := InspectEntry(e, block, |image|);
        if p.Ok? {
          EntryIsExact(e, block, |image|, p.value);
        }
        if |s| == k {
          EntryIsExact(e, block, |image|, s[k - 1]);
          assert s == before + [s[k - 1]];
        }
      }
    }
  }

  /** An inspection yields contents if and only if the header is sound and they are what every entry shows. */
  lemma InspectIsExact(image: seq<Byte>, toc: int, c: Contents)
    ensures Inspect(image, toc) == Ok(c) <==>
              && 0 <= toc == c.tocOffset && toc + 48 <= |image| == c.size
              && var h := Part(image, toc, 48);
                 && Xors(h, 12) == 0 && Word(h, 0) == 0x50415254 && Word(h, 4) == 1 && Word(h, 12) == 128
                 && c.block == Word(h, 20) && Word(h, 24) * c.block == c.size && c.tocSize == Word(h, 8) * c.block
                 && 48 + Word(h, 16) * 128 <= c.tocSize && |c.partitions| == Word(h, 16)
                 && (c.partitions != [] ==> toc + 48 + 128 * |c.partitions| <= |image|)
                 && forall j :: 0 <= j < |c.partitions| ==>
                      Shows(Part(image, toc + 48 + 128 * j, 128), c.block, |image|, c.partitions[j])
  {
    hide Xors, Word, InspectEntries, Shows;
    if 0 <= toc && toc + 48 <= |image| {
      var h := Part(image, toc, 48);
      EntriesAreExact(image, toc + 48, Word(h, 20), Word(h, 16), c.partitions);
    }
  }
}
