/** The packer: entries, header and image, written byte by byte. */
module FfsPacker {
  import opened Bytes
  import opened FfsFormat
  import opened FfsReaders
  import opened FfsLayout
  import opened FfsRoundTrip

  // ---------------------------------------------------------------------------------------------
  // Records

  /** Bytes outside `[at, at + n)` are as they were. */
  ghost predicate SameOutside(s: seq<Byte>, t: seq<Byte>, at: nat, n: nat) {
    |s| == |t| && forall i :: 0 <= i < |s| && !(at <= i < at + n) ==> s[i] == t[i]
  }

  method StoreWord(a: array<Byte>, at: nat, w: int) returns (ok: bool)
    requires at + 4 <= a.Length
    modifies a
    ensures ok <==> Fits32(w)
    ensures SameOutside(a[..], old(a[..]), at, 4)
    ensures ok ==> Word(a[..], at) == w
  {
    if !Fits32(w) {
      return false;
    }
    a[at], a[at + 1], a[at + 2], a[at + 3] := ByteOf(w, 0), ByteOf(w, 1), ByteOf(w, 2), ByteOf(w, 3);
    WordOfBytes(w);
    ok := true;
  }

  method StoreHalf(a: array<Byte>, at: nat, w: int) returns (ok: bool)
    requires at + 2 <= a.Length
    modifies a
    ensures ok <==> Fits16(w)
    ensures SameOutside(a[..], old(a[..]), at, 2)
    ensures ok ==> Half(a[..], at) == w
  {
    if !Fits16(w) {
      return false;
    }
    a[at], a[at + 1] := w / 0x100, w % 0x100;
    ok := true;
  }

  /** Slice assignment. */
  method Splice(a: array<Byte>, at: nat, bytes: seq<Byte>)
    requires at + |bytes| <= a.Length
    modifies a
    ensures SameOutside(a[..], old(a[..]), at, |bytes|) && a[at..at + |bytes|] == bytes
  {
    var k := 0;
    while k < |bytes|
      invariant 0 <= k <= |bytes|
      invariant forall i :: 0 <= i < a.Length && !(at <= i < at + k) ==> a[i] == old(a[i])
      invariant forall i :: 0 <= i < k ==> a[at + i] == bytes[i]
    {
      a[at + k] := bytes[k];
      k := k + 1;
    }
  }

  /** The entry can be packed. */
  predicate Packable(p: Partition, block: nat, id: nat)
    requires block > 0
  {
    && p.offset % block == 0 && p.room % block == 0 && p.actual <= p.room && Nameable(p.name)
    && Fits32(p.offset / block) && Fits32(p.room / block) && Fits32(id) && Fits32(p.kind) && Fits32(p.flags)
    && Fits32(p.actual)
    && Fits16(p.integrity) && Fits8(p.version) && Fits8(p.misc)
  }

  /** The seven words of an entry. */
  method StoreWords(a: array<Byte>, at: nat, words: seq<int>) returns (ok: bool)
    requires at + 4 * |words| <= a.Length
    modifies a
    ensures ok <==> forall k :: 0 <= k < |words| ==> Fits32(words[k])
    ensures SameOutside(a[..], old(a[..]), at, 4 * |words|)
    ensures ok ==> forall k :: 0 <= k < |words| ==> Word(a[..], at + 4 * k) == words[k]
  {
    hide Be32;
    var k := 0;
    while k < |words|
      invariant 0 <= k <= |words| && SameOutside(a[..], old(a[..]), at, 4 * |words|)
      invariant forall i :: 0 <= i < k ==> Fits32(words[i]) && Word(a[..], at + 4 * i) == words[i]
    {
      var stored := StoreWord(a, at + 4 * k, words[k]);
      if !stored {
        return false;
      }
      k := k + 1;
    }
    ok := true;
  }

  lemma ZeroWord(s: seq<Byte>, at: nat)
    requires at + 4 <= |s| && ZeroIn(s, at, at + 4)
    ensures Word(s, at) == 0
  {
  }

  /** Writes the checksum in the last of `n` words; the second check that the code makes always passes. */
  method Seal(a: array<Byte>, ghost n: nat)
    requires a.Length == 4 * n && n > 0 && ZeroIn(a[..], 4 * (n - 1), 4 * n)
    modifies a
    ensures SameOutside(a[..], old(a[..]), 4 * (n - 1), 4) && Xors(a[..], n) == 0
  {
    hide Xors, Word;
    ghost var before := a[..];
    ZeroWord(before, 4 * (n - 1));
    var sum := XorWords(a[..]);
    XorsIsWord(before, n);
    assert sum == Ok(Xors(before, n));
    var stored := StoreWord(a, a.Length - 4, sum.value);
    assert before[..4 * (n - 1)] == a[..][..4 * (n - 1)];
    ChecksumCancels(before, a[..], n);
    var check := XorWords(a[..]);
    assert check == Ok(0);
  }

  function EntryWords(p: Partition, block: nat, id: nat): seq<int>
    requires block > 0
  {
    [p.offset / block, p.room / block, PID_TOPLEVEL, id, p.kind, p.flags, p.actual]
  }

  lemma PackableWords(p: Partition, block: nat, id: nat)
    requires block > 0
    ensures (forall k :: 0 <= k < 7 ==> Fits32(EntryWords(p, block, id)[k])) <==>
              && Fits32(p.offset / block) && Fits32(p.room / block) && Fits32(id) && Fits32(p.kind)
              && Fits32(p.flags) && Fits32(p.actual)
  {
    var words := EntryWords(p, block, id);
    if forall k :: 0 <= k < 7 ==> Fits32(words[k]) {
      assert Fits32(words[0]) && Fits32(words[1]) && Fits32(words[3]) && Fits32(words[4]) && Fits32(words[5]);
      assert Fits32(words[6]);
    }
  }

  /** The seven words, and the byte fields, of an entry that starts with its name. */
  ghost predicate Filled(s: seq<Byte>, p: Partition, block: nat, id: nat)
    requires block > 0
  {
    && |s| == ENTRY_SIZE && Nameable(p.name) && s[0..16] == NameBytes(p.name)
    && (forall k :: 0 <= k < 7 ==> Word(s, 16 + 4 * k) == EntryWords(p, block, id)[k])
    && ZeroIn(s, 44, 62) && Half(s, 62) == p.integrity && s[64] == p.version && s[65] == p.misc && ZeroIn(s, 66, 124)
  }

  lemma FilledIsEntry(s: seq<Byte>, t: seq<Byte>, p: Partition, block: nat, id: nat)
    requires block > 0 && Packable(p, block, id) && Filled(s, p, block, id) && SameOutside(t, s, 124, 4)
    requires Xors(t, 32) == 0
    ensures EntryIs(t, p, block, id)
  {
    hide Xors, NameBytes, Be32;
    var words := EntryWords(p, block, id);
    assert t[..16] == s[0..16];
    forall k | 0 <= k < 7 ensures Word(t, 16 + 4 * k) == words[k] {
      assert Word(s, 16 + 4 * k) == words[k];
    }
    assert Word(t, 16 + 4 * 0) == words[0] && Word(t, 16 + 4 * 1) == words[1] && Word(t, 16 + 4 * 2) == words[2]
        && Word(t, 16 + 4 * 3) == words[3] && Word(t, 16 + 4 * 4) == words[4] && Word(t, 16 + 4 * 5) == words[5]
        && Word(t, 16 + 4 * 6) == words[6];
    assert p.offset == p.offset / block * block && p.room == p.room / block * block;
  }

  method EntryBytes(p: Partition, block: nat, id: nat) returns (r: Result<seq<Byte>>)
    requires block > 0
    ensures r.Ok? <==> Packable(p, block, id)
    ensures r.Ok? ==> EntryIs(r.value, p, block, id)
  {
    hide Xors, EntryIs, NameBytes, Be32;
    if p.offset % block != 0 || p.room % block != 0 || p.actual > p.room || !Nameable(p.name) {
      return Err;
    }
    var entry := new Byte[ENTRY_SIZE](i => 0);
    var filled := Fill(entry, p, block, id);
    if !filled {
      return Err;
    }
    ghost var s := entry[..];
    Seal(entry, 32);
    FilledIsEntry(s, entry[..], p, block, id);
    r := Ok(entry[..]);
  }

  method Fill(entry: array<Byte>, p: Partition, block: nat, id: nat) returns (ok: bool)
    requires block > 0 && entry.Length == ENTRY_SIZE && ZeroIn(entry[..], 0, ENTRY_SIZE)
    requires p.offset % block == 0 && p.room % block == 0 && p.actual <= p.room && Nameable(p.name)
    modifies entry
    ensures ok <==> Packable(p, block, id)
    ensures ok ==> Filled(entry[..], p, block, id) && ZeroIn(entry[..], 124, 128)
  {
    hide NameBytes, Be32;
    Splice(entry, 0, NameBytes(p.name));
    ghost var s1 := entry[..];
    var words := EntryWords(p, block, id);
    hide EntryWords;
    ok := StoreWords(entry, 16, words);
    PackableWords(p, block, id);
    if !ok {
      return;
    }
    ghost var s2 := entry[..];
    ok := StoreHalf(entry, 62, p.integrity);
    if !ok || !Fits8(p.version) || !Fits8(p.misc) {
      return false;
    }
    entry[64] := p.version;
    entry[65] := p.misc;
    ghost var s3 := entry[..];
    assert s3[0..16] == s1[0..16];
    forall k | 0 <= k < 7 ensures Word(s3, 16 + 4 * k) == words[k] {
      assert Word(s2, 16 + 4 * k) == words[k];
    }
  }

  predicate HeaderPackable(c: Contents)
    requires c.block > 0
  {
    Fits32(c.tocSize / c.block) && Fits32(|c.partitions|) && Fits32(c.block) && Fits32(c.size / c.block)
  }

  method HeaderBytes(c: Contents) returns (r: Result<seq<Byte>>)
    requires c.block > 0 && c.tocSize % c.block == 0 && c.size % c.block == 0
    ensures r.Ok? <==> HeaderPackable(c)
    ensures r.Ok? ==> HeaderIs(r.value, c)
  {
    hide Xors, Be32, HeaderIs;
    var header := new Byte[HEADER_SIZE](i => 0);
    var words := [MAGIC, VERSION, c.tocSize / c.block, ENTRY_SIZE, |c.partitions|, c.block, c.size / c.block];
    var ok := StoreWords(header, 0, words);
    assert ok <==> HeaderPackable(c) by {
      assert ok ==> Fits32(words[2]) && Fits32(words[4]) && Fits32(words[5]) && Fits32(words[6]);
    }
    if !ok {
      return Err;
    }
    ghost var s := header[..];
    Seal(header, 12);
    FilledIsHeader(s, header[..], c, words);
    r := Ok(header[..]);
  }

  lemma FilledIsHeader(s: seq<Byte>, t: seq<Byte>, c: Contents, words: seq<int>)
    requires c.block > 0 && c.tocSize % c.block == 0 && c.size % c.block == 0
    requires words == [MAGIC, VERSION, c.tocSize / c.block, ENTRY_SIZE, |c.partitions|, c.block, c.size / c.block]
    requires |s| == HEADER_SIZE && ZeroIn(s, 28, 44) && forall k :: 0 <= k < 7 ==> Word(s, 0 + 4 * k) == words[k]
    requires SameOutside(t, s, 44, 4) && Xors(t, 12) == 0
    ensures HeaderIs(t, c)
  {
    hide Xors, Be32;
    forall k | 0 <= k < 7 ensures Word(t, 0 + 4 * k) == words[k] {
      assert Word(s, 0 + 4 * k) == words[k];
    }
    assert Word(t, 0 + 4 * 0) == words[0] && Word(t, 0 + 4 * 1) == words[1] && Word(t, 0 + 4 * 2) == words[2]
        && Word(t, 0 + 4 * 3) == words[3] && Word(t, 0 + 4 * 4) == words[4] && Word(t, 0 + 4 * 5) == words[5]
        && Word(t, 0 + 4 * 6) == words[6];
    assert c.tocSize == c.tocSize / c.block * c.block && c.size == c.size / c.block * c.block;
  }

  /** All entries, one after the other. */
  method Entries(partitions: seq<Partition>, block: nat) returns (r: Result<seq<Byte>>)
    requires block > 0
    ensures r.Ok? <==> forall k :: 0 <= k < |partitions| ==> Packable(partitions[k], block, k + 1)
    ensures r.Ok? ==> EntriesAre(r.value, partitions, block)
  {
    hide Packable, EntryIs;
    var entries, index := [], 0;
    while index < |partitions|
      invariant 0 <= index <= |partitions|
      invariant forall k :: 0 <= k < index ==> Packable(partitions[k], block, k + 1)
      invariant EntriesAre(entries, partitions[..index], block)
    {
      var entry := EntryBytes(partitions[index], block, index + 1);
      if entry.Err? {
        return Err;
      }
      AppendEntry(entries, partitions[..index], block, entry.value, partitions[index]);
      assert partitions[..index + 1] == partitions[..index] + [partitions[index]];
      entries := entries + entry.value;
      index := index + 1;
    }
    assert partitions[..index] == partitions;
    r := Ok(entries);
  }

  ghost predicate EntriesAre(bytes: seq<Byte>, partitions: seq<Partition>, block: nat) {
    && |bytes| == ENTRY_SIZE * |partitions|
    && forall k :: 0 <= k < |partitions| ==>
         EntryIs(bytes[ENTRY_SIZE * k..ENTRY_SIZE * k + ENTRY_SIZE], partitions[k], block, k + 1)
  }

  lemma AppendEntry(bytes: seq<Byte>, partitions: seq<Partition>, block: nat, e: seq<Byte>, p: Partition)
    requires EntriesAre(bytes, partitions, block) && EntryIs(e, p, block, |partitions| + 1)
    ensures EntriesAre(bytes + e, partitions + [p], block)
  {
    assert |e| == ENTRY_SIZE;
    hide EntryIs;
    var n := |partitions|;
    forall k | 0 <= k < n + 1
      ensures EntryIs((bytes + e)[ENTRY_SIZE * k..ENTRY_SIZE * k + ENTRY_SIZE], (partitions + [p])[k], block, k + 1)
    {
      if k < n {
        SliceOfFirst(bytes, e, ENTRY_SIZE * k);
        assert (partitions + [p])[k] == partitions[k];
      } else {
        assert (bytes + e)[ENTRY_SIZE * k..ENTRY_SIZE * k + ENTRY_SIZE] == e;
        assert (partitions + [p])[k] == p;
      }
    }
  }

  lemma SliceOfFirst(a: seq<Byte>, b: seq<Byte>, at: nat)
    requires at + ENTRY_SIZE <= |a|
    ensures (a + b)[at..at + ENTRY_SIZE] == a[at..at + ENTRY_SIZE]
  {
  }

  // ---------------------------------------------------------------------------------------------
  // The image

  function ContentsOf(g: Geometry, placed: seq<Partition>): Contents
    requires GeometryOk(g)
  {
    Contents(g.size, g.block, g.tocOffset, g.tocSize, [TableEntry(g, |placed|)] + placed)
  }

  /** The packer accepts the manifest. */
  ghost predicate Accepted(g: Geometry, specs: seq<Spec>) {
    && GeometryOk(g) && Placed(g, specs, |specs|).Ok?
    && var c := ContentsOf(g, Placed(g, specs, |specs|).value.partitions);
       && HEADER_SIZE + |c.partitions| * ENTRY_SIZE <= g.tocSize && HeaderPackable(c)
       && forall k :: 0 <= k < |c.partitions| ==> Packable(c.partitions[k], c.block, k + 1)
  }

  predicate InPayload(p: Partition, x: int) { p.offset <= x < p.offset + |p.payload| }

  /** Neither in the table nor in a payload. */
  ghost predicate Free(c: Contents, x: nat) {
    && !(c.tocOffset <= x < EntryStart(c, |c.partitions|))
    && forall k :: 0 <= k < |c.partitions| ==> !InPayload(c.partitions[k], x)
  }

  /** The table and every payload are in place, and every other byte is the fill byte. */
  ghost predicate ImageIs(image: seq<Byte>, c: Contents, fill: Byte) {
    && TableIs(image, c) && LaidOut(c)
    && (forall k :: 0 <= k < |c.partitions| ==>
          var p := c.partitions[k]; image[p.offset..p.offset + |p.payload|] == p.payload)
    && (forall x :: 0 <= x < |image| && Free(c, x) ==> image[x] == fill)
  }

  lemma AcceptedIsLaidOut(g: Geometry, specs: seq<Spec>)
    requires Accepted(g, specs)
    ensures LaidOut(ContentsOf(g, Placed(g, specs, |specs|).value.partitions))
  {
    hide Placed;
    PlacedApart(g, specs, |specs|);
    var placed := Placed(g, specs, |specs|).value.partitions;
    var c := ContentsOf(g, placed);
    forall k | 0 <= k < |c.partitions| ensures 0 <= c.partitions[k].offset && 0 <= c.partitions[k].actual {
      assert Packable(c.partitions[k], c.block, k + 1);
    }
    forall i | 0 <= i < |placed| ensures c.partitions[i + 1] == placed[i] {
    }
    forall i, j | 0 <= i < j < |c.partitions| ensures Apart(c.partitions[i], c.partitions[j]) {
      if i > 0 {
        assert Apart(placed[i - 1], placed[j - 1]);
      } else {
        assert Apart(TableEntry(g, 0), placed[j - 1]);
      }
    }
  }

  /** The first `k` payloads are written over `table`. */
  ghost predicate Overlaid(image: seq<Byte>, table: seq<Byte>, s: seq<Partition>, k: nat)
    requires k <= |s|
  {
    && |image| == |table|
    && (forall j :: 0 <= j < k ==> 0 <= s[j].offset && s[j].offset + |s[j].payload| <= |image|)
    && (forall j, x :: 0 <= j < k && InPayload(s[j], x) ==> image[x] == s[j].payload[x - s[j].offset])
    && (forall x :: 0 <= x < |image| && (forall j :: 0 <= j < k ==> !InPayload(s[j], x)) ==> image[x] == table[x])
  }

  lemma OverlayNext(image: seq<Byte>, image': seq<Byte>, table: seq<Byte>, s: seq<Partition>, k: nat)
    requires k < |s| && Overlaid(image, table, s, k)
    requires forall j :: 0 <= j <= k ==> |s[j].payload| <= s[j].room
    requires forall j :: 0 <= j < k ==> Apart(s[j], s[k])
    requires 0 <= s[k].offset && s[k].offset + |s[k].payload| <= |image|
    requires SameOutside(image', image, s[k].offset, |s[k].payload|)
    requires image'[s[k].offset..s[k].offset + |s[k].payload|] == s[k].payload
    ensures Overlaid(image', table, s, k + 1)
  {
    var p := s[k];
    forall j, x | 0 <= j < k + 1 && InPayload(s[j], x) ensures image'[x] == s[j].payload[x - s[j].offset] {
      if j == k {
        assert image'[x] == image'[p.offset..p.offset + |p.payload|][x - p.offset];
      } else {
        assert Apart(s[j], p);
        assert !InPayload(p, x);
      }
    }
    forall x | 0 <= x < |image| && (forall j :: 0 <= j < k + 1 ==> !InPayload(s[j], x)) ensures image'[x] == table[x] {
      assert !InPayload(p, x);
      assert image[x] == table[x];
    }
  }

  /** The loop of `build_image` over the payloads. */
  method WritePayloads(image: array<Byte>, c: Contents)
    requires image.Length == c.size && LaidOut(c)
    modifies image
    ensures Overlaid(image[..], old(image[..]), c.partitions, |c.partitions|)
  {
    hide Apart;
    var index := 0;
    while index < |c.partitions|
      invariant 0 <= index <= |c.partitions| && Overlaid(image[..], old(image[..]), c.partitions, index)
    {
      var p := c.partitions[index];
      ghost var before := image[..];
      Splice(image, p.offset, p.payload);
      OverlayNext(before, image[..], old(image[..]), c.partitions, index);
      index := index + 1;
    }
  }

  /** The table in an image that is otherwise `fill`. */
  lemma TableInPlace(table: seq<Byte>, c: Contents, header: seq<Byte>, entries: seq<Byte>)
    requires |table| == c.size && EntryStart(c, |c.partitions|) <= c.tocOffset + c.tocSize <= c.size
    requires HeaderIs(header, c) && EntriesAre(entries, c.partitions, c.block)
    requires table[c.tocOffset..c.tocOffset + HEADER_SIZE] == header
    requires table[c.tocOffset + HEADER_SIZE..EntryStart(c, |c.partitions|)] == entries
    ensures TableIs(table, c)
  {
    hide EntryIs, HeaderIs;
    var n := |c.partitions|;
    forall k {:trigger EntryStart(c, k)} | 0 <= k < n
      ensures EntryIs(table[EntryStart(c, k)..EntryStart(c, k) + ENTRY_SIZE], c.partitions[k], c.block, k + 1)
    {
      assert table[EntryStart(c, k)..EntryStart(c, k) + ENTRY_SIZE] ==
          entries[ENTRY_SIZE * k..ENTRY_SIZE * k + ENTRY_SIZE];
    }
  }

  /** A table is read from the bytes of its own partition only. */
  lemma SameTable(image: seq<Byte>, table: seq<Byte>, c: Contents)
    requires TableIs(table, c) && |image| == |table|
    requires forall x :: c.tocOffset <= x < c.tocOffset + c.tocSize ==> image[x] == table[x]
    ensures TableIs(image, c)
  {
    hide EntryIs, HeaderIs;
    assert image[c.tocOffset..c.tocOffset + HEADER_SIZE] == table[c.tocOffset..c.tocOffset + HEADER_SIZE];
    forall k {:trigger EntryStart(c, k)} | 0 <= k < |c.partitions|
      ensures EntryIs(image[EntryStart(c, k)..EntryStart(c, k) + ENTRY_SIZE], c.partitions[k], c.block, k + 1)
    {
      assert image[EntryStart(c, k)..EntryStart(c, k) + ENTRY_SIZE] ==
          table[EntryStart(c, k)..EntryStart(c, k) + ENTRY_SIZE];
    }
  }

  lemma PayloadInPlace(image: seq<Byte>, table: seq<Byte>, s: seq<Partition>, k: nat)
    requires Overlaid(image, table, s, |s|) && k < |s|
    ensures var p := s[k];
            0 <= p.offset && p.offset + |p.payload| <= |image| && image[p.offset..p.offset + |p.payload|] == p.payload
  {
    var p := s[k];
    forall i | 0 <= i < |p.payload| ensures image[p.offset + i] == p.payload[i] {
      assert InPayload(p, p.offset + i);
    }
  }

  predicate OwnsTable(c: Contents) {
    && c.partitions != [] && c.partitions[0].offset == c.tocOffset && c.partitions[0].room == c.tocSize
    && c.partitions[0].payload == []
  }

  ghost predicate FillsAround(table: seq<Byte>, c: Contents, fill: Byte) {
    forall x :: 0 <= x < |table| && !(c.tocOffset <= x < EntryStart(c, |c.partitions|)) ==> table[x] == fill
  }

  /** Payloads do not reach into the table. */
  lemma OverlayKeepsTable(image: seq<Byte>, table: seq<Byte>, c: Contents, fill: Byte)
    requires TableIs(table, c) && LaidOut(c) && Overlaid(image, table, c.partitions, |c.partitions|) && OwnsTable(c)
    requires FillsAround(table, c, fill)
    ensures ImageIs(image, c, fill)
  {
    hide TableIs, LaidOut, OwnsTable, Overlaid, FillsAround, Free;
    TableStays(image, table, c);
    PayloadsInPlace(image, table, c.partitions);
    RestIsFill(image, table, c, fill);
  }

  lemma TableStays(image: seq<Byte>, table: seq<Byte>, c: Contents)
    requires TableIs(table, c) && LaidOut(c) && Overlaid(image, table, c.partitions, |c.partitions|) && OwnsTable(c)
    ensures TableIs(image, c)
  {
    assert |table| == c.size && c.tocOffset + c.tocSize <= c.size;
    hide TableIs, LaidOut, OwnsTable;
    forall x | c.tocOffset <= x < c.tocOffset + c.tocSize ensures image[x] == table[x] {
      PayloadsAvoidTable(c, x);
    }
    SameTable(image, table, c);
  }

  lemma PayloadsInPlace(image: seq<Byte>, table: seq<Byte>, s: seq<Partition>)
    requires Overlaid(image, table, s, |s|)
    ensures forall k :: 0 <= k < |s| ==>
              && 0 <= s[k].offset && s[k].offset + |s[k].payload| <= |image|
              && image[s[k].offset..s[k].offset + |s[k].payload|] == s[k].payload
  {
    hide Overlaid;
    forall k | 0 <= k < |s|
      ensures 0 <= s[k].offset && s[k].offset + |s[k].payload| <= |image|
      ensures image[s[k].offset..s[k].offset + |s[k].payload|] == s[k].payload
    {
      PayloadInPlace(image, table, s, k);
    }
  }

  lemma RestIsFill(image: seq<Byte>, table: seq<Byte>, c: Contents, fill: Byte)
    requires Overlaid(image, table, c.partitions, |c.partitions|) && FillsAround(table, c, fill)
    ensures forall x :: 0 <= x < |image| && Free(c, x) ==> image[x] == fill
  {
  }

  lemma PayloadsAvoidTable(c: Contents, x: int)
    requires LaidOut(c) && OwnsTable(c) && c.tocOffset <= x < c.tocOffset + c.tocSize
    ensures forall j :: 0 <= j < |c.partitions| ==> !InPayload(c.partitions[j], x)
  {
    forall j | 0 <= j < |c.partitions| ensures !InPayload(c.partitions[j], x) {
      assert j > 0 ==> Apart(c.partitions[0], c.partitions[j]);
    }
  }

  /** The whole packer: an image for exactly the accepted manifests, and what it holds. */
  method BuildImage(g: Geometry, specs: seq<Spec>) returns (r: Result<(Contents, seq<Byte>)>)
    ensures r.Ok? <==> Accepted(g, specs)
    ensures r.Ok? ==>
              && r.value.0 == ContentsOf(g, Placed(g, specs, |specs|).value.partitions)
              && ImageIs(r.value.1, r.value.0, g.fill)
  {
    hide Packable, HeaderIs, EntryIs, ImageIs, TableIs, LaidOut, Placed, EntriesAre;
    if !GeometryOk(g) {
      return Err;
    }
    var placed := Place(g, specs);
    if placed.Err? {
      return Err;
    }
    var c := ContentsOf(g, placed.value);
    if HEADER_SIZE + |c.partitions| * ENTRY_SIZE > g.tocSize {
      return Err;
    }
    var header := HeaderBytes(c);
    if header.Err? {
      return Err;
    }
    var entries := Entries(c.partitions, c.block);
    if entries.Err? {
      return Err;
    }
    AcceptedIsLaidOut(g, specs);
    var image := Assemble(c, header.value, entries.value, g.fill);
    r := Ok((c, image));
  }

  method Assemble(c: Contents, header: seq<Byte>, entries: seq<Byte>, fill: Byte) returns (bytes: seq<Byte>)
    requires EntryStart(c, |c.partitions|) <= c.tocOffset + c.tocSize <= c.size && LaidOut(c)
    requires OwnsTable(c) && HeaderIs(header, c) && EntriesAre(entries, c.partitions, c.block)
    ensures ImageIs(bytes, c, fill)
  {
    hide HeaderIs, EntriesAre, LaidOut, TableIs, ImageIs, OwnsTable, Overlaid, FillsAround;
    RecordSizes(header, entries, c);
    var image := new Byte[c.size](i => fill);
    WriteTable(image, c, header, entries, fill);
    ghost var table := image[..];
    WritePayloads(image, c);
    OverlayKeepsTable(image[..], table, c, fill);
    bytes := image[..];
  }

  /** The header and the entries, in an image that is otherwise `fill`. */
  method WriteTable(image: array<Byte>, c: Contents, header: seq<Byte>, entries: seq<Byte>, ghost fill: Byte)
    requires image.Length == c.size && EntryStart(c, |c.partitions|) <= c.tocOffset + c.tocSize <= c.size
    requires HeaderIs(header, c) && EntriesAre(entries, c.partitions, c.block)
    requires forall x :: 0 <= x < image.Length ==> image[x] == fill
    modifies image
    ensures TableIs(image[..], c) && FillsAround(image[..], c, fill)
  {
    hide HeaderIs, EntriesAre, TableIs;
    RecordSizes(header, entries, c);
    var at := c.tocOffset;
    Splice(image, at, header);
    ghost var one := image[..];
    Splice(image, at + HEADER_SIZE, entries);
    assert image[..][at..at + HEADER_SIZE] == one[at..at + HEADER_SIZE];
    TableInPlace(image[..], c, header, entries);
  }

  lemma RecordSizes(header: seq<Byte>, entries: seq<Byte>, c: Contents)
    requires HeaderIs(header, c) && EntriesAre(entries, c.partitions, c.block)
    ensures |header| == HEADER_SIZE && |entries| == ENTRY_SIZE * |c.partitions|
  {
  }

  // ---------------------------------------------------------------------------------------------
  // The round trip

  lemma {:induction false} NamedSeen(s: seq<Partition>, name: string)
    requires forall i :: 0 <= i < |s| ==> NulFree(s[i].name)
    ensures var found := Named(s, name);
            if found.Err? then Named(AllSeen(s), name).Err?
            else found.value in s && found.value.name == name && Named(AllSeen(s), name) == Ok(Seen(found.value))
  {
    if s != [] {
      ShownIsName(s[0].name);
      if s[0].name != name {
        NamedSeen(s[1..], name);
        assert AllSeen(s)[1..] == AllSeen(s[1..]);
      }
    }
  }

  /** Of a partition with a NUL-free name the inspector forgets the payload and nothing else. */
  lemma NulFreeSeen(s: seq<Partition>)
    requires forall i :: 0 <= i < |s| ==> NulFree(s[i].name)
    ensures forall i :: 0 <= i < |s| ==> AllSeen(s)[i] == s[i].(payload := [])
  {
    forall i | 0 <= i < |s| ensures AllSeen(s)[i] == s[i].(payload := []) {
      ShownIsName(s[i].name);
    }
  }

  /** What the firmware reports is what was packed, field by field. */
  predicate Describes(i: PartitionInfo, p: Partition) {
    && i.offset == p.offset && i.address == 0x2000_0000 + p.offset && i.room == p.room && i.actual == p.actual
    && i.flags == p.flags && i.integrity == p.integrity && i.version == p.version && i.misc == p.misc
  }

  lemma InfoDescribes(p: Partition)
    ensures InfoFits(Seen(p)) ==> Describes(InfoOf(Seen(p)), p)
  {
    hide Shown;
  }

  /**
   * In an image with the platform's geometry and NUL-free names, the inspector returns the packed partitions and
   * the firmware finds the first one with the name: its offset, sizes and flags, and its bytes at that offset.
   */
  lemma PackedIsFound(image: seq<Byte>, c: Contents, fill: Byte, name: string)
    requires ImageIs(image, c, fill) && Platform(c)
    requires forall i :: 0 <= i < |c.partitions| ==> NulFree(c.partitions[i].name)
    requires Ascii(name) && NulFree(name)
    ensures Inspect(image, TOC_OFFSET) == Ok(c.(partitions := AllSeen(c.partitions)))
    ensures forall i :: 0 <= i < |c.partitions| ==> AllSeen(c.partitions)[i] == c.partitions[i].(payload := [])
    ensures var found := Named(c.partitions, name);
            if found.Err? then Find(image, Encode(name)).Err?
            else
              && Find(image, Encode(name)).Ok? && Describes(Find(image, Encode(name)).value, found.value)
              && found.value.offset + |found.value.payload| <= |image|
              && image[found.value.offset..found.value.offset + |found.value.payload|] == found.value.payload
  {
    assert |image| == c.size;
    hide TableIs, Encode, Find, Inspect, Free, Apart, Shown, InfoOf, Ascii;
    InspectReadsBack(image, c);
    FindAgrees(image, c, name);
    NamedSeen(c.partitions, name);
    NulFreeSeen(c.partitions);
    hide Describes;
    if Named(c.partitions, name).Ok? {
      InfoDescribes(Named(c.partitions, name).value);
    }
  }
}
