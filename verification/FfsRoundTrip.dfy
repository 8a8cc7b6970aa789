/** A packed table of contents reads back as it was written, and the firmware finds the same partitions. */
module FfsRoundTrip {
  import opened Bytes
  import opened FfsFormat
  import opened FfsReaders

  /** A partition as a reader of the table sees it: no payload, and the name up to its first NUL. */
  function Seen(p: Partition): Partition { p.(name := Shown(p.name), payload := []) }

  function AllSeen(s: seq<Partition>): (r: seq<Partition>)
    ensures |r| == |s| && forall i :: 0 <= i < |s| ==> r[i] == Seen(s[i])
  {
    seq(|s|, i requires 0 <= i < |s| => Seen(s[i]))
  }

  lemma EntryReadsBack(e: seq<Byte>, p: Partition, block: nat, id: nat, size: nat)
    requires EntryIs(e, p, block, id) && p.offset + p.room <= size && p.actual <= p.room
    ensures InspectEntry(e, block, size) == Ok(Seen(p))
  {
    hide Xors, Be32, NameBytes, Shown, Nameable;
    NameRoundTrip(p.name);
  }

  lemma {:induction false} EntriesReadBack(image: seq<Byte>, c: Contents, k: nat)
    requires TableIs(image, c) && LaidOut(c) && k <= |c.partitions|
    ensures InspectEntries(image, c.tocOffset + HEADER_SIZE, c.block, k) == Ok(AllSeen(c.partitions[..k]))
  {
    hide EntryIs, InspectEntry, HeaderIs, Apart;
    if k > 0 {
      EntriesReadBack(image, c, k - 1);
      var at := EntryStart(c, k - 1);
      EntryReadsBack(image[at..at + ENTRY_SIZE], c.partitions[k - 1], c.block, k, c.size);
      assert AllSeen(c.partitions[..k]) == AllSeen(c.partitions[..k - 1]) + [Seen(c.partitions[k - 1])];
    }
  }

  /** The inspector returns every partition, in order, with all its fields. */
  lemma InspectReadsBack(image: seq<Byte>, c: Contents)
    requires TableIs(image, c) && LaidOut(c)
    ensures Inspect(image, c.tocOffset) == Ok(c.(partitions := AllSeen(c.partitions)))
  {
    hide EntryIs, InspectEntry, Xors, Apart;
    EntriesReadBack(image, c, |c.partitions|);
    assert c.partitions[..|c.partitions|] == c.partitions;
  }

  // ---------------------------------------------------------------------------------------------
  // The firmware

  /** The geometry that the firmware is built for. */
  predicate Platform(c: Contents) {
    c.size == FLASH_SIZE && c.block == BLOCK_SIZE && c.tocOffset == TOC_OFFSET && c.tocSize == TOC_SIZE
  }

  predicate InfoFits(p: Partition) {
    p.offset >= 0 && p.room >= 0 && p.actual >= 0 && p.flags >= 0 && p.integrity >= 0 && p.version >= 0 && p.misc >= 0
  }

  function InfoOf(p: Partition): PartitionInfo
    requires InfoFits(p)
  {
    PartitionInfo(p.offset, FLASH_BASE + p.offset, p.room, p.actual, p.flags, p.integrity, p.version, p.misc)
  }

  /** The firmware compares the whole of the name it is given with the name up to the first NUL. */
  lemma NameIsShown(e: seq<Byte>, p: Partition, block: nat, id: nat, name: string)
    requires EntryIs(e, p, block, id) && Ascii(name) && NulFree(name)
    ensures NameIs(e, Encode(name)) <==> Shown(p.name) == name
  {
    var b, n := NameBytes(p.name), |Shown(p.name)|;
    ShownIsName(p.name);
    assert forall i :: 0 <= i < 16 ==> e[i] == e[..16][i];
    assert forall i :: 0 <= i < n ==> e[i] == Shown(p.name)[i] as int;
    assert e[n] == 0;
    if NameIs(e, Encode(name)) {
      assert forall i :: 0 <= i < |name| ==> e[i] == Encode(name)[i] == name[i] as int;
      assert |name| == n;
    }
  }

  lemma {:induction false} FindFromFinds(flash: seq<Byte>, c: Contents, name: string, k: nat)
    requires TableIs(flash, c) && LaidOut(c) && Platform(c) && Ascii(name) && NulFree(name) && k <= |c.partitions|
    ensures var found := Named(AllSeen(c.partitions)[k..], name);
            var r := FindFrom(flash, |c.partitions|, Encode(name), k);
            if found.Ok? then
              found.value in AllSeen(c.partitions) && InfoFits(found.value) && r == Ok(InfoOf(found.value))
            else r.Err?
    decreases |c.partitions| - k
  {
    hide NameIs, Encode, Xors, NameBytes, Shown, Nameable, Be32, Apart;
    var seen := AllSeen(c.partitions);
    if k < |c.partitions| {
      var p, e := c.partitions[k], EntryAt(flash, k);
      assert e == flash[EntryStart(c, k)..EntryStart(c, k) + ENTRY_SIZE];
      NameIsShown(e, p, c.block, k + 1, name);
      assert seen[k..][0] == seen[k] == Seen(p) && seen[k..][1..] == seen[k + 1..];
      if Shown(p.name) != name {
        FindFromFinds(flash, c, name, k + 1);
      }
    }
  }

  /** The firmware finds the first partition with a name, and finds one exactly when the inspector does. */
  lemma FindAgrees(flash: seq<Byte>, c: Contents, name: string)
    requires TableIs(flash, c) && LaidOut(c) && Platform(c) && Ascii(name) && NulFree(name)
    ensures Inspect(flash, TOC_OFFSET).Ok?
    ensures var found := Named(Inspect(flash, TOC_OFFSET).value.partitions, name);
            if found.Ok? then InfoFits(found.value) && Find(flash, Encode(name)) == Ok(InfoOf(found.value))
            else Find(flash, Encode(name)).Err?
  {
    hide EntryIs, FindFrom, Inspect, Apart, Xors, Encode;
    InspectReadsBack(flash, c);
    FindFromFinds(flash, c, name, 0);
    assert AllSeen(c.partitions)[0..] == AllSeen(c.partitions);
    assert flash[TOC_OFFSET..TOC_OFFSET + HEADER_SIZE] == flash[c.tocOffset..c.tocOffset + HEADER_SIZE];
  }
}
