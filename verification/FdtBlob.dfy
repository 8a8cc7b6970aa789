/** Every device tree has a flattened form, with its own strings block and header. */
module FdtBlob {
  import opened Base
  import opened Bytes
  import opened FdtScan
  import opened FdtTree
  import opened FdtFlat

  // ---------------------------------------------------------------------------------------------
  // The strings block

  /** Names and property names hold no zero byte, and values have 32-bit lengths. */
  predicate TreeOk(n: Node)
    decreases n
  {
    NulFree(n.name) && forall i :: 0 <= i < |n.items| ==> TreeItemOk(n.items[i])
  }

  predicate TreeItemOk(i: Item)
    decreases i
  {
    match i
    case Property(name, value) => NulFree(name) && |value| < TWO32
    case Child(n) => TreeOk(n)
    case Filler => true
  }

  /** The property names of a node, with repetitions. */
  function Names(n: Node): seq<seq<Byte>>
    decreases n
  {
    ItemsNames(n.items)
  }

  function ItemsNames(items: seq<Item>): seq<seq<Byte>>
    decreases items
  {
    if items == [] then [] else ItemsNames(items[..|items| - 1]) + ItemNames(items[|items| - 1])
  }

  function ItemNames(i: Item): seq<seq<Byte>>
    decreases i
  {
    match i
    case Property(name, _) => [name]
    case Child(n) => Names(n)
    case Filler => []
  }

  /** One string after the other. */
  function Block(names: seq<seq<Byte>>): seq<Byte> {
    if names == [] then [] else Block(names[..|names| - 1]) + names[|names| - 1] + [0]
  }

  function Index(names: seq<seq<Byte>>): Offsets {
    if names == [] then map[] else Index(names[..|names| - 1])[names[|names| - 1] := |Block(names[..|names| - 1])|]
  }

  lemma StringKept(s: seq<Byte>, more: seq<Byte>, at: nat)
    requires HasString(s, at)
    ensures HasString(s + more, at) && StringAt(s + more, at) == StringAt(s, at)
  {
    var n := Terminator(s, at);
    assert (s + more)[n] == 0 && forall i :: at <= i < n ==> (s + more)[i] == s[i];
    assert Terminator(s + more, at) == n;
    assert (s + more)[at..n] == s[at..n];
  }

  lemma StringAdded(s: seq<Byte>, name: seq<Byte>)
    requires NulFree(name)
    ensures HasString(s + name + [0], |s|) && StringAt(s + name + [0], |s|) == name
  {
    var t, n := s + name + [0], |s| + |name|;
    assert t[n] == 0 && forall i :: |s| <= i < n ==> t[i] == name[i - |s|];
    assert Terminator(t, |s|) == n;
    assert t[|s|..n] == name;
  }

  ghost predicate Listed(names: seq<seq<Byte>>, strings: seq<Byte>, offsets: Offsets) {
    && Indexed(strings, offsets)
    && (forall i :: 0 <= i < |names| ==> names[i] in offsets)
    && (forall name :: name in offsets ==> offsets[name] < |strings|)
  }

  lemma ListMore(names: seq<seq<Byte>>, strings: seq<Byte>, offsets: Offsets, name: seq<Byte>)
    requires Listed(names, strings, offsets) && NulFree(name)
    ensures Listed(names + [name], strings + name + [0], offsets[name := |strings|])
  {
    hide HasString, StringAt;
    var strings', offsets' := strings + name + [0], offsets[name := |strings|];
    StringAdded(strings, name);
    forall other | other in offsets'
      ensures HasString(strings', offsets'[other]) && StringAt(strings', offsets'[other]) == other
    {
      if other != name {
        StringKept(strings, name + [0], offsets[other]);
        assert strings + (name + [0]) == strings';
      }
    }
  }

  lemma ListNext(names: seq<seq<Byte>>, name: seq<Byte>)
    requires Listed(names, Block(names), Index(names)) && NulFree(name)
    ensures Listed(names + [name], Block(names + [name]), Index(names + [name]))
  {
    assert (names + [name])[..|names|] == names;
    hide Listed, NulFree;
    ListMore(names, Block(names), Index(names), name);
  }

  lemma {:induction false} BlockIsListed(names: seq<seq<Byte>>)
    requires forall i :: 0 <= i < |names| ==> NulFree(names[i])
    ensures Listed(names, Block(names), Index(names))
  {
    hide NulFree, HasString, StringAt;
    if names != [] {
      var before, name := names[..|names| - 1], names[|names| - 1];
      BlockIsListed(before);
      hide Listed, Block, Index;
      ListNext(before, name);
      assert before + [name] == names;
    }
  }

  ghost predicate Covers(offsets: Offsets, names: seq<seq<Byte>>) {
    forall i :: 0 <= i < |names| ==> names[i] in offsets && offsets[names[i]] < TWO32
  }

  lemma CoversParts(offsets: Offsets, a: seq<seq<Byte>>, b: seq<seq<Byte>>)
    requires Covers(offsets, a + b)
    ensures Covers(offsets, a) && Covers(offsets, b)
  {
    forall i | 0 <= i < |a| ensures a[i] in offsets && offsets[a[i]] < TWO32 {
      assert (a + b)[i] == a[i];
    }
    forall i | 0 <= i < |b| ensures b[i] in offsets && offsets[b[i]] < TWO32 {
      assert (a + b)[|a| + i] == b[i];
    }
  }

  lemma {:induction false} NamesAreOk(n: Node, offsets: Offsets)
    requires TreeOk(n) && Covers(offsets, Names(n))
    ensures NodeOk(n, offsets)
    decreases n
  {
    assert Names(n) == ItemsNames(n.items);
    ItemsNamesAreOk(n.items, offsets);
  }

  lemma {:induction false} ItemsNamesAreOk(items: seq<Item>, offsets: Offsets)
    requires forall i :: 0 <= i < |items| ==> TreeItemOk(items[i])
    requires Covers(offsets, ItemsNames(items))
    ensures ItemsOk(items, offsets)
    decreases items
  {
    if items != [] {
      var before, last := ItemsNames(items[..|items| - 1]), ItemNames(items[|items| - 1]);
      assert ItemsNames(items) == before + last;
      CoversParts(offsets, before, last);
      ItemsNamesAreOk(items[..|items| - 1], offsets);
      ItemNamesAreOk(items[|items| - 1], offsets);
    }
  }

  lemma {:induction false} ItemNamesAreOk(i: Item, offsets: Offsets)
    requires TreeItemOk(i) && Covers(offsets, ItemNames(i))
    ensures ItemOk(i, offsets)
    decreases i
  {
    match i {
      case Property(name, _) => assert ItemNames(i)[0] == name;
      case Child(n) => assert ItemNames(i) == Names(n); NamesAreOk(n, offsets);
      case Filler =>
    }
  }

  lemma {:induction false} NamesAreNulFree(n: Node)
    requires TreeOk(n)
    ensures forall i :: 0 <= i < |Names(n)| ==> NulFree(Names(n)[i])
    decreases n
  {
    ItemsNamesAreNulFree(n.items);
  }

  lemma {:induction false} ItemsNamesAreNulFree(items: seq<Item>)
    requires forall i :: 0 <= i < |items| ==> TreeItemOk(items[i])
    ensures forall i :: 0 <= i < |ItemsNames(items)| ==> NulFree(ItemsNames(items)[i])
    decreases items
  {
    if items != [] {
      ItemsNamesAreNulFree(items[..|items| - 1]);
      ItemNamesAreNulFree(items[|items| - 1]);
    }
  }

  lemma {:induction false} ItemNamesAreNulFree(i: Item)
    requires TreeItemOk(i)
    ensures forall k :: 0 <= k < |ItemNames(i)| ==> NulFree(ItemNames(i)[k])
    decreases i
  {
    if i.Child? {
      NamesAreNulFree(i.node);
    }
  }

  // ---------------------------------------------------------------------------------------------
  // The blob

  function WordsBytes(ws: seq<nat>): (b: seq<Byte>)
    ensures |b| == 4 * |ws|
  {
    if ws == [] then [] else WordBytes(ws[0]) + WordsBytes(ws[1..])
  }

  lemma {:induction false} WordsHeld(s: seq<Byte>, at: nat, ws: seq<nat>, k: nat)
    requires Holds(s, at, WordsBytes(ws)) && k < |ws| && ws[k] < TWO32
    ensures Word(s, at + 4 * k) == ws[k]
    decreases |ws|
  {
    hide Word, WordBytes;
    HoldsPart(s, at, WordBytes(ws[0]), WordsBytes(ws[1..]));
    if k == 0 {
      WordHeld(s, at, ws[0]);
    } else {
      WordsHeld(s, at + 4, ws[1..], k - 1);
      assert at + 4 + 4 * (k - 1) == at + 4 * k;
    }
  }

  /** Version 17: header, empty reservation block, structure block, strings block. */
  function BlobOf(structure: seq<Byte>, strings: seq<Byte>): seq<Byte> {
    var total := 56 + |structure| + |strings|;
    WordsBytes([FDT_MAGIC, total, 56, 56 + |structure|, 40, 17, 16, 0, |strings|, |structure|])
    + Zeros(16) + structure + strings
  }

  lemma BlobHolds(structure: seq<Byte>, strings: seq<Byte>, total: nat)
    requires total == 56 + |structure| + |strings|
    ensures var blob := BlobOf(structure, strings);
            && |blob| == total
            && Holds(blob, 0,
                     WordsBytes([FDT_MAGIC, total, 56, 56 + |structure|, 40, 17, 16, 0, |strings|, |structure|]))
            && blob[56..56 + |structure|] == structure && blob[56 + |structure|..total] == strings
  {
    hide WordsBytes;
  }

  lemma BlobHasBlocks(structure: seq<Byte>, strings: seq<Byte>)
    requires |BlobOf(structure, strings)| < TWO32
    ensures var blob := BlobOf(structure, strings);
            && HeaderOk(blob) && Word(blob, 4) == |blob|
            && Structure(blob) == structure && Strings(blob) == strings
  {
    hide Word, WordsBytes, BlobOf, Holds;
    var blob, total := BlobOf(structure, strings), 56 + |structure| + |strings|;
    var ws := [FDT_MAGIC, total, 56, 56 + |structure|, 40, 17, 16, 0, |strings|, |structure|];
    BlobHolds(structure, strings, total);
    WordsHeld(blob, 0, ws, 0);
    WordsHeld(blob, 0, ws, 1);
    WordsHeld(blob, 0, ws, 2);
    WordsHeld(blob, 0, ws, 3);
    WordsHeld(blob, 0, ws, 8);
    WordsHeld(blob, 0, ws, 9);
  }

  /** The flattened form of a tree. */
  function Flatten(root: Node): seq<Byte>
    requires NodeOk(root, Index(Names(root)))
  {
    BlobOf(StructureBlock(root, Index(Names(root)), 0, 0), Block(Names(root)))
  }

  /** For every device tree, the scan of its flattened form is valid and counts the processors under `/cpus`. */
  lemma FlattenedTreeCounts(root: Node)
    requires TreeOk(root) && |Block(Names(root))| < TWO32
    ensures NodeOk(root, Index(Names(root)))
    ensures |Flatten(root)| < TWO32 ==>
              && HeaderOk(Flatten(root)) && Word(Flatten(root), 4) == |Flatten(root)|
              && CountOf(Flatten(root)) == Count(Cpus(root), true)
  {
    hide StructureBlock, Cpus, CountOf, BlobOf;
    var names := Names(root);
    NamesAreNulFree(root);
    BlockIsListed(names);
    NamesAreOk(root, Index(names));
    if |Flatten(root)| < TWO32 {
      BlobHasBlocks(StructureBlock(root, Index(names), 0, 0), Block(names));
      BlobCounts(Flatten(root), Index(names), root, 0, 0);
    }
  }
}
