/**
 * The scan of any bytes. It is valid exactly when the structure block reads as a list of trees up to its end token, and
 * then it has counted their processors; in every other case it says so.
 */
module FdtParse {
  import opened Base
  import opened Bytes
  import opened FdtScan
  import opened FdtTree
  import opened FdtFlat

  // ---------------------------------------------------------------------------------------------
  // Reading tokens

  /** The tokens from the cursor on, each aligned behind the one before it, and where they end. */
  ghost predicate Reads(s: seq<Byte>, cursor: nat, tokens: seq<Token>, next: nat)
    decreases |tokens|
  {
    if tokens == [] then next == cursor
    else
      && cursor + 4 <= |s| && Decode(s, cursor).0 && Decode(s, cursor).1 == tokens[0]
      && Align4(Decode(s, cursor).2) <= |s| && Reads(s, Align4(Decode(s, cursor).2), tokens[1..], next)
  }

  ghost predicate StopsAt(s: seq<Byte>, next: nat) {
    next + 4 <= |s| && Decode(s, next).0 && Decode(s, next).1 == Stop
  }

  /** A valid scan has read tokens that leave it outside every node, and then the end token. */
  lemma {:induction false} ScanReads(s: seq<Byte>, strings: seq<Byte>, cursor: nat, p: Place)
      returns (tokens: seq<Token>, next: nat)
    requires Scan(s, strings, cursor, p).valid
    ensures Reads(s, cursor, tokens, next) && StopsAt(s, next) && Play(strings, tokens, p).Go?
    ensures Play(strings, tokens, p).place.depth == -1
    ensures Scan(s, strings, cursor, p).count == Play(strings, tokens, p).place.count
    decreases |s| - cursor
  {
    hide Decode, Align4;
    var (ok, t, at) := Decode(s, cursor);
    if t == Stop {
      tokens, next := [], cursor;
    } else {
      var q := Apply(strings, p, t).place;
      var rest;
      rest, next := ScanReads(s, strings, Align4(at), q);
      tokens := [t] + rest;
      assert tokens[1..] == rest;
    }
  }

  /** Tokens that run can be read off one by one. */
  lemma {:induction false} ReadsScan(s: seq<Byte>, strings: seq<Byte>, cursor: nat, tokens: seq<Token>, next: nat,
                                     p: Place)
    requires Reads(s, cursor, tokens, next) && Play(strings, tokens, p).Go?
    ensures Scan(s, strings, cursor, p) == Scan(s, strings, next, Play(strings, tokens, p).place)
    decreases |tokens|
  {
    hide Decode, Align4;
    if tokens != [] {
      ReadsScan(s, strings, Align4(Decode(s, cursor).2), tokens[1..], next, Apply(strings, p, tokens[0]).place);
    }
  }

  lemma WordFits(s: seq<Byte>, at: nat)
    requires at + 4 <= |s|
    ensures Word(s, at) < TWO32
  {
  }

  lemma {:induction false} ReadsOk(s: seq<Byte>, cursor: nat, tokens: seq<Token>, next: nat)
    requires Reads(s, cursor, tokens, next) && |s| < TWO32
    ensures AllOk(tokens)
    decreases |tokens|
  {
    if tokens != [] {
      DecodeOk(s, cursor);
      hide Decode, Align4;
      ReadsOk(s, Align4(Decode(s, cursor).2), tokens[1..], next);
      assert forall i :: 0 < i < |tokens| ==> tokens[i] == tokens[1..][i - 1];
    }
  }

  lemma DecodeOk(s: seq<Byte>, cursor: nat)
    requires cursor + 4 <= |s| < TWO32 && Decode(s, cursor).0
    ensures TokenOk(Decode(s, cursor).1)
  {
    hide Word;
    if cursor + 12 <= |s| {
      WordFits(s, cursor + 8);
    }
  }

  // ---------------------------------------------------------------------------------------------
  // Property names

  ghost function OffsetOf(strings: seq<Byte>, name: seq<Byte>): (o: nat)
    requires exists o :: HasString(strings, o) && StringAt(strings, o) == name
    ensures HasString(strings, o) && StringAt(strings, o) == name
  {
    var o :| HasString(strings, o) && StringAt(strings, o) == name;
    o
  }

  ghost function NamesOf(strings: seq<Byte>): set<seq<Byte>> {
    set o | 0 <= o < |strings| && HasString(strings, o) :: StringAt(strings, o)
  }

  /** One offset for every string of the block. */
  ghost function OffsetsOf(strings: seq<Byte>): Offsets {
    map name | name in NamesOf(strings) :: OffsetOf(strings, name)
  }

  lemma OffsetsAreIndexed(strings: seq<Byte>)
    ensures Indexed(strings, OffsetsOf(strings))
    ensures forall o :: HasString(strings, o) ==> StringAt(strings, o) in OffsetsOf(strings)
    ensures forall name :: name in OffsetsOf(strings) ==> OffsetsOf(strings)[name] < |strings|
  {
  }

  /** The same token, up to which of several equal strings a property name is. */
  predicate AlikeToken(strings: seq<Byte>, a: Token, b: Token) {
    if a.Prop? && b.Prop? then
      && a.value == b.value && HasString(strings, a.nameOffset) && HasString(strings, b.nameOffset)
      && StringAt(strings, a.nameOffset) == StringAt(strings, b.nameOffset)
    else a == b && !a.Stop?
  }

  predicate Alike(strings: seq<Byte>, a: seq<Token>, b: seq<Token>) {
    |a| == |b| && forall i :: 0 <= i < |a| ==> AlikeToken(strings, a[i], b[i])
  }

  lemma {:induction false} AlikePlays(strings: seq<Byte>, a: seq<Token>, b: seq<Token>, p: Place)
    requires Alike(strings, a, b)
    ensures Play(strings, a, p) == Play(strings, b, p)
    decreases |a|
  {
    if a != [] {
      assert AlikeToken(strings, a[0], b[0]);
      assert Apply(strings, p, a[0]) == Apply(strings, p, b[0]);
      if Apply(strings, p, a[0]).Go? {
        AlikePlays(strings, a[1..], b[1..], Apply(strings, p, a[0]).place);
      }
    }
  }

  lemma AlikeConcat(strings: seq<Byte>, a: seq<Token>, b: seq<Token>, c: seq<Token>, d: seq<Token>)
    requires Alike(strings, a, b) && Alike(strings, c, d)
    ensures Alike(strings, a + c, b + d)
  {
    hide AlikeToken;
  }

  // ---------------------------------------------------------------------------------------------
  // Nesting

  /** Nodes begun less nodes ended. */
  function Level(tokens: seq<Token>): int {
    if tokens == [] then 0
    else Level(tokens[1..]) + if tokens[0].Begin? then 1 else if tokens[0].End? then -1 else 0
  }

  lemma {:induction false} LevelConcat(a: seq<Token>, b: seq<Token>)
    ensures Level(a + b) == Level(a) + Level(b)
  {
    if a == [] {
      assert a + b == b;
    } else {
      LevelConcat(a[1..], b);
      assert (a + b)[1..] == a[1..] + b;
    }
  }

  lemma {:induction false} LevelIsDepth(strings: seq<Byte>, tokens: seq<Token>, p: Place)
    requires Play(strings, tokens, p).Go?
    ensures Play(strings, tokens, p).place.depth == p.depth + Level(tokens)
    decreases |tokens|
  {
    if tokens != [] {
      LevelIsDepth(strings, tokens[1..], Apply(strings, p, tokens[0]).place);
    }
  }

  lemma {:induction false} AlikeLevel(strings: seq<Byte>, a: seq<Token>, b: seq<Token>)
    requires Alike(strings, a, b)
    ensures Level(a) == Level(b)
    decreases |a|
  {
    if a != [] {
      assert AlikeToken(strings, a[0], b[0]);
      AlikeLevel(strings, a[1..], b[1..]);
    }
  }

  lemma {:induction false} NodeLevel(n: Node, offsets: Offsets)
    requires NodeOk(n, offsets)
    ensures Level(Tokens(n, offsets)) == 0
    decreases n
  {
    ItemsLevel(n.items, offsets);
    LevelConcat([Begin(n.name)] + ItemsTokens(n.items, offsets), [End]);
    LevelConcat([Begin(n.name)], ItemsTokens(n.items, offsets));
  }

  lemma {:induction false} ItemsLevel(items: seq<Item>, offsets: Offsets)
    requires ItemsOk(items, offsets)
    ensures Level(ItemsTokens(items, offsets)) == 0
    decreases items
  {
    if items != [] {
      var n := |items| - 1;
      ItemsLevel(items[..n], offsets);
      ItemLevel(items[n], offsets);
      LevelConcat(ItemsTokens(items[..n], offsets), ItemTokens(items[n], offsets));
    }
  }

  lemma {:induction false} ItemLevel(i: Item, offsets: Offsets)
    requires ItemOk(i, offsets)
    ensures Level(ItemTokens(i, offsets)) == 0
    decreases i
  {
    if i.Child? {
      NodeLevel(i.node, offsets);
    }
  }

  /** Items can be put in front, too. */
  lemma {:induction false} ItemsInFront(i: Item, items: seq<Item>, offsets: Offsets)
    requires ItemOk(i, offsets) && ItemsOk(items, offsets)
    ensures ItemsOk([i] + items, offsets)
    ensures ItemsTokens([i] + items, offsets) == ItemTokens(i, offsets) + ItemsTokens(items, offsets)
    decreases |items|
  {
    var all := [i] + items;
    if items == [] {
      assert all[..0] == [] && all[0] == i;
    } else {
      var n := |items| - 1;
      ItemsInFront(i, items[..n], offsets);
      assert all[..|all| - 1] == [i] + items[..n] && all[|all| - 1] == items[n];
    }
  }

  // ---------------------------------------------------------------------------------------------
  // Parsing

  /** The tokens are those of the items, whichever equal strings they name. */
  ghost predicate Spells(strings: seq<Byte>, tokens: seq<Token>, items: seq<Item>) {
    ItemsOk(items, OffsetsOf(strings)) && Alike(strings, tokens, ItemsTokens(items, OffsetsOf(strings)))
  }

  /** Every property name is a string of the block. */
  predicate NamesHold(strings: seq<Byte>, tokens: seq<Token>) {
    forall i :: 0 <= i < |tokens| ==> !tokens[i].Stop? && (tokens[i].Prop? ==> HasString(strings, tokens[i].nameOffset))
  }

  lemma {:induction false} PlayHasNames(strings: seq<Byte>, tokens: seq<Token>, p: Place)
    requires Play(strings, tokens, p).Go?
    ensures NamesHold(strings, tokens)
    decreases |tokens|
  {
    if tokens != [] {
      PlayHasNames(strings, tokens[1..], Apply(strings, p, tokens[0]).place);
      assert forall i :: 0 < i < |tokens| ==> tokens[i] == tokens[1..][i - 1];
    }
  }

  /**
   * The longest list of items that the tokens begin with: up to their end, or up to a node that ends without having
   * begun. `open` when a node begins and does not end.
   */
  lemma {:induction false} Parse(strings: seq<Byte>, tokens: seq<Token>)
      returns (items: seq<Item>, used: nat, open: bool)
    requires NamesHold(strings, tokens) && AllOk(tokens) && |strings| < TWO32
    ensures used <= |tokens|
    ensures open ==> Level(tokens) >= 1
    ensures !open ==> Spells(strings, tokens[..used], items) && (used == |tokens| || tokens[used] == End)
    decreases |tokens|
  {
    hide Spells, AlikeToken, Level;
    items, used, open := [], 0, false;
    if tokens == [] || tokens[0] == End {
      SpellsNothing(strings);
      assert tokens[..0] == [];
    } else {
      var t, rest := tokens[0], tokens[1..];
      RestHolds(strings, tokens, 1);
      if t.Begin? {
        var inner, n, unclosed := Parse(strings, rest);
        LevelOfRest(tokens);
        if unclosed || n == |rest| {
          open := true;
          if !unclosed {
            assert rest[..n] == rest;
            SpelledLevel(strings, rest, inner);
          }
        } else {
          items, used, open := ParseAfter(strings, tokens, inner, n);
        }
      } else {
        LevelOfRest(tokens);
        items, used, open := Parse(strings, rest);
        if !open {
          SpellsOne(strings, t, rest[..used], items);
          items, used := [ItemOf(strings, t)] + items, used + 1;
          assert tokens[..used] == [t] + rest[..used - 1];
        }
      }
    }
  }

  /** What follows a node that ends is parsed in turn. */
  lemma {:induction false} ParseAfter(strings: seq<Byte>, tokens: seq<Token>, inner: seq<Item>, n: nat)
      returns (items: seq<Item>, used: nat, open: bool)
    requires NamesHold(strings, tokens) && AllOk(tokens) && |strings| < TWO32
    requires n + 1 < |tokens| && tokens[0].Begin? && tokens[n + 1] == End && Spells(strings, tokens[1..][..n], inner)
    ensures used <= |tokens|
    ensures open ==> Level(tokens) >= 1
    ensures !open ==> Spells(strings, tokens[..used], items) && (used == |tokens| || tokens[used] == End)
    decreases |tokens|, 0
  {
    hide Spells, AlikeToken, Level;
    var name, body, rest := tokens[0].name, tokens[1..][..n], tokens[n + 2..];
    assert tokens[..n + 2] == [Begin(name)] + body + [End];
    assert tokens == tokens[..n + 2] + rest;
    SpellsNode(strings, name, body, inner);
    SpelledLevel(strings, tokens[..n + 2], [Child(Node(name, inner))]);
    LevelConcat(tokens[..n + 2], rest);
    RestHolds(strings, tokens, n + 2);
    items, used, open := Parse(strings, rest);
    if !open {
      SpellsBoth(strings, tokens[..n + 2], Child(Node(name, inner)), rest[..used], items);
      items, used := [Child(Node(name, inner))] + items, used + n + 2;
      assert tokens[..used] == tokens[..n + 2] + rest[..used - (n + 2)];
    }
  }

  lemma RestHolds(strings: seq<Byte>, tokens: seq<Token>, n: nat)
    requires NamesHold(strings, tokens) && AllOk(tokens) && n <= |tokens|
    ensures NamesHold(strings, tokens[n..]) && AllOk(tokens[n..])
  {
    hide TokenOk;
  }

  lemma LevelOfRest(tokens: seq<Token>)
    requires tokens != []
    ensures Level(tokens) ==
              Level(tokens[1..]) + if tokens[0].Begin? then 1 else if tokens[0].End? then -1 else 0
  {
  }

  lemma SpelledLevel(strings: seq<Byte>, tokens: seq<Token>, items: seq<Item>)
    requires Spells(strings, tokens, items)
    ensures Level(tokens) == 0
  {
    ItemsLevel(items, OffsetsOf(strings));
    AlikeLevel(strings, tokens, ItemsTokens(items, OffsetsOf(strings)));
  }

  lemma SpellsNothing(strings: seq<Byte>)
    ensures Spells(strings, [], [])
  {
  }

  /** The item of a token that is not part of a node's frame. */
  function ItemOf(strings: seq<Byte>, t: Token): Item
    requires t.Prop? ==> HasString(strings, t.nameOffset)
  {
    if t.Prop? then Property(StringAt(strings, t.nameOffset), t.value) else Filler
  }

  lemma SpellsOne(strings: seq<Byte>, t: Token, tokens: seq<Token>, items: seq<Item>)
    requires (t.Prop? && HasString(strings, t.nameOffset)) || t == Nop
    requires TokenOk(t) && |strings| < TWO32 && Spells(strings, tokens, items)
    ensures Spells(strings, [t] + tokens, [ItemOf(strings, t)] + items)
  {
    OffsetsAreIndexed(strings);
    hide OffsetsOf;
    var i, offsets := ItemOf(strings, t), OffsetsOf(strings);
    assert ItemOk(i, offsets);
    assert Alike(strings, [t], ItemTokens(i, offsets));
    ItemsInFront(i, items, offsets);
    AlikeConcat(strings, [t], ItemTokens(i, offsets), tokens, ItemsTokens(items, offsets));
  }

  lemma SpellsNode(strings: seq<Byte>, name: seq<Byte>, body: seq<Token>, inner: seq<Item>)
    requires NulFree(name) && Spells(strings, body, inner)
    ensures Spells(strings, [Begin(name)] + body + [End], [Child(Node(name, inner))])
  {
    hide OffsetsOf;
    var offsets, n := OffsetsOf(strings), Node(name, inner);
    assert NodeOk(n, offsets) && ItemOk(Child(n), offsets);
    ItemsInFront(Child(n), [], offsets);
    assert [Child(n)] + [] == [Child(n)];
    assert ItemsTokens([Child(n)], offsets) == Tokens(n, offsets) + [];
    AlikeConcat(strings, [Begin(name)], [Begin(name)], body, ItemsTokens(inner, offsets));
    AlikeConcat(strings, [Begin(name)] + body, [Begin(name)] + ItemsTokens(inner, offsets), [End], [End]);
    assert Tokens(n, offsets) + [] == [Begin(name)] + ItemsTokens(inner, offsets) + [End];
  }

  lemma SpellsBoth(strings: seq<Byte>, a: seq<Token>, i: Item, b: seq<Token>, items: seq<Item>)
    requires Spells(strings, a, [i]) && Spells(strings, b, items)
    ensures Spells(strings, a + b, [i] + items)
  {
    hide OffsetsOf, AlikeToken;
    var offsets := OffsetsOf(strings);
    assert ItemOk([i][0], offsets);
    ItemsInFront(i, [], offsets);
    assert [i] + [] == [i];
    assert ItemsTokens([i], offsets) == ItemTokens(i, offsets) + [];
    ItemsInFront(i, items, offsets);
    AlikeConcat(strings, a, ItemTokens(i, offsets), b, ItemsTokens(items, offsets));
  }

  // ---------------------------------------------------------------------------------------------
  // Exactly the well-formed blocks

  /** The block reads as these trees, and then its end token. */
  ghost predicate IsForest(s: seq<Byte>, strings: seq<Byte>, items: seq<Item>) {
    exists tokens, next :: Reads(s, 0, tokens, next) && StopsAt(s, next) && Spells(strings, tokens, items)
  }

  lemma SpelledPlays(strings: seq<Byte>, tokens: seq<Token>, items: seq<Item>)
    requires Spells(strings, tokens, items)
    ensures Play(strings, tokens, OUTSIDE).Go?
    ensures var q := Play(strings, tokens, OUTSIDE).place; q.depth == -1 && q.count == AllCpus(items)
  {
    hide OffsetsOf, AlikeToken, AllCpus;
    OffsetsAreIndexed(strings);
    ForestRun(strings, OffsetsOf(strings), items, OUTSIDE);
    AlikePlays(strings, tokens, ItemsTokens(items, OffsetsOf(strings)), OUTSIDE);
  }

  /** Tokens that leave the scan outside every node are those of a list of trees. */
  lemma ClosedIsSpelled(strings: seq<Byte>, tokens: seq<Token>) returns (items: seq<Item>)
    requires Play(strings, tokens, OUTSIDE).Go? && Play(strings, tokens, OUTSIDE).place.depth == -1
    requires AllOk(tokens) && |strings| < TWO32
    ensures Spells(strings, tokens, items)
  {
    hide Spells;
    PlayHasNames(strings, tokens, OUTSIDE);
    LevelIsDepth(strings, tokens, OUTSIDE);
    var used, open;
    items, used, open := Parse(strings, tokens);
    if used < |tokens| {
      var a, b := tokens[..used], tokens[used..];
      assert tokens == a + b;
      SpelledPlays(strings, a, items);
      RunConcat(strings, a, b, OUTSIDE);
      assert false;
    }
    assert tokens[..used] == tokens;
  }

  /** The scan is valid if and only if the block is a list of trees, and then the count is that of their processors. */
  lemma ScanIsExact(s: seq<Byte>, strings: seq<Byte>)
    requires |s| < TWO32 && |strings| < TWO32
    ensures Scan(s, strings, 0, OUTSIDE).valid <==> exists items :: IsForest(s, strings, items)
    ensures forall items :: IsForest(s, strings, items) ==>
              Scan(s, strings, 0, OUTSIDE) == Count(AllCpus(items), true)
  {
    hide Spells, Reads, AllCpus, Decode, Scan;
    if Scan(s, strings, 0, OUTSIDE).valid {
      var tokens, next := ScanReads(s, strings, 0, OUTSIDE);
      ReadsOk(s, 0, tokens, next);
      var items := ClosedIsSpelled(strings, tokens);
      assert IsForest(s, strings, items);
    }
    forall items | IsForest(s, strings, items) ensures Scan(s, strings, 0, OUTSIDE) == Count(AllCpus(items), true) {
      ForestScans(s, strings, items);
    }
  }

  lemma ForestScans(s: seq<Byte>, strings: seq<Byte>, items: seq<Item>)
    requires IsForest(s, strings, items)
    ensures Scan(s, strings, 0, OUTSIDE) == Count(AllCpus(items), true)
  {
    hide Spells, Reads, AllCpus, Decode, Play;
    var tokens, next :| Reads(s, 0, tokens, next) && StopsAt(s, next) && Spells(strings, tokens, items);
    SpelledPlays(strings, tokens, items);
    ReadsScan(s, strings, 0, tokens, next, OUTSIDE);
  }

  /** `cpu_count` on any memory: valid exactly for a sound header with a structure block that is a list of trees. */
  lemma CountIsExact(blob: seq<Byte>)
    requires |blob| >= HEADER && (HeaderOk(blob) ==> Word(blob, 4) <= |blob|)
    ensures CountOf(blob).valid <==>
              HeaderOk(blob) && exists items :: IsForest(Structure(blob), Strings(blob), items)
    ensures HeaderOk(blob) ==>
              forall items :: IsForest(Structure(blob), Strings(blob), items) ==>
                CountOf(blob) == Count(AllCpus(items), true)
  {
    hide Scan, IsForest, AllCpus, Word;
    if HeaderOk(blob) {
      WordFits(blob, 36);
      WordFits(blob, 32);
      ScanIsExact(Structure(blob), Strings(blob));
    }
  }
}
