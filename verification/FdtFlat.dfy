/** The bytes of a flattened tree (sections 5.2 to 5.6 of the Devicetree Specification v0.4), and the scan of them. */
module FdtFlat {
  import opened Base
  import opened Bytes
  import opened FdtScan
  import opened FdtTree

  function WordBytes(w: nat): (b: seq<Byte>)
    ensures |b| == 4
  {
    [ByteOf(w, 0), ByteOf(w, 1), ByteOf(w, 2), ByteOf(w, 3)]
  }

  predicate TokenOk(t: Token) {
    match t
    case Begin(name) => NulFree(name)
    case Prop(offset, value) => offset < TWO32 && |value| < TWO32
    case _ => true
  }

  /** A token before padding. */
  function Body(t: Token): (b: seq<Byte>)
    ensures |b| >= 4
  {
    match t
    case Begin(name) => WordBytes(BEGIN_NODE) + name + [0]
    case End => WordBytes(END_NODE)
    case Prop(offset, value) => WordBytes(PROP) + WordBytes(|value|) + WordBytes(offset) + value
    case Nop => WordBytes(NOP)
    case Stop => WordBytes(END)
  }

  function Encode(t: Token): (b: seq<Byte>)
    ensures |b| == Align4(|Body(t)|)
  {
    Body(t) + Zeros(Align4(|Body(t)|) - |Body(t)|)
  }

  function EncodeAll(tokens: seq<Token>): seq<Byte> {
    if tokens == [] then [] else Encode(tokens[0]) + EncodeAll(tokens[1..])
  }

  // ---------------------------------------------------------------------------------------------
  // Tokens read back

  /** The bytes `b` are at `at`. */
  ghost predicate Holds(s: seq<Byte>, at: nat, b: seq<Byte>) {
    at + |b| <= |s| && forall i :: 0 <= i < |b| ==> s[at + i] == b[i]
  }

  lemma WordHeld(s: seq<Byte>, at: nat, w: nat)
    requires w < TWO32 && Holds(s, at, WordBytes(w))
    ensures Word(s, at) == w
  {
    WordOfBytes(w);
    var b := WordBytes(w);
    assert s[at + 0] == b[0] && s[at + 1] == b[1] && s[at + 2] == b[2] && s[at + 3] == b[3];
  }

  lemma HoldsPart(s: seq<Byte>, at: nat, a: seq<Byte>, b: seq<Byte>)
    requires Holds(s, at, a + b)
    ensures Holds(s, at, a) && Holds(s, at + |a|, b)
  {
    forall i | 0 <= i < |a| ensures s[at + i] == a[i] {
      assert (a + b)[i] == a[i];
    }
    forall i | 0 <= i < |b| ensures s[at + |a| + i] == b[i] {
      assert (a + b)[|a| + i] == b[i] && at + |a| + i == at + (|a| + i);
    }
  }

  lemma BeginReadsBack(s: seq<Byte>, at: nat, name: seq<Byte>)
    requires Holds(s, at, Body(Begin(name))) && NulFree(name)
    ensures Decode(s, at) == (true, Begin(name), at + |Body(Begin(name))|)
  {
    HoldsPart(s, at, WordBytes(BEGIN_NODE) + name, [0]);
    HoldsPart(s, at, WordBytes(BEGIN_NODE), name);
    WordHeld(s, at, BEGIN_NODE);
    var from, n := at + 4, at + 4 + |name|;
    var zero: seq<Byte> := [0];
    assert s[at + |WordBytes(BEGIN_NODE) + name| + 0] == zero[0];
    forall i | from <= i < n ensures s[i] != 0 {
      assert s[from + (i - from)] == name[i - from];
    }
    assert Terminator(s, from) == n;
    assert s[from..n] == name;
  }

  lemma PropReadsBack(s: seq<Byte>, at: nat, offset: nat, value: seq<Byte>)
    requires Holds(s, at, Body(Prop(offset, value))) && offset < TWO32 && |value| < TWO32
    ensures Decode(s, at) == (true, Prop(offset, value), at + |Body(Prop(offset, value))|)
  {
    hide Word;
    var a, b, c := WordBytes(PROP), WordBytes(|value|), WordBytes(offset);
    HoldsPart(s, at, a + b + c, value);
    HoldsPart(s, at, a + b, c);
    HoldsPart(s, at, a, b);
    WordHeld(s, at, PROP);
    WordHeld(s, at + 4, |value|);
    WordHeld(s, at + 8, offset);
    assert s[at + 12..at + 12 + |value|] == value;
  }

  lemma TokenReadsBack(s: seq<Byte>, at: nat, t: Token)
    requires Holds(s, at, Encode(t)) && TokenOk(t) && at % 4 == 0
    ensures Decode(s, at) == (true, t, at + |Body(t)|) && Align4(at + |Body(t)|) == at + |Encode(t)| <= |s|
  {
    hide Decode, Encode, Body, Align4;
    AlignShift(at, |Body(t)|);
    assert Encode(t) == Body(t) + Zeros(Align4(|Body(t)|) - |Body(t)|) by { EncodeIs(t); }
    HoldsPart(s, at, Body(t), Zeros(Align4(|Body(t)|) - |Body(t)|));
    match t {
      case Begin(name) => BeginReadsBack(s, at, name);
      case Prop(offset, value) => PropReadsBack(s, at, offset, value);
      case End => PlainReadsBack(s, at, t, END_NODE);
      case Nop => PlainReadsBack(s, at, t, NOP);
      case Stop => PlainReadsBack(s, at, t, END);
    }
  }

  lemma AlignShift(at: nat, n: nat)
    requires at % 4 == 0
    ensures Align4(at + n) == at + Align4(n)
  {
  }

  lemma EncodeIs(t: Token)
    ensures Encode(t) == Body(t) + Zeros(Align4(|Body(t)|) - |Body(t)|)
  {
  }

  lemma PlainReadsBack(s: seq<Byte>, at: nat, t: Token, w: nat)
    requires (t == End && w == END_NODE) || (t == Nop && w == NOP) || (t == Stop && w == END)
    requires Holds(s, at, Body(t))
    ensures Decode(s, at) == (true, t, at + |Body(t)|)
  {
    hide Word;
    WordHeld(s, at, w);
  }

  /** Scanning the bytes of tokens is running the tokens. */
  lemma {:induction false} ScanTokens(s: seq<Byte>, strings: seq<Byte>, at: nat, tokens: seq<Token>, p: Place)
    requires Holds(s, at, EncodeAll(tokens)) && at % 4 == 0 && forall i :: 0 <= i < |tokens| ==> TokenOk(tokens[i])
    requires Play(strings, tokens, p).Go?
    ensures (at + |EncodeAll(tokens)|) % 4 == 0
    ensures Scan(s, strings, at, p) == Scan(s, strings, at + |EncodeAll(tokens)|, Play(strings, tokens, p).place)
    decreases |tokens|
  {
    hide Decode, Encode, Apply, Body, Align4;
    if tokens != [] {
      var t, rest := tokens[0], tokens[1..];
      HoldsPart(s, at, Encode(t), EncodeAll(rest));
      TokenReadsBack(s, at, t);
      ScanTokens(s, strings, at + |Encode(t)|, rest, Apply(strings, p, t).place);
    }
  }

  // ---------------------------------------------------------------------------------------------
  // Trees

  ghost predicate AllOk(tokens: seq<Token>) { forall i :: 0 <= i < |tokens| ==> TokenOk(tokens[i]) }

  lemma {:induction false} NodeTokensOk(n: Node, offsets: Offsets)
    requires NodeOk(n, offsets)
    ensures AllOk(Tokens(n, offsets))
    decreases n
  {
    ItemsTokensOk(n.items, offsets);
  }

  lemma {:induction false} ItemsTokensOk(items: seq<Item>, offsets: Offsets)
    requires ItemsOk(items, offsets)
    ensures AllOk(ItemsTokens(items, offsets))
    decreases items
  {
    if items != [] {
      ItemsTokensOk(items[..|items| - 1], offsets);
      ItemTokensOk(items[|items| - 1], offsets);
    }
  }

  lemma {:induction false} ItemTokensOk(i: Item, offsets: Offsets)
    requires ItemOk(i, offsets)
    ensures AllOk(ItemTokens(i, offsets))
    decreases i
  {
    if i.Child? {
      NodeTokensOk(i.node, offsets);
    }
  }

  function Fillers(n: nat): (s: seq<Token>)
    ensures |s| == n && forall i :: 0 <= i < n ==> s[i] == Nop
  {
    seq(n, i => Nop)
  }

  lemma {:induction false} PlayFillers(strings: seq<Byte>, n: nat, p: Place)
    ensures Play(strings, Fillers(n), p) == Go(p)
  {
    if n > 0 {
      PlayFillers(strings, n - 1, p);
      assert Fillers(n)[1..] == Fillers(n - 1);
    }
  }

  /** The tokens of the structure block up to its end: the tree, with fillers before and after it. */
  function TreeTokens(root: Node, offsets: Offsets, before: nat, after: nat): seq<Token>
    requires NodeOk(root, offsets)
  {
    Fillers(before) + Tokens(root, offsets) + Fillers(after)
  }

  lemma PlayTree(strings: seq<Byte>, offsets: Offsets, root: Node, before: nat, after: nat)
    requires NodeOk(root, offsets) && Indexed(strings, offsets)
    ensures AllOk(TreeTokens(root, offsets, before, after))
    ensures Play(strings, TreeTokens(root, offsets, before, after), OUTSIDE).Go?
    ensures var q := Play(strings, TreeTokens(root, offsets, before, after), OUTSIDE).place;
            q.depth == -1 && q.count == Cpus(root)
  {
    hide Play;
    var tokens := Tokens(root, offsets);
    NodeTokensOk(root, offsets);
    PlayFillers(strings, before, OUTSIDE);
    RootRun(strings, offsets, root);
    RunConcat(strings, Fillers(before), tokens, OUTSIDE);
    var q := Play(strings, tokens, OUTSIDE).place;
    PlayFillers(strings, after, q);
    RunConcat(strings, Fillers(before) + tokens, Fillers(after), OUTSIDE);
  }

  function StructureBlock(root: Node, offsets: Offsets, before: nat, after: nat): seq<Byte>
    requires NodeOk(root, offsets)
  {
    EncodeAll(TreeTokens(root, offsets, before, after)) + Encode(Stop)
  }

  /** The scan of a flattened tree is valid and counts its processors; what follows the end token does not matter. */
  lemma TreeScans(s: seq<Byte>, strings: seq<Byte>, offsets: Offsets, root: Node, before: nat, after: nat)
    requires NodeOk(root, offsets) && Indexed(strings, offsets)
    requires Holds(s, 0, StructureBlock(root, offsets, before, after))
    ensures Scan(s, strings, 0, OUTSIDE) == Count(Cpus(root), true)
  {
    hide Play, TreeTokens, Cpus, Decode, Encode, EncodeAll;
    var tokens := TreeTokens(root, offsets, before, after);
    PlayTree(strings, offsets, root, before, after);
    HoldsPart(s, 0, EncodeAll(tokens), Encode(Stop));
    ScanTokens(s, strings, 0, tokens, OUTSIDE);
    TokenReadsBack(s, |EncodeAll(tokens)|, Stop);
  }

  /** Any blob whose header names such blocks, wherever they are. */
  lemma BlobCounts(blob: seq<Byte>, offsets: Offsets, root: Node, before: nat, after: nat)
    requires |blob| >= HEADER && HeaderOk(blob) && Word(blob, 4) <= |blob|
    requires NodeOk(root, offsets) && Indexed(Strings(blob), offsets)
    requires Structure(blob) == StructureBlock(root, offsets, before, after)
    ensures CountOf(blob) == Count(Cpus(root), true)
  {
    hide Scan, StructureBlock, Cpus, NodeOk, Indexed, HeaderOk;
    TreeScans(Structure(blob), Strings(blob), offsets, root, before, after);
  }
}
