/** Device trees, their flattened form, and the scan of it. */
module FdtTree {
  import opened Base
  import opened Bytes
  import opened FdtScan

  datatype Node = Node(name: seq<Byte>, items: seq<Item>)

  datatype Item = Property(name: seq<Byte>, value: seq<Byte>) | Child(node: Node) | Filler

  // ---------------------------------------------------------------------------------------------
  // What the scan is for

  /** The node has a `device_type` that is exactly "cpu". */
  predicate IsCpu(n: Node) { exists i :: 0 <= i < |n.items| && n.items[i] == Property(DEVICE_TYPE, CPU + [0]) }

  function CpuItems(items: seq<Item>): nat {
    if items == [] then 0 else CpuItems(items[..|items| - 1]) + CpuItem(items[|items| - 1])
  }

  function CpuItem(i: Item): nat { if i.Child? && IsCpu(i.node) then 1 else 0 }

  /** Direct children of the nodes named "cpus" under the root that are processors. */
  function Cpus(root: Node): nat { CpusUnder(root.items) }

  function CpusUnder(items: seq<Item>): nat {
    if items == [] then 0 else CpusUnder(items[..|items| - 1]) + CpusIn(items[|items| - 1])
  }

  function CpusIn(i: Item): nat { if i.Child? && i.node.name == CPUS then CpuItems(i.node.items) else 0 }

  // ---------------------------------------------------------------------------------------------
  // The tokens of a tree

  /** Where each property name is in the strings block. */
  type Offsets = map<seq<Byte>, nat>

  predicate Indexed(strings: seq<Byte>, offsets: Offsets) {
    forall name :: name in offsets ==> HasString(strings, offsets[name]) && StringAt(strings, offsets[name]) == name
  }

  predicate NodeOk(n: Node, offsets: Offsets)
    decreases n
  {
    NulFree(n.name) && ItemsOk(n.items, offsets)
  }

  predicate ItemsOk(items: seq<Item>, offsets: Offsets)
    decreases items
  {
    forall i :: 0 <= i < |items| ==> ItemOk(items[i], offsets)
  }

  predicate ItemOk(i: Item, offsets: Offsets)
    decreases i
  {
    match i
    case Property(name, value) => name in offsets && offsets[name] < TWO32 && |value| < TWO32
    case Child(n) => NodeOk(n, offsets)
    case Filler => true
  }

  function Tokens(n: Node, offsets: Offsets): seq<Token>
    requires NodeOk(n, offsets)
    decreases n
  {
    [Begin(n.name)] + ItemsTokens(n.items, offsets) + [End]
  }

  function ItemsTokens(items: seq<Item>, offsets: Offsets): seq<Token>
    requires ItemsOk(items, offsets)
    decreases items
  {
    if items == [] then [] else ItemsTokens(items[..|items| - 1], offsets) + ItemTokens(items[|items| - 1], offsets)
  }

  function ItemTokens(i: Item, offsets: Offsets): seq<Token>
    requires ItemOk(i, offsets)
    decreases i
  {
    match i
    case Property(name, value) => [Prop(offsets[name], value)]
    case Child(n) => Tokens(n, offsets)
    case Filler => [Nop]
  }

  // ---------------------------------------------------------------------------------------------
  // Running tokens

  /** The place after the tokens; a token that would end the scan is a failure. */
  function Play(strings: seq<Byte>, tokens: seq<Token>, p: Place): Effect {
    if tokens == [] then Go(p) else
    match Apply(strings, p, tokens[0])
    case Finish(_) => Finish(false)
    case Go(q) => Play(strings, tokens[1..], q)
  }

  lemma {:induction false} RunConcat(strings: seq<Byte>, a: seq<Token>, b: seq<Token>, p: Place)
    requires Play(strings, a, p).Go?
    ensures Play(strings, a + b, p) == Play(strings, b, Play(strings, a, p).place)
  {
    if a == [] {
      assert a + b == b;
    } else {
      var q := Apply(strings, p, a[0]).place;
      RunConcat(strings, a[1..], b, q);
      assert (a + b)[1..] == a[1..] + b;
    }
  }

  lemma RunOne(strings: seq<Byte>, t: Token, p: Place)
    requires Apply(strings, p, t).Go?
    ensures Play(strings, [t], p) == Apply(strings, p, t)
  {
  }

  /** A node is its name, its items and its end. */
  lemma RunNode(strings: seq<Byte>, offsets: Offsets, n: Node, p: Place, q: Place)
    requires NodeOk(n, offsets) && p.depth >= -1
    requires Play(strings, ItemsTokens(n.items, offsets), Apply(strings, p, Begin(n.name)).place) == Go(q)
    requires q.depth >= 0
    ensures Play(strings, Tokens(n, offsets), p) == Apply(strings, q, End)
  {
    var items := ItemsTokens(n.items, offsets);
    RunOne(strings, Begin(n.name), p);
    RunConcat(strings, [Begin(n.name)], items, p);
    RunConcat(strings, [Begin(n.name)] + items, [End], p);
    RunOne(strings, End, q);
  }

  lemma RunItems(strings: seq<Byte>, offsets: Offsets, items: seq<Item>, p: Place, q: Place)
    requires items != [] && ItemsOk(items, offsets)
    requires ItemsOk(items[..|items| - 1], offsets)
    requires Play(strings, ItemsTokens(items[..|items| - 1], offsets), p) == Go(q)
    ensures Play(strings, ItemsTokens(items, offsets), p) == Play(strings, ItemTokens(items[|items| - 1], offsets), q)
  {
    RunConcat(strings, ItemsTokens(items[..|items| - 1], offsets), ItemTokens(items[|items| - 1], offsets), p);
  }

  // ---------------------------------------------------------------------------------------------
  // The scan of a tree

  /** At a depth where no node begins or ends `/cpus` and none is a direct child of it. */
  predicate Inert(p: Place) {
    p.depth >= 1 && (p.cpusDepth == -1 || (p.cpusDepth == 1 && p.depth >= 2))
  }

  /** Nodes below that depth leave every variable alone. */
  lemma {:induction false} InertNode(strings: seq<Byte>, offsets: Offsets, n: Node, p: Place)
    requires NodeOk(n, offsets) && Indexed(strings, offsets) && Inert(p)
    ensures Play(strings, Tokens(n, offsets), p) == Go(p)
    decreases n
  {
    var q := Apply(strings, p, Begin(n.name)).place;
    assert q == p.(depth := p.depth + 1);
    QuietItems(strings, offsets, n.items, q);
    RunNode(strings, offsets, n, p, q);
  }

  /** Items of a node that is not a direct child of `/cpus`, and whose children are inert. */
  lemma {:induction false} QuietItems(strings: seq<Byte>, offsets: Offsets, items: seq<Item>, p: Place)
    requires ItemsOk(items, offsets) && Indexed(strings, offsets) && Inert(p) && p.depth != p.cpusDepth + 1
    ensures Play(strings, ItemsTokens(items, offsets), p) == Go(p)
    decreases items
  {
    if items != [] {
      QuietItems(strings, offsets, items[..|items| - 1], p);
      RunItems(strings, offsets, items, p, p);
      QuietItem(strings, offsets, items[|items| - 1], p);
    }
  }

  lemma {:induction false} QuietItem(strings: seq<Byte>, offsets: Offsets, i: Item, p: Place)
    requires ItemOk(i, offsets) && Indexed(strings, offsets) && Inert(p) && p.depth != p.cpusDepth + 1
    ensures Play(strings, ItemTokens(i, offsets), p) == Go(p)
    decreases i
  {
    match i {
      case Child(n) => InertNode(strings, offsets, n, p);
      case Property(name, value) => RunOne(strings, Prop(offsets[name], value), p);
      case Filler => RunOne(strings, Nop, p);
    }
  }

  /** Inside a direct child of `/cpus`. */
  predicate InCpu(p: Place) { p.depth == 2 && p.cpusDepth == 1 }

  /** The items of a direct child: counted once as soon as one of them says so. */
  lemma {:induction false} CpuItemsRun(strings: seq<Byte>, offsets: Offsets, items: seq<Item>, p: Place)
    requires ItemsOk(items, offsets) && Indexed(strings, offsets) && InCpu(p) && !p.counted
    ensures var cpu := IsCpu(Node([], items));
            Play(strings, ItemsTokens(items, offsets), p) ==
              Go(p.(counted := cpu, count := p.count + if cpu then 1 else 0))
    decreases |items|
  {
    if items != [] {
      var before, last := items[..|items| - 1], items[|items| - 1];
      CpuItemsRun(strings, offsets, before, p);
      var cpu := IsCpu(Node([], before));
      var q := p.(counted := cpu, count := p.count + if cpu then 1 else 0);
      RunItems(strings, offsets, items, p, q);
      CpuItemRun(strings, offsets, last, q);
      LastItem(items);
    }
  }

  lemma LastItem(items: seq<Item>)
    requires items != []
    ensures IsCpu(Node([], items)) <==>
              IsCpu(Node([], items[..|items| - 1])) || items[|items| - 1] == Property(DEVICE_TYPE, CPU + [0])
  {
    var n, before := Node([], items), Node([], items[..|items| - 1]);
    if IsCpu(before) {
      var i :| 0 <= i < |before.items| && before.items[i] == Property(DEVICE_TYPE, CPU + [0]);
      assert n.items[i] == before.items[i];
    }
    if IsCpu(n) {
      var i :| 0 <= i < |items| && n.items[i] == Property(DEVICE_TYPE, CPU + [0]);
      assert i < |items| - 1 ==> before.items[i] == n.items[i];
    }
  }

  lemma CpuItemRun(strings: seq<Byte>, offsets: Offsets, i: Item, p: Place)
    requires ItemOk(i, offsets) && Indexed(strings, offsets) && InCpu(p)
    ensures var counts := !p.counted && i == Property(DEVICE_TYPE, CPU + [0]);
            Play(strings, ItemTokens(i, offsets), p) ==
              Go(p.(counted := p.counted || counts, count := p.count + if counts then 1 else 0))
  {
    match i {
      case Child(n) => InertNode(strings, offsets, n, p);
      case Property(name, value) =>
        assert StringAt(strings, offsets[name]) == name;
        RunOne(strings, Prop(offsets[name], value), p);
      case Filler => RunOne(strings, Nop, p);
    }
  }

  /** A direct child of `/cpus` adds one exactly when it is a processor. */
  lemma CpuNode(strings: seq<Byte>, offsets: Offsets, n: Node, p: Place)
    requires NodeOk(n, offsets) && Indexed(strings, offsets) && p.depth == 1 && p.cpusDepth == 1
    ensures Play(strings, Tokens(n, offsets), p) ==
              Go(p.(counted := IsCpu(n), count := p.count + if IsCpu(n) then 1 else 0))
  {
    hide IsCpu;
    var q := Apply(strings, p, Begin(n.name)).place;
    assert q == Place(2, 1, false, p.count);
    CpuItemsRun(strings, offsets, n.items, q);
    SameCpu(n);
    RunNode(strings, offsets, n, p, Play(strings, ItemsTokens(n.items, offsets), q).place);
  }

  lemma SameCpu(n: Node)
    ensures IsCpu(n) <==> IsCpu(Node([], n.items))
  {
  }

  /** The items of `/cpus`. */
  lemma {:induction false} CpusItemsRun(strings: seq<Byte>, offsets: Offsets, items: seq<Item>, p: Place)
    requires ItemsOk(items, offsets) && Indexed(strings, offsets) && p.depth == 1 && p.cpusDepth == 1
    ensures Play(strings, ItemsTokens(items, offsets), p).Go?
    ensures var q := Play(strings, ItemsTokens(items, offsets), p).place;
            q == p.(counted := q.counted, count := p.count + CpuItems(items))
    decreases |items|
  {
    hide IsCpu;
    if items != [] {
      var before, last := items[..|items| - 1], items[|items| - 1];
      CpusItemsRun(strings, offsets, before, p);
      var q := Play(strings, ItemsTokens(before, offsets), p).place;
      RunItems(strings, offsets, items, p, q);
      assert ItemOk(last, offsets);
      match last {
        case Child(n) => CpuNode(strings, offsets, n, q);
        case Property(name, value) => RunOne(strings, Prop(offsets[name], value), q);
        case Filler => RunOne(strings, Nop, q);
      }
    }
  }

  /** A child of the root. */
  lemma TopNode(strings: seq<Byte>, offsets: Offsets, n: Node, p: Place)
    requires NodeOk(n, offsets) && Indexed(strings, offsets) && p.depth == 0 && p.cpusDepth == -1
    ensures Play(strings, Tokens(n, offsets), p).Go?
    ensures var q := Play(strings, Tokens(n, offsets), p).place;
            q == p.(counted := q.counted, count := p.count + CpusIn(Child(n)))
  {
    var q := Apply(strings, p, Begin(n.name)).place;
    if n.name == CPUS {
      CpusItemsRun(strings, offsets, n.items, q);
    } else {
      QuietItems(strings, offsets, n.items, q);
    }
    RunNode(strings, offsets, n, p, Play(strings, ItemsTokens(n.items, offsets), q).place);
  }

  lemma {:induction false} RootItemsRun(strings: seq<Byte>, offsets: Offsets, items: seq<Item>, p: Place)
    requires ItemsOk(items, offsets) && Indexed(strings, offsets) && p.depth == 0 && p.cpusDepth == -1
    ensures Play(strings, ItemsTokens(items, offsets), p).Go?
    ensures var q := Play(strings, ItemsTokens(items, offsets), p).place;
            q == p.(counted := q.counted, count := p.count + CpusUnder(items))
    decreases |items|
  {
    if items != [] {
      var before, last := items[..|items| - 1], items[|items| - 1];
      RootItemsRun(strings, offsets, before, p);
      var q := Play(strings, ItemsTokens(before, offsets), p).place;
      RunItems(strings, offsets, items, p, q);
      assert ItemOk(last, offsets);
      match last {
        case Child(n) => TopNode(strings, offsets, n, q);
        case Property(name, value) => RunOne(strings, Prop(offsets[name], value), q);
        case Filler => RunOne(strings, Nop, q);
      }
    }
  }

  /** A root node, wherever the scan is outside every node. */
  lemma RootNode(strings: seq<Byte>, offsets: Offsets, root: Node, p: Place)
    requires NodeOk(root, offsets) && Indexed(strings, offsets) && p.depth == -1 && p.cpusDepth == -1
    ensures Play(strings, Tokens(root, offsets), p).Go?
    ensures var q := Play(strings, Tokens(root, offsets), p).place;
            q == p.(counted := q.counted, count := p.count + Cpus(root))
  {
    var q := Apply(strings, p, Begin(root.name)).place;
    RootItemsRun(strings, offsets, root.items, q);
    RunNode(strings, offsets, root, p, Play(strings, ItemsTokens(root.items, offsets), q).place);
  }

  /** The tokens of a whole tree count its processors and leave the scan outside every node. */
  lemma RootRun(strings: seq<Byte>, offsets: Offsets, root: Node)
    requires NodeOk(root, offsets) && Indexed(strings, offsets)
    ensures Play(strings, Tokens(root, offsets), OUTSIDE).Go?
    ensures var q := Play(strings, Tokens(root, offsets), OUTSIDE).place;
            q.depth == -1 && q.count == Cpus(root)
  {
    RootNode(strings, offsets, root, OUTSIDE);
  }

  /** The processors of a list of trees; properties and fillers between them do not matter. */
  function AllCpus(items: seq<Item>): nat {
    if items == [] then 0
    else AllCpus(items[..|items| - 1]) + var i := items[|items| - 1]; if i.Child? then Cpus(i.node) else 0
  }

  lemma {:induction false} ForestRun(strings: seq<Byte>, offsets: Offsets, items: seq<Item>, p: Place)
    requires ItemsOk(items, offsets) && Indexed(strings, offsets) && p.depth == -1 && p.cpusDepth == -1
    ensures Play(strings, ItemsTokens(items, offsets), p).Go?
    ensures var q := Play(strings, ItemsTokens(items, offsets), p).place;
            q == p.(counted := q.counted, count := p.count + AllCpus(items))
    decreases |items|
  {
    hide Cpus;
    if items != [] {
      var before, last := items[..|items| - 1], items[|items| - 1];
      ForestRun(strings, offsets, before, p);
      var q := Play(strings, ItemsTokens(before, offsets), p).place;
      RunItems(strings, offsets, items, p, q);
      assert ItemOk(last, offsets);
      match last {
        case Child(n) => RootNode(strings, offsets, n, q);
        case Property(name, value) => RunOne(strings, Prop(offsets[name], value), q);
        case Filler => RunOne(strings, Nop, q);
      }
    }
  }
}
