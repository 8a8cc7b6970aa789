/** The flattened devicetree scan that counts processors. */
module FdtScan {
  import opened Base
  import opened Bytes

  const FDT_MAGIC: nat := 0xd00dfeed
  const BEGIN_NODE: nat := 1
  const END_NODE: nat := 2
  const PROP: nat := 3
  const NOP: nat := 4
  const END: nat := 9
  const HEADER: nat := 40

  /** "cpus", "device_type" and "cpu". */
  const CPUS: seq<Byte> := [0x63, 0x70, 0x75, 0x73]
  const DEVICE_TYPE: seq<Byte> := [0x64, 0x65, 0x76, 0x69, 0x63, 0x65, 0x5f, 0x74, 0x79, 0x70, 0x65]
  const CPU: seq<Byte> := [0x63, 0x70, 0x75]

  datatype Count = Count(count: nat, valid: bool)

  /** What the structure block holds at the cursor. */
  datatype Token = Begin(name: seq<Byte>) | End | Prop(nameOffset: nat, value: seq<Byte>) | Nop | Stop

  /** The loop's variables, without the cursor. */
  datatype Place = Place(depth: int, cpusDepth: int, counted: bool, count: nat)

  const OUTSIDE: Place := Place(-1, -1, false, 0)

  datatype Effect = Go(place: Place) | Finish(valid: bool)

  // ---------------------------------------------------------------------------------------------
  // Strings

  /** Where the first zero byte from `at` on is. */
  function Terminator(s: seq<Byte>, at: nat): (n: nat)
    requires at <= |s|
    ensures at <= n <= |s| && (forall i :: at <= i < n ==> s[i] != 0) && (n < |s| ==> s[n] == 0)
    decreases |s| - at
  {
    if at == |s| || s[at] == 0 then at else Terminator(s, at + 1)
  }

  predicate HasString(s: seq<Byte>, at: nat) { at < |s| && Terminator(s, at) < |s| }

  /** The zero-terminated string at `at`. */
  function StringAt(s: seq<Byte>, at: nat): seq<Byte>
    requires HasString(s, at)
  {
    s[at..Terminator(s, at)]
  }

  predicate NulFree(s: seq<Byte>) { forall i :: 0 <= i < |s| ==> s[i] != 0 }

  function Align4(n: nat): (a: nat)
    ensures n <= a < n + 4 && a % 4 == 0
  {
    n + (4 - n % 4) % 4
  }

  // ---------------------------------------------------------------------------------------------
  // The specification of the loop

  /** The token at the cursor, and the cursor after it, before alignment; nothing when the block is malformed. */
  function Decode(s: seq<Byte>, cursor: nat): (r: (bool, Token, nat))
    requires cursor + 4 <= |s|
    ensures r.0 ==> cursor + 4 <= r.2 <= |s|
  {
    var bad := (false, Nop, 0);
    var at := cursor + 4;
    match Word(s, cursor)
    case 1 => if Terminator(s, at) == |s| then bad else (true, Begin(s[at..Terminator(s, at)]), Terminator(s, at) + 1)
    case 2 => (true, End, at)
    case 3 =>
      if |s| - at < 8 || Word(s, at) > |s| - at - 8 then bad
      else (true, Prop(Word(s, at + 4), s[at + 8..at + 8 + Word(s, at)]), at + 8 + Word(s, at))
    case 4 => (true, Nop, at)
    case 9 => (true, Stop, at)
    case _ => bad
  }

  /** A property of a direct child of `/cpus` that says it is a processor. */
  predicate SaysCpu(strings: seq<Byte>, t: Token)
    requires t.Prop? && HasString(strings, t.nameOffset)
  {
    StringAt(strings, t.nameOffset) == DEVICE_TYPE && t.value == CPU + [0]
  }

  function Apply(strings: seq<Byte>, p: Place, t: Token): Effect {
    match t
    case Begin(name) =>
      var depth := p.depth + 1;
      var cpus := if depth == 1 && name == CPUS then 1 else p.cpusDepth;
      Go(Place(depth, cpus, p.counted && !(cpus >= 0 && depth == cpus + 1), p.count))
    case End =>
      if p.depth < 0 then Finish(false)
      else Go(p.(depth := p.depth - 1, cpusDepth := if p.depth == p.cpusDepth then -1 else p.cpusDepth))
    case Prop(offset, value) =>
      if !HasString(strings, offset) then Finish(false)
      else if p.cpusDepth >= 0 && p.depth == p.cpusDepth + 1 && !p.counted && SaysCpu(strings, t) then
        Go(p.(counted := true, count := p.count + 1))
      else Go(p)
    case Nop => Go(p)
    case Stop => Finish(p.depth == -1)
  }

  function Scan(s: seq<Byte>, strings: seq<Byte>, cursor: nat, p: Place): Count
    decreases |s| - cursor
  {
    if cursor + 4 > |s| then Count(p.count, false) else
    var (ok, t, next) := Decode(s, cursor);
    if !ok then Count(p.count, false) else
    match Apply(strings, p, t)
    case Finish(valid) => Count(p.count, valid)
    case Go(q) => if Align4(next) > |s| then Count(q.count, false) else Scan(s, strings, Align4(next), q)
  }

  /** The blocks that a header names lie inside the blob. */
  predicate HeaderOk(blob: seq<Byte>)
    requires |blob| >= HEADER
  {
    && Word(blob, 0) == FDT_MAGIC && Word(blob, 4) >= HEADER
    && Word(blob, 8) <= Word(blob, 4) && Word(blob, 36) <= Word(blob, 4) - Word(blob, 8)
    && Word(blob, 12) <= Word(blob, 4) && Word(blob, 32) <= Word(blob, 4) - Word(blob, 12)
  }

  function Structure(blob: seq<Byte>): seq<Byte>
    requires |blob| >= HEADER && HeaderOk(blob) && Word(blob, 4) <= |blob|
  {
    blob[Word(blob, 8)..Word(blob, 8) + Word(blob, 36)]
  }

  function Strings(blob: seq<Byte>): seq<Byte>
    requires |blob| >= HEADER && HeaderOk(blob) && Word(blob, 4) <= |blob|
  {
    blob[Word(blob, 12)..Word(blob, 12) + Word(blob, 32)]
  }

  // ---------------------------------------------------------------------------------------------
  // The code

  method StringEquals(s: seq<Byte>, at: nat, expected: seq<Byte>) returns (same: bool)
    requires HasString(s, at) && NulFree(expected)
    ensures same <==> StringAt(s, at) == expected
  {
    ghost var text := StringAt(s, at);
    var k := 0;
    while true
      invariant 0 <= k <= |text| && k <= |expected| && text[..k] == expected[..k]
      decreases |text| - k
    {
      var right := if k < |expected| then expected[k] else 0;
      assert s[at + k] == if k < |text| then text[k] else 0;
      if s[at + k] != right {
        return false;
      }
      if s[at + k] == 0 {
        return true;
      }
      k := k + 1;
    }
  }

  /** `string_at`: the offset has a terminated string. */
  method FindString(strings: seq<Byte>, offset: nat) returns (found: bool)
    ensures found <==> HasString(strings, offset)
  {
    if offset >= |strings| {
      return false;
    }
    var index := offset;
    while index < |strings|
      invariant offset <= index <= |strings| && forall i :: offset <= i < index ==> strings[i] != 0
    {
      if strings[index] == 0 {
        return true;
      }
      index := index + 1;
    }
    found := false;
  }

  method PropertyStringEquals(value: seq<Byte>, expected: seq<Byte>) returns (same: bool)
    requires NulFree(expected)
    ensures same <==> value == expected + [0]
  {
    var index := 0;
    while index < |expected|
      invariant 0 <= index <= |expected| && index <= |value| && value[..index] == expected[..index]
    {
      if index >= |value| {
        return false;
      }
      if value[index] != expected[index] {
        assert (expected + [0])[index] == expected[index];
        return false;
      }
      index := index + 1;
    }
    if index >= |value| || value[index] != 0 {
      assert |value| > index ==> (expected + [0])[index] == 0;
      return false;
    }
    same := |value| == index + 1;
    assert same ==> value == value[..index] + [0];
  }

  /** `align4`; `a` is meaningful only when it succeeds. */
  method AlignCursor(value: nat, limit: nat) returns (ok: bool, a: nat)
    ensures ok <==> Align4(value) <= limit
    ensures ok ==> a == Align4(value)
  {
    if value > limit {
      return false, 0;
    }
    var padding := (4 - value % 4) % 4;
    if padding > limit - value {
      return false, 0;
    }
    return true, value + padding;
  }

  /** The body of a `BEGIN_NODE` token: the end of the name, and the new place. */
  method EnterNode(s: seq<Byte>, strings: seq<Byte>, cursor: nat, p: Place) returns (ok: bool, next: nat, q: Place)
    requires 4 <= cursor <= |s| && Word(s, cursor - 4) == BEGIN_NODE
    ensures ok == Decode(s, cursor - 4).0
    ensures ok ==> next == Decode(s, cursor - 4).2 && Apply(strings, p, Decode(s, cursor - 4).1) == Go(q)
  {
    var at := cursor;
    while at < |s| && s[at] != 0
      invariant cursor <= at <= |s| && forall i :: cursor <= i < at ==> s[i] != 0
    {
      at := at + 1;
    }
    if at >= |s| {
      return false, 0, p;
    }
    assert Terminator(s, cursor) == at;
    var depth, cpusDepth, counted := p.depth + 1, p.cpusDepth, p.counted;
    if depth == 1 {
      var same := StringEquals(s, cursor, CPUS);
      if same {
        cpusDepth := depth;
      }
    }
    if cpusDepth >= 0 && depth == cpusDepth + 1 {
      counted := false;
    }
    return true, at + 1, Place(depth, cpusDepth, counted, p.count);
  }

  /** The body of a `PROP` token. */
  method ReadProperty(s: seq<Byte>, strings: seq<Byte>, cursor: nat, p: Place) returns (ok: bool, next: nat, q: Place)
    requires 4 <= cursor <= |s| && Word(s, cursor - 4) == PROP
    ensures ok <==> Decode(s, cursor - 4).0 && Apply(strings, p, Decode(s, cursor - 4).1).Go?
    ensures ok ==> next == Decode(s, cursor - 4).2 && Apply(strings, p, Decode(s, cursor - 4).1) == Go(q)
  {
    if |s| - cursor < 8 {
      return false, 0, p;
    }
    var length, nameOffset := Word(s, cursor), Word(s, cursor + 4);
    if length > |s| - (cursor + 8) {
      return false, 0, p;
    }
    var value := s[cursor + 8..cursor + 8 + length];
    var found := FindString(strings, nameOffset);
    if !found {
      return false, 0, p;
    }
    q := p;
    if p.cpusDepth >= 0 && p.depth == p.cpusDepth + 1 && !p.counted {
      var named := StringEquals(strings, nameOffset, DEVICE_TYPE);
      var cpu := PropertyStringEquals(value, CPU);
      if named && cpu {
        q := p.(counted := true, count := p.count + 1);
      }
    }
    return true, cursor + 8 + length, q;
  }

  /** One turn of the loop: the cursor and place after the token, or the end of the scan. */
  method Turn(s: seq<Byte>, strings: seq<Byte>, cursor: nat,
              p: Place) returns (done: bool, r: Count, next: nat, q: Place)
    requires cursor + 4 <= |s| && cursor % 4 == 0
    ensures done ==> Scan(s, strings, cursor, p) == r && r.count <= p.count + 1
    ensures !done ==>
              next == Align4(Decode(s, cursor).2) <= |s| && Scan(s, strings, cursor, p) == Scan(s, strings, next, q)
    ensures !done ==> Decode(s, cursor).0 && Apply(strings, p, Decode(s, cursor).1) == Go(q)
  {
    var token, at := Word(s, cursor), cursor + 4;
    r, next, q := Count(p.count, false), at, p;
    var ok := true;
    if token == BEGIN_NODE {
      ok, next, q := EnterNode(s, strings, at, p);
    } else if token == END_NODE {
      if p.depth < 0 {
        return true, r, at, p;
      }
      q := p.(depth := p.depth - 1, cpusDepth := if p.depth == p.cpusDepth then -1 else p.cpusDepth);
    } else if token == PROP {
      ok, next, q := ReadProperty(s, strings, at, p);
    } else if token == END {
      return true, Count(p.count, p.depth == -1), at, p;
    } else if token != NOP {
      return true, r, at, p;
    }
    if !ok {
      return true, r, at, p;
    }
    if token == BEGIN_NODE || token == PROP {
      var fits, aligned := AlignCursor(next, |s|);
      if !fits {
        return true, Count(q.count, false), at, p;
      }
      next := aligned;
    }
    return false, r, next, q;
  }

  /** The depth and the count stay within what the cursor has passed, so the code's 32-bit counters never wrap. */
  predicate Bounded(cursor: nat, p: Place) {
    -1 <= p.depth && 8 * (p.depth + 1) <= cursor && 12 * p.count <= cursor
  }

  lemma TurnIsBounded(s: seq<Byte>, strings: seq<Byte>, cursor: nat, p: Place)
    requires cursor + 4 <= |s| && cursor % 4 == 0 && Bounded(cursor, p)
    requires Decode(s, cursor).0 && Apply(strings, p, Decode(s, cursor).1).Go?
    ensures Bounded(Align4(Decode(s, cursor).2), Apply(strings, p, Decode(s, cursor).1).place)
  {
  }

  /** What the scan of a blob returns. */
  function CountOf(blob: seq<Byte>): Count
    requires |blob| >= HEADER && (HeaderOk(blob) ==> Word(blob, 4) <= |blob|)
  {
    if HeaderOk(blob) then Scan(Structure(blob), Strings(blob), 0, OUTSIDE) else Count(0, false)
  }

  // ---------------------------------------------------------------------------------------------
  // Blocks so large that the 32-bit cursor could wrap

  lemma MagicBytes(b3: Byte, b2: Byte, b1: Byte, b0: Byte)
    requires Be32(b3, b2, b1, b0) == FDT_MAGIC
    ensures b3 == 0xd0 && b2 == 0x0d && b1 == 0xfe && b0 == 0xed
  {
  }

  lemma LargeBytes(b3: Byte, b2: Byte, b1: Byte, b0: Byte)
    requires Be32(b3, b2, b1, b0) >= TWO32 - 4
    ensures b3 == 0xff && b2 == 0xff && b1 == 0xff
  {
  }

  /**
   * A structure block of 2^32 - 4 bytes or more leaves no room for an offset above 3, so it begins inside the
   * header's magic, and no token looks like that.
   */
  lemma LargeBlockStops(blob: seq<Byte>)
    requires |blob| >= HEADER && HeaderOk(blob) && Word(blob, 4) <= |blob| && Word(blob, 36) >= TWO32 - 4
    ensures !Decode(Structure(blob), 0).0
  {
    var s, at := Structure(blob), Word(blob, 8);
    assert at <= 3 && Word(blob, 4) >= TWO32 - 4;
    MagicBytes(blob[0], blob[1], blob[2], blob[3]);
    LargeBytes(blob[4], blob[5], blob[6], blob[7]);
    assert s[0] == blob[at] && s[1] == blob[at + 1] && s[2] == blob[at + 2] && s[3] == blob[at + 3];
    assert s[0] != 0;
  }

  /**
   * `cpu_count` for the memory at a devicetree address, which is as long as its header says. Whatever it holds, the
   * scan reads nothing outside the header, the structure block and the strings block, and it terminates.
   */
  method CpuCount(address: nat, blob: seq<Byte>) returns (r: Count)
    requires |blob| >= HEADER && (HeaderOk(blob) ==> Word(blob, 4) <= |blob|)
    ensures r == if address == 0 then Count(0, false) else CountOf(blob)
    ensures r.count < TWO32
  {
    r := Count(0, false);
    if address == 0 || Word(blob, 0) != FDT_MAGIC || Word(blob, 4) < HEADER {
      return;
    }
    if Word(blob, 8) > Word(blob, 4) || Word(blob, 36) > Word(blob, 4) - Word(blob, 8) {
      return;
    }
    if Word(blob, 12) > Word(blob, 4) || Word(blob, 32) > Word(blob, 4) - Word(blob, 12) {
      return;
    }
    var s, strings := Structure(blob), Strings(blob);
    if |s| >= TWO32 - 4 {
      LargeBlockStops(blob);
    }
    r := Loop(s, strings);
  }

  /** The loop, with its 32-bit guard. */
  method Loop(s: seq<Byte>, strings: seq<Byte>) returns (r: Count)
    requires |s| < TWO32 && (|s| >= TWO32 - 4 ==> !Decode(s, 0).0)
    ensures r == Scan(s, strings, 0, OUTSIDE) && r.count < TWO32
  {
    hide Decode, Apply;
    var cursor, p := 0, OUTSIDE;
    while (cursor + 4) % TWO32 <= |s|
      invariant cursor <= |s| && cursor % 4 == 0 && Bounded(cursor, p) && p.depth < 0x8000_0000
      invariant |s| >= TWO32 - 4 ==> cursor == 0
      invariant Scan(s, strings, 0, OUTSIDE) == Scan(s, strings, cursor, p)
      decreases |s| - cursor
    {
      var done, result, next, q := Turn(s, strings, cursor, p);
      if done {
        return result;
      }
      TurnIsBounded(s, strings, cursor, p);
      cursor, p := next, q;
    }
    r := Count(p.count, false);
  }
}
