/** Bytes, big-endian words and the exclusive-or checksum of both binary formats' tools. */
module Bytes {
  import opened Base

  type Byte = x: int | 0 <= x < 256

  function Be32(b3: Byte, b2: Byte, b1: Byte, b0: Byte): (w: nat)
    ensures w < TWO32
  {
    b3 * 0x100_0000 + b2 * 0x1_0000 + b1 * 0x100 + b0
  }

  /** The big-endian word at byte `at`. */
  function Word(s: seq<Byte>, at: nat): (w: nat)
    requires at + 4 <= |s|
    ensures w < TWO32
  {
    Be32(s[at], s[at + 1], s[at + 2], s[at + 3])
  }

  function Half(s: seq<Byte>, at: nat): (w: nat)
    requires at + 2 <= |s|
    ensures w < 0x1_0000
  {
    var high: int := s[at];
    high * 0x100 + s[at + 1]
  }

  /** Byte `k` of a word, the most significant first. */
  function ByteOf(w: nat, k: nat): Byte
    requires k < 4
  {
    if k == 0 then w / 0x100_0000 % 256 else if k == 1 then w / 0x1_0000 % 256 else if k == 2 then w / 0x100 % 256
    else w % 256
  }

  lemma WordOfBytes(w: nat)
    requires w < TWO32
    ensures Be32(ByteOf(w, 0), ByteOf(w, 1), ByteOf(w, 2), ByteOf(w, 3)) == w
  {
    var a := w / 0x100;
    var b := a / 0x100;
    var c := b / 0x100;
    assert w == 0x100 * a + w % 0x100 && a == 0x100 * b + a % 0x100 && b == 0x100 * c + b % 0x100;
    Quarters(w);
  }

  lemma Quarters(w: nat)
    requires w < TWO32
    ensures w / 0x1_0000 == w / 0x100 / 0x100 && w / 0x100_0000 == w / 0x100 / 0x100 / 0x100 && w / 0x100_0000 < 0x100
  {
  }

  function Zeros(n: nat): (s: seq<Byte>)
    ensures |s| == n && forall i :: 0 <= i < n ==> s[i] == 0
  {
    seq(n, i => 0)
  }

  // ---------------------------------------------------------------------------------------------
  // Exclusive or

  function Xor(a: nat, b: nat): nat {
    if a == 0 && b == 0 then 0 else (a + b) % 2 + 2 * Xor(a / 2, b / 2)
  }

  function Power(n: nat): (p: nat)
    ensures p > 0
  {
    if n == 0 then 1 else 2 * Power(n - 1)
  }

  lemma {:induction false} XorBounded(a: nat, b: nat, n: nat)
    requires a < Power(n) && b < Power(n)
    ensures Xor(a, b) < Power(n)
  {
    if n > 0 {
      XorBounded(a / 2, b / 2, n - 1);
    }
  }

  lemma {:induction false} XorSelf(a: nat)
    ensures Xor(a, a) == 0
  {
    if a > 0 {
      XorSelf(a / 2);
    }
  }

  lemma {:induction false} XorZero(a: nat)
    ensures Xor(a, 0) == a
  {
    if a > 0 {
      XorZero(a / 2);
    }
  }

  lemma Power32()
    ensures Power(32) == TWO32
  {
    assert Power(8) == 256;
    assert Power(16) == 0x1_0000;
    assert Power(24) == 0x100_0000;
  }

  lemma XorWord(a: nat, b: nat)
    requires a < TWO32 && b < TWO32
    ensures Xor(a, b) < TWO32
  {
    Power32();
    XorBounded(a, b, 32);
  }

  /** The checksum of the first `n` words. */
  function Xors(s: seq<Byte>, n: nat): (x: nat)
    requires 4 * n <= |s|
  {
    if n == 0 then 0 else Xor(Xors(s, n - 1), Word(s, 4 * (n - 1)))
  }

  lemma {:induction false} XorsIsWord(s: seq<Byte>, n: nat)
    requires 4 * n <= |s|
    ensures Xors(s, n) < TWO32
  {
    if n > 0 {
      XorsIsWord(s, n - 1);
      XorWord(Xors(s, n - 1), Word(s, 4 * (n - 1)));
    }
  }

  lemma {:induction false} XorsOfSame(s: seq<Byte>, t: seq<Byte>, n: nat)
    requires 4 * n <= |s| && 4 * n <= |t| && s[..4 * n] == t[..4 * n]
    ensures Xors(s, n) == Xors(t, n)
  {
    if n > 0 {
      assert s[..4 * (n - 1)] == s[..4 * n][..4 * (n - 1)];
      assert t[..4 * (n - 1)] == t[..4 * n][..4 * (n - 1)];
      assert forall i :: 4 * (n - 1) <= i < 4 * n ==> s[i] == s[..4 * n][i] && t[i] == t[..4 * n][i];
      XorsOfSame(s, t, n - 1);
    }
  }

  /** Storing the checksum of the words in a last word that was zero makes the whole cancel. */
  lemma ChecksumCancels(s: seq<Byte>, t: seq<Byte>, n: nat)
    requires 0 < n && 4 * n == |s| == |t| && s[..4 * (n - 1)] == t[..4 * (n - 1)]
    requires Word(s, 4 * (n - 1)) == 0 && Word(t, 4 * (n - 1)) == Xors(s, n)
    ensures Xors(t, n) == 0
  {
    XorsOfSame(s, t, n - 1);
    XorZero(Xors(s, n - 1));
    XorSelf(Xors(s, n - 1));
  }
}
