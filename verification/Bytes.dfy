/**
 Machine bytes and the few byte-level operations shared by the codecs.
 */
module Bytes {

  type byte = x: int | 0 <= x < 256

  type u32 = x: int | 0 <= x < 0x1_0000_0000

  datatype Option<T> = None | Some(value: T)

  const TWO_TO_THE_16: int := 0x1_0000
  const TWO_TO_THE_32: int := 0x1_0000_0000

  function Pow2(k: nat): (p: nat)
    ensures p > 0
  {
    if k == 0 then 1 else 2 * Pow2(k - 1)
  }

  function Min(a: nat, b: nat): nat {
    if a <= b then a else b
  }

  function Zeros(n: nat): (z: seq<byte>)
    ensures |z| == n
  {
    seq(n, _ => 0)
  }

  /** A list without its i-th element. */
  function Drop<T>(s: seq<T>, i: nat): seq<T>
    requires i < |s|
  {
    s[..i] + s[i + 1..]
  }

  /** Exclusive or of the low k bits. */
  function XorBits(a: nat, b: nat, k: nat): (r: nat) {
    if k == 0 then 0
    else 2 * XorBits(a / 2, b / 2, k - 1) + if a % 2 == b % 2 then 0 else 1
  }

  lemma {:induction false} XorBitsTwice(a: nat, b: nat, k: nat)
    requires a < Pow2(k)
    ensures XorBits(XorBits(a, b, k), b, k) == a
  {
    if k > 0 {
      XorBitsTwice(a / 2, b / 2, k - 1);
    }
  }

  lemma {:induction false} XorBound(a: nat, b: nat, k: nat)
    ensures XorBits(a, b, k) < Pow2(k)
  {
    if k > 0 {
      XorBound(a / 2, b / 2, k - 1);
    }
  }

  lemma XorRange(a: byte, b: byte)
    ensures Pow2(8) == 256 && XorBits(a, b, 8) < 256
  {
    XorBound(a, b, 8);
    assert Pow2(2) == 4;
    assert Pow2(4) == 16;
    assert Pow2(6) == 64;
  }

  /** The byte operator ^. */
  function Xor(a: byte, b: byte): (r: byte) {
    XorRange(a, b);
    XorBits(a, b, 8)
  }

  /** The k-th bit. */
  function Bit(a: nat, k: nat): nat {
    if k == 0 then a % 2 else Bit(a / 2, k - 1)
  }

  lemma {:induction false} XorBitsAt(a: nat, b: nat, n: nat, k: nat)
    requires k < n
    ensures Bit(XorBits(a, b, n), k) == (Bit(a, k) + Bit(b, k)) % 2
  {
    if k > 0 {
      XorBitsAt(a / 2, b / 2, n - 1, k - 1);
    }
  }

  /** Every bit of the result is the sum of the two bits without carry. */
  lemma XorIsBitwise(a: byte, b: byte, k: nat)
    requires k < 8
    ensures Bit(Xor(a, b), k) == (Bit(a, k) + Bit(b, k)) % 2
  {
    XorRange(a, b);
    XorBitsAt(a, b, 8, k);
  }

  lemma XorTwice(a: byte, b: byte)
    ensures Xor(Xor(a, b), b) == a
  {
    XorRange(a, b);
    XorBitsTwice(a, b, 8);
  }

  /** Network-order load of a 16-bit quantity (load16_be). */
  function Load16Be(s: seq<byte>): (n: nat)
    requires |s| == 2
    ensures n < TWO_TO_THE_16
  {
    s[0] as int * 256 + s[1] as int
  }

  /** Network-order store of a 16-bit quantity (htons followed by a copy). */
  function Store16Be(n: nat): (s: seq<byte>)
    requires n < TWO_TO_THE_16
    ensures |s| == 2 && Load16Be(s) == n
  {
    [n / 256, n % 256]
  }

  /** Concatenation of a list of fragments, in order. */
  function Flatten<T>(parts: seq<seq<T>>): (s: seq<T>) {
    if parts == [] then [] else Flatten(parts[..|parts| - 1]) + parts[|parts| - 1]
  }

  lemma {:induction false} FlattenCons<T>(head: seq<T>, tail: seq<seq<T>>)
    ensures Flatten([head] + tail) == head + Flatten(tail)
  {
    if tail == [] {
      assert [head] + tail == [head];
      assert [head][..0] == [];
    } else {
      var whole := [head] + tail;
      assert whole[..|whole| - 1] == [head] + tail[..|tail| - 1];
      FlattenCons(head, tail[..|tail| - 1]);
    }
  }

  /** A prefix of a + b that reaches past a. */
  lemma PrefixOfConcat<T>(s: seq<T>, a: seq<T>, b: seq<T>)
    requires s <= a + b && |a| <= |s|
    ensures s[..|a|] == a && s[|a|..] <= b && s == a + s[|a|..]
  {
    assert s == (a + b)[..|s|];
  }
}
