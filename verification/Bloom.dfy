/**
 The bit-array Bloom filter of libbloom/bloom.c.

 The hash is a parameter; filter sizing (a floating-point computation) is given.
 */
module Bloom {
  import opened Bytes

  const SEED: u32 := 0x9747_b28c

  /** a + i*b in 32-bit unsigned arithmetic. */
  function Probe(a: u32, b: u32, i: nat): (x: u32) {
    if i == 0 then a
    else
      var x := Probe(a, b, i - 1) + b;
      if x < TWO_TO_THE_32 then x else x - TWO_TO_THE_32
  }

  lemma {:induction false} ProbeValue(a: u32, b: u32, i: nat)
    ensures (a + i * b - Probe(a, b, i)) % TWO_TO_THE_32 == 0
  {
    if i > 0 {
      ProbeValue(a, b, i - 1);
      assert i * b == (i - 1) * b + b;
    }
  }

  /** Sizes of one filter and the hash it uses. */
  datatype Params = Params(bits: nat, hashes: nat, murmur: (seq<byte>, u32) -> u32) {

    /** The i-th probe, computed in 32-bit unsigned arithmetic. */
    function Position(buffer: seq<byte>, i: nat): (x: nat)
      requires bits > 0
      ensures x < bits
    {
      var a := murmur(buffer, SEED);
      var b := murmur(buffer, a);
      Probe(a, b, i) % bits
    }

    /** One of the first n probes of buffer hits bit x. */
    ghost predicate Probed(buffer: seq<byte>, n: nat, x: nat)
      requires bits > 0
    {
      exists i :: 0 <= i < n && Position(buffer, i) == x
    }

    /** Bit x is set by this list of additions to an empty filter. */
    ghost predicate Marked(adds: seq<seq<byte>>, x: nat)
      requires bits > 0
    {
      exists k :: 0 <= k < |adds| && Probed(adds[k], hashes, x)
    }

    /** What a check of buffer answers on a filter holding exactly these additions. */
    ghost predicate Reports(adds: seq<seq<byte>>, buffer: seq<byte>)
      requires bits > 0
    {
      forall i :: 0 <= i < hashes ==> Marked(adds, Position(buffer, i))
    }
  }

  lemma MarkedAdd(p: Params, adds: seq<seq<byte>>, buffer: seq<byte>, x: nat)
    requires p.bits > 0
    ensures p.Marked(adds + [buffer], x) <==> p.Marked(adds, x) || p.Probed(buffer, p.hashes, x)
  {
    var all := adds + [buffer];
    if p.Marked(adds, x) {
      var k :| 0 <= k < |adds| && p.Probed(adds[k], p.hashes, x);
      assert p.Probed(all[k], p.hashes, x);
    }
    if p.Probed(buffer, p.hashes, x) {
      assert p.Probed(all[|adds|], p.hashes, x);
    }
  }

  /** No false negatives: whatever was added is reported. */
  lemma NoFalseNegative(p: Params, adds: seq<seq<byte>>, k: nat)
    requires p.bits > 0
    requires k < |adds|
    ensures p.Reports(adds, adds[k])
  {
    forall i | 0 <= i < p.hashes
      ensures p.Marked(adds, p.Position(adds[k], i))
    {
      assert p.Probed(adds[k], p.hashes, p.Position(adds[k], i));
    }
  }

  /** The i-th probe of a buffer, of two hashes of it. */
  function Slot(p: Params, buffer: seq<byte>, i: nat): nat
    requires p.bits > 0
  {
    var a := p.murmur(buffer, SEED);
    (a + i * p.murmur(buffer, a)) % TWO_TO_THE_32 % p.bits
  }

  /** A buffer is reported exactly if each of its probes was hit by one of an addition; so an empty filter reports
      nothing. */
  lemma ReportedExactly(p: Params, adds: seq<seq<byte>>, buffer: seq<byte>)
    requires p.bits > 0
    ensures p.Reports(adds, buffer) <==>
              forall i :: 0 <= i < p.hashes ==>
                exists k, j :: 0 <= k < |adds| && 0 <= j < p.hashes && Slot(p, adds[k], j) == Slot(p, buffer, i)
    ensures p.hashes > 0 ==> !p.Reports([], buffer)
  {
    SlotsArePositions(p);
    if p.Reports(adds, buffer) {
      forall i | 0 <= i < p.hashes
        ensures exists k, j :: 0 <= k < |adds| && 0 <= j < p.hashes && Slot(p, adds[k], j) == Slot(p, buffer, i)
      {
        assert p.Marked(adds, p.Position(buffer, i));
        var k :| 0 <= k < |adds| && p.Probed(adds[k], p.hashes, p.Position(buffer, i));
        var j :| 0 <= j < p.hashes && p.Position(adds[k], j) == p.Position(buffer, i);
      }
    }
    if forall i :: 0 <= i < p.hashes ==>
         exists k, j :: 0 <= k < |adds| && 0 <= j < p.hashes && Slot(p, adds[k], j) == Slot(p, buffer, i) {
      forall i | 0 <= i < p.hashes
        ensures p.Marked(adds, p.Position(buffer, i))
      {
        var k, j :| 0 <= k < |adds| && 0 <= j < p.hashes && Slot(p, adds[k], j) == Slot(p, buffer, i);
        assert p.Position(adds[k], j) == p.Position(buffer, i);
        assert p.Probed(adds[k], p.hashes, p.Position(buffer, i));
      }
    }
    assert !p.Marked([], p.Position(buffer, 0));
  }

  lemma SlotsArePositions(p: Params)
    requires p.bits > 0
    ensures forall b, i: nat {:trigger Slot(p, b, i)} :: Slot(p, b, i) == p.Position(b, i)
    ensures forall b, i: nat {:trigger p.Position(b, i)} :: Slot(p, b, i) == p.Position(b, i)
  {
    forall b, i: nat
      ensures Slot(p, b, i) == p.Position(b, i)
    {
      var x := p.murmur(b, SEED);
      ProbeValue(x, p.murmur(b, x), i);
      Remainder(x + i * p.murmur(b, x), Probe(x, p.murmur(b, x), i));
    }
  }

  lemma Remainder(x: int, y: u32)
    requires (x - y) % TWO_TO_THE_32 == 0
    ensures x % TWO_TO_THE_32 == y
  {
    assert x == (x - y) / TWO_TO_THE_32 * TWO_TO_THE_32 + y;
  }

  // ---------- bits inside a byte ----------

  /** A cell of the bit array. */
  type octet = bv8

  /** 1 << k */
  function Mask(k: nat): octet
    requires k < 8
  {
    match k
    case 0 => 1 case 1 => 2 case 2 => 4 case 3 => 8
    case 4 => 16 case 5 => 32 case 6 => 64 case _ => 128
  }

  predicate HasBit(c: octet, k: nat)
    requires k < 8
  {
    c & Mask(k) != 0
  }

  lemma SetBit(c: octet, k: nat, j: nat)
    requires k < 8 && j < 8
    ensures HasBit(c | Mask(k), j) <==> j == k || HasBit(c, j)
  {
    assert (c | Mask(k)) & Mask(j) == (c & Mask(j)) | (Mask(k) & Mask(j));
  }

  /** Bit x of a byte array. */
  predicate BitAt(bf: seq<octet>, x: nat)
    requires x / 8 < |bf|
  {
    HasBit(bf[x / 8], x % 8)
  }

  lemma SetBitAt(before: seq<octet>, after: seq<octet>, x: nat)
    requires x / 8 < |before|
    requires after == before[x / 8 := before[x / 8] | Mask(x % 8)]
    ensures forall y: nat :: y / 8 < |before| ==> (BitAt(after, y) <==> BitAt(before, y) || y == x)
  {
    forall y: nat | y / 8 < |before|
      ensures BitAt(after, y) <==> BitAt(before, y) || y == x
    {
      if y / 8 == x / 8 {
        SetBit(before[x / 8], x % 8, y % 8);
      }
    }
  }

  class Filter {
    const params: Params
    var ready: bool
    const bf: array<octet>
    /** The buffers added since the filter was last empty. */
    ghost var adds: seq<seq<byte>>

    ghost predicate Sized()
      reads this
    {
      params.bits > 0 && bf.Length == (params.bits + 7) / 8
    }

    ghost predicate On(x: nat)
      requires Sized() && x < params.bits
      reads this, bf
    {
      BitAt(bf[..], x)
    }

    /** The bits on are exactly those marked by the additions. */
    ghost predicate Valid()
      reads this, bf
    {
      Sized() && forall x: nat :: x < params.bits ==> (On(x) <==> params.Marked(adds, x))
    }

    /** bloom_init, after the sizes have been chosen. */
    constructor (p: Params)
      requires p.bits > 0
      ensures Valid() && fresh(bf) && ready && params == p && adds == []
    {
      params := p;
      ready := true;
      bf := new octet[(p.bits + 7) / 8](_ => 0);
      adds := [];
    }

    /** test_bit_set_bit */
    method TestBitSetBit(x: nat, setBit: bool) returns (hit: bool)
      requires Sized() && x < params.bits
      modifies bf
      ensures hit == old(On(x))
      ensures forall y: nat :: y < params.bits ==> (On(y) <==> old(On(y)) || (setBit && y == x))
    {
      var c := bf[x / 8];
      hit := HasBit(c, x % 8);
      if !hit && setBit {
        bf[x / 8] := c | Mask(x % 8);
        SetBitAt(old(bf[..]), bf[..], x);
      }
    }

    /** bloom_check_add; the answer is -1 on a filter that is not ready. */
    method CheckAdd(buffer: seq<byte>, add: bool) returns (r: int)
      requires Sized()
      modifies bf
      ensures !ready ==> r == -1
      ensures ready ==> r == 0 || r == 1
      ensures ready ==> (r == 1 <==> forall i :: 0 <= i < params.hashes ==> old(On(params.Position(buffer, i))))
      ensures forall x: nat :: x < params.bits ==>
                (On(x) <==> old(On(x)) || (ready && add && params.Probed(buffer, params.hashes, x)))
    {
      if !ready {
        return -1;
      }
      var hits := 0;
      for i := 0 to params.hashes
        invariant 0 <= hits <= i
        invariant hits == i <==> forall j :: 0 <= j < i ==> old(On(params.Position(buffer, j)))
        invariant !add ==> hits == i
        invariant forall x: nat :: x < params.bits ==>
                    (On(x) <==> old(On(x)) || (add && params.Probed(buffer, i, x)))
      {
        var x := params.Position(buffer, i);
        assert params.Probed(buffer, i + 1, x);
        var hit := TestBitSetBit(x, add);
        if hit {
          hits := hits + 1;
        } else if !add {
          return 0;
        }
      }
      r := if hits == params.hashes then 1 else 0;
    }

    /** bloom_check */
    method Check(buffer: seq<byte>) returns (r: int)
      requires Valid()
      modifies bf
      ensures Valid()
      ensures r == if !ready then -1 else if params.Reports(adds, buffer) then 1 else 0
    {
      r := CheckAdd(buffer, false);
    }

    /** bloom_add: answers exactly what bloom_check would have answered just before. */
    method Add(buffer: seq<byte>) returns (r: int)
      requires Valid()
      modifies bf, `adds
      ensures Valid()
      ensures r == if !ready then -1 else if params.Reports(old(adds), buffer) then 1 else 0
      ensures adds == if ready then old(adds) + [buffer] else old(adds)
    {
      r := CheckAdd(buffer, true);
      if ready {
        adds := adds + [buffer];
        forall x: nat | x < params.bits
          ensures On(x) <==> params.Marked(adds, x)
        {
          MarkedAdd(params, old(adds), buffer, x);
        }
      }
    }

    /** bloom_reset */
    method Reset() returns (r: int)
      requires Valid()
      modifies bf, `adds
      ensures Valid()
      ensures r == if ready then 0 else 1
      ensures adds == if ready then [] else old(adds)
    {
      if !ready {
        return 1;
      }
      forall k | 0 <= k < bf.Length {
        bf[k] := 0;
      }
      adds := [];
      r := 0;
    }
  }
}
