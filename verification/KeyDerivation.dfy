/**
 Key material in src/crypto.c: crypto_hkdf_expand (section 2.3 of RFC 5869) and crypto_derive_key. The hash
 functions are parameters that give outputs of one length.
 */
module KeyDerivation {
  import opened Bytes

  type Hash = seq<byte> -> seq<byte>
  type Hmac = (seq<byte>, seq<byte>) -> seq<byte>

  /** size times n, as a sum. */
  function Times(n: nat, size: nat): nat {
    if n == 0 then 0 else Times(n - 1, size) + size
  }

  lemma {:induction false} TimesIs(n: nat, size: nat)
    ensures Times(n, size) == n * size
  {
    if n > 0 {
      TimesIs(n - 1, size);
      assert n * size == (n - 1) * size + size;
    }
  }

  lemma {:induction false} TimesGrows(n: nat, m: nat, size: nat)
    requires n <= m
    ensures Times(n, size) <= Times(m, size)
  {
    if n < m {
      TimesGrows(n, m - 1, size);
    }
  }

  /** The blocks number 1 to n, one after another. */
  ghost function Blocks(block: nat -> seq<byte>, n: nat): seq<byte> {
    if n == 0 then [] else Blocks(block, n - 1) + block(n)
  }

  lemma {:induction false} BlocksLength(block: nat -> seq<byte>, n: nat, size: nat)
    requires forall i :: |block(i)| == size
    ensures |Blocks(block, n)| == Times(n, size)
  {
    if n > 0 {
      BlocksLength(block, n - 1, size);
    }
  }

  /** len / size, rounded up. */
  function CeilDiv(len: nat, size: nat): nat
    requires size > 0
  {
    if len == 0 then 0 else if len <= size then 1 else 1 + CeilDiv(len - size, size)
  }

  /** So many blocks of this size are the fewest that give len bytes. */
  lemma {:induction false} CeilIsFewest(len: nat, size: nat)
    requires size > 0
    ensures Times(CeilDiv(len, size), size) >= len
    ensures len > 0 ==> CeilDiv(len, size) > 0 && Times(CeilDiv(len, size) - 1, size) < len
  {
    if len > size {
      CeilIsFewest(len - size, size);
    } else if len > 0 {
      assert Times(1, size) == size;
    }
  }

  lemma FewestIsCeil(n: nat, len: nat, size: nat)
    requires size > 0 && Times(n, size) >= len && (n > 0 ==> Times(n - 1, size) < len)
    ensures n == CeilDiv(len, size)
  {
    var c := CeilDiv(len, size);
    CeilIsFewest(len, size);
    if n < c {
      TimesGrows(n, c - 1, size);
    } else if c < n {
      TimesGrows(c, n - 1, size);
    }
  }

  lemma RoundUp(len: nat, size: nat, q: nat, r: nat)
    requires size > 0 && len == q * size + r && r < size
    ensures CeilDiv(len, size) == if r != 0 then q + 1 else q
  {
    TimesIs(q, size);
    FewestIsCeil(if r != 0 then q + 1 else q, len, size);
  }

  /** The computation N = L / HashLen, plus one if there is a remainder. */
  method CountBlocks(len: nat, size: nat) returns (n: nat)
    requires size > 0
    ensures n == CeilDiv(len, size)
  {
    n := len / size;
    RoundUp(len, size, n, len % size);
    if len % size != 0 {
      n := n + 1;
    }
  }

  // ---------- HKDF-Expand ----------

  /** T(0) is empty, and T(i) = HMAC(PRK, T(i - 1) | info | i) with i as one byte. */
  function T(hmac: Hmac, prk: seq<byte>, info: seq<byte>, i: nat): seq<byte> {
    if i == 0 then [] else hmac(prk, T(hmac, prk, info, i - 1) + info + [i % 256])
  }

  ghost function TBlock(hmac: Hmac, prk: seq<byte>, info: seq<byte>): nat -> seq<byte> {
    i => T(hmac, prk, info, if i == 0 then 1 else i)
  }

  lemma TBlockSize(hmac: Hmac, size: nat, prk: seq<byte>, info: seq<byte>)
    requires forall k, m :: |hmac(k, m)| == size
    ensures forall i :: |TBlock(hmac, prk, info)(i)| == size
  {
    forall i: nat
      ensures |TBlock(hmac, prk, info)(i)| == size
    {
      var j := if i == 0 then 1 else i;
      assert TBlock(hmac, prk, info)(i) == T(hmac, prk, info, j);
      assert T(hmac, prk, info, j) == hmac(prk, T(hmac, prk, info, j - 1) + info + [j % 256]);
    }
  }

  /** The blocks of section 2.3 of RFC 5869: each is the HMAC of the one before it, the info, and its number. */
  ghost predicate HkdfBlocks(hmac: Hmac, prk: seq<byte>, info: seq<byte>, ts: seq<seq<byte>>) {
    && |ts| <= 255 && (|ts| > 0 ==> ts[0] == hmac(prk, info + [1]))
    && forall i :: 0 <= i < |ts| - 1 ==> ts[i + 1] == hmac(prk, ts[i] + info + [i + 2])
  }

  /** T and Blocks are these blocks. */
  lemma {:induction false} BlocksAreHkdf(hmac: Hmac, prk: seq<byte>, info: seq<byte>,
                                         n: nat) returns (ts: seq<seq<byte>>)
    requires n <= 255
    ensures |ts| == n && HkdfBlocks(hmac, prk, info, ts) && Flatten(ts) == Blocks(TBlock(hmac, prk, info), n)
    ensures n > 0 ==> ts[n - 1] == T(hmac, prk, info, n)
  {
    if n == 0 {
      ts := [];
    } else {
      var before := BlocksAreHkdf(hmac, prk, info, n - 1);
      var t := T(hmac, prk, info, n);
      ts := before + [t];
      assert ts[..|ts| - 1] == before && TBlock(hmac, prk, info)(n) == t;
      if n == 1 {
        assert T(hmac, prk, info, 0) + info + [1] == info + [1];
      }
    }
  }

  /** crypto_hkdf_expand: it fails exactly when the key is shorter than a hash or more than 255 blocks are asked for. */
  method HkdfExpand(hmac: Hmac, size: nat, prk: seq<byte>, info: seq<byte>, len: nat)
    returns (ok: bool, okm: seq<byte>, ghost ts: seq<seq<byte>>)
    requires size > 0 && forall k, m :: |hmac(k, m)| == size
    ensures ok <==> |prk| >= size && CeilDiv(len, size) <= 255
    ensures ok ==> |okm| == len && okm <= Flatten(ts) && HkdfBlocks(hmac, prk, info, ts) && |ts| == CeilDiv(len, size)
  {
    ok, okm, ts := false, [], [];
    var count := CountBlocks(len, size);
    CeilIsFewest(len, size);
    if |prk| < size || count > 255 {
      return;
    }
    ok := true;
    ghost var block := TBlock(hmac, prk, info);
    TBlockSize(hmac, size, prk, info);
    var t: seq<byte> := [];
    for i := 1 to count + 1
      invariant t == T(hmac, prk, info, i - 1)
      invariant i <= count ==> okm == Blocks(block, i - 1)
      invariant i == count + 1 ==> |okm| == len && okm <= Blocks(block, count)
    {
      BlocksLength(block, i - 1, size);
      TimesGrows(i - 1, count - 1, size);
      t := hmac(prk, t + info + [i]);
      assert block(i) == T(hmac, prk, info, i) == t;
      var more := Extend(okm, t, size, len, i == count);
      BlocksNext(block, i, okm, t, more);
      okm := more;
    }
    ts := BlocksAreHkdf(hmac, prk, info, count);
  }

  lemma BlocksNext(block: nat -> seq<byte>, i: nat, okm: seq<byte>, t: seq<byte>, more: seq<byte>)
    requires i > 0 && okm == Blocks(block, i - 1) && t == block(i) && more <= okm + t
    ensures more <= Blocks(block, i) && (|more| == |okm| + |t| ==> more == Blocks(block, i))
  {
  }

  /** The copy of one block, or of what is still wanted of the last one. */
  method Extend(okm: seq<byte>, t: seq<byte>, size: nat, len: nat, last: bool) returns (more: seq<byte>)
    requires |t| == size && |okm| <= len && (last ==> len - |okm| <= size)
    ensures more <= okm + t && |more| == if last then len else |okm| + size
  {
    more := okm + t[..if last then len - |okm| else size];
  }

  // ---------- the key from a password ----------

  /** D(0) is empty, and D(i) = MD5(D(i - 1) | pass). */
  function D(md5: Hash, pass: seq<byte>, i: nat): seq<byte> {
    if i == 0 then [] else md5(D(md5, pass, i - 1) + pass)
  }

  ghost function DBlock(md5: Hash, pass: seq<byte>): nat -> seq<byte> {
    i => D(md5, pass, if i == 0 then 1 else i)
  }

  lemma DBlockSize(md5: Hash, size: nat, pass: seq<byte>)
    requires forall m :: |md5(m)| == size
    ensures forall i :: |DBlock(md5, pass)(i)| == size
  {
    forall i: nat
      ensures |DBlock(md5, pass)(i)| == size
    {
      var j := if i == 0 then 1 else i;
      assert DBlock(md5, pass)(i) == D(md5, pass, j);
      assert D(md5, pass, j) == md5(D(md5, pass, j - 1) + pass);
    }
  }

  /** The blocks of the key: each is the MD5 of the one before it and the password. */
  ghost predicate KeyBlocks(md5: Hash, pass: seq<byte>, ds: seq<seq<byte>>) {
    && (|ds| > 0 ==> ds[0] == md5(pass))
    && forall i :: 0 <= i < |ds| - 1 ==> ds[i + 1] == md5(ds[i] + pass)
  }

  lemma {:induction false} BlocksAreKey(md5: Hash, pass: seq<byte>, n: nat) returns (ds: seq<seq<byte>>)
    ensures |ds| == n && KeyBlocks(md5, pass, ds) && Flatten(ds) == Blocks(DBlock(md5, pass), n)
    ensures n > 0 ==> ds[n - 1] == D(md5, pass, n)
  {
    if n == 0 {
      ds := [];
    } else {
      var before := BlocksAreKey(md5, pass, n - 1);
      var d := D(md5, pass, n);
      ds := before + [d];
      assert ds[..|ds| - 1] == before && DBlock(md5, pass)(n) == d;
      if n == 1 {
        assert D(md5, pass, 0) + pass == pass;
      }
    }
  }

  /** The inner loop of crypto_derive_key: copy a block as far as there is room. */
  method CopyBlock(key: array<byte>, j: nat, block: seq<byte>) returns (j': nat)
    requires j <= key.Length
    modifies key
    ensures j' == if j + |block| <= key.Length then j + |block| else key.Length
    ensures key[..j'] <= old(key[..j]) + block
  {
    j' := j;
    for i := 0 to |block|
      invariant j' == j + i <= key.Length
      invariant key[..j'] == old(key[..j]) + block[..i]
    {
      if j' >= key.Length {
        assert key[..j'] == old(key[..j]) + block[..i];
        return;
      }
      key[j'] := block[i];
      j' := j' + 1;
    }
  }

  /** crypto_derive_key: the key is the first bytes of D(1) | D(2) | ..., filled in place. */
  method DeriveKey(md5: Hash, size: nat, pass: seq<byte>, key: array<byte>) returns (ghost ds: seq<seq<byte>>)
    requires size > 0 && forall m :: |md5(m)| == size
    modifies key
    ensures key[..] <= Flatten(ds) && KeyBlocks(md5, pass, ds) && |ds| == CeilDiv(key.Length, size)
  {
    ghost var block := DBlock(md5, pass);
    DBlockSize(md5, size, pass);
    var j := 0;
    var d: seq<byte> := [];
    ghost var n := 0;
    while j < key.Length
      invariant j <= key.Length && d == D(md5, pass, n) && |Blocks(block, n)| == Times(n, size)
      invariant key[..j] <= Blocks(block, n) && (n > 0 ==> Times(n - 1, size) < key.Length)
      invariant j == if Times(n, size) <= key.Length then Times(n, size) else key.Length
      decreases key.Length - j
    {
      d := md5(d + pass);
      ghost var before := key[..j];
      assert before == Blocks(block, n);
      j := CopyBlock(key, j, d);
      n := n + 1;
      assert block(n) == D(md5, pass, n) == d;
      assert Blocks(block, n) == before + d;
    }
    assert key[..j] == key[..];
    FewestIsCeil(n, key.Length, size);
    ds := BlocksAreKey(md5, pass, n);
  }
}
