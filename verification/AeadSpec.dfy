/**
 The SIP004/SIP007 chunk stream, stated without buffers: what one chunk is, what a whole
 byte string decodes to, and what a receiver fed fragment by fragment does.
 */
module AeadSpec {
  import opened Bytes

  const CHUNK_SIZE_LEN := 2
  const CHUNK_SIZE_MASK := 0x3FFF

  /** An AEAD method: its sizes, the per-session key derivation, and the primitive itself.
      Nonces count modulo nonceSpace. */
  datatype Cipher = Cipher(
    saltLen: nat,
    tagLen: nat,
    nonceSpace: nat,
    subkey: seq<byte> -> seq<byte>,
    enc: (seq<byte>, nat, seq<byte>) -> seq<byte>,
    dec: (seq<byte>, nat, seq<byte>) -> Option<seq<byte>>)
  {
    /** The laws assumed of the primitive. */
    ghost predicate Lawful() {
      && nonceSpace > 0
      && (forall k, n, m {:trigger enc(k, n, m)} ::
            |enc(k, n, m)| == |m| + tagLen && dec(k, n, enc(k, n, m)) == Some(m))
      && (forall k, n, s {:trigger dec(k, n, s)} ::
            dec(k, n, s).Some? ==> |s| == |dec(k, n, s).value| + tagLen)
    }

    /** sodium_increment */
    function Inc(n: nat): (n': nat) {
      if n + 1 < nonceSpace then n + 1 else 0
    }

    /** Bytes of a chunk around its payload. */
    function Overhead(): nat {
      2 * tagLen + CHUNK_SIZE_LEN
    }
  }

  /** The laws can be met, if only by a cipher that hides nothing: it appends a tag of zeros and takes it off again. */
  lemma LawfulExists()
    ensures exists c: Cipher :: c.Lawful()
  {
    var tag: seq<byte> := [0, 0, 0, 0];
    var c := Cipher(32, 4, 256, salt => salt, (k, n, m) => m + tag,
                    (k, n, s) => if |s| >= 4 then Some(s[..|s| - 4]) else None);
    forall k: seq<byte>, n: nat, m: seq<byte>
      ensures |c.enc(k, n, m)| == |m| + c.tagLen && c.dec(k, n, c.enc(k, n, m)) == Some(m)
    {
      assert (m + tag)[..|m|] == m;
    }
    assert c.Lawful();
  }

  // ---------- sending ----------

  /** A payload that fits one chunk. */
  predicate Fits(p: seq<byte>) {
    1 <= |p| <= CHUNK_SIZE_MASK
  }

  predicate AllFit(ps: seq<seq<byte>>) {
    forall i :: 0 <= i < |ps| ==> Fits(ps[i])
  }

  /** [encrypted length][length tag][encrypted payload][payload tag] */
  function EncodeChunk(c: Cipher, key: seq<byte>, n: nat, p: seq<byte>): seq<byte>
    requires |p| <= CHUNK_SIZE_MASK
  {
    c.enc(key, n, Store16Be(|p|)) + c.enc(key, c.Inc(n), p)
  }

  /** The layout of SIP004, in plain bytes: under the nonce n the length, its high byte first, and under the next
      nonce the payload, each followed by its tag. */
  lemma ChunkLayout(c: Cipher, key: seq<byte>, n: nat, p: seq<byte>)
    requires c.Lawful() && Fits(p) && n < c.nonceSpace
    ensures var s := EncodeChunk(c, key, n, p);
            && |s| == 2 + c.tagLen + |p| + c.tagLen
            && c.dec(key, n, s[..2 + c.tagLen]) == Some([|p| / 256, |p| % 256])
            && c.dec(key, (n + 1) % c.nonceSpace, s[2 + c.tagLen..]) == Some(p)
  {
    var size: seq<byte> := [|p| / 256, |p| % 256];
    var s := EncodeChunk(c, key, n, p);
    assert s[..2 + c.tagLen] == c.enc(key, n, size);
    assert s[2 + c.tagLen..] == c.enc(key, (n + 1) % c.nonceSpace, p);
  }

  /** Consecutive chunks, two nonces each. */
  function EncodeChunks(c: Cipher, key: seq<byte>, n: nat, ps: seq<seq<byte>>): seq<byte>
    requires AllFit(ps)
    decreases |ps|
  {
    if ps == [] then []
    else EncodeChunk(c, key, n, ps[0]) + EncodeChunks(c, key, c.Inc(c.Inc(n)), ps[1..])
  }

  // ---------- receiving ----------

  datatype ChunkResult = More | Bad | Chunk(payload: seq<byte>, consumed: nat)

  /** What the bytes at hand say about the next chunk. */
  function ParseChunk(c: Cipher, key: seq<byte>, n: nat, s: seq<byte>): (r: ChunkResult)
    requires c.Lawful()
    ensures r.Chunk? ==> 0 < |r.payload| && r.consumed == c.Overhead() + |r.payload| <= |s|
  {
    if |s| <= c.Overhead() then More
    else
      var header := c.dec(key, n, s[..CHUNK_SIZE_LEN + c.tagLen]);
      if header.None? then Bad
      else
        var mlen := Load16Be(header.value) % (CHUNK_SIZE_MASK + 1);
        if mlen == 0 then Bad
        else if |s| < c.Overhead() + mlen then More
        else
          var payload := c.dec(key, c.Inc(n), s[CHUNK_SIZE_LEN + c.tagLen..c.Overhead() + mlen]);
          if payload.None? then Bad else Chunk(payload.value, c.Overhead() + mlen)
  }

  /** Conversely, what is taken for a chunk has this layout; of the length the low fourteen bits count. */
  lemma ChunkRead(c: Cipher, key: seq<byte>, n: nat, s: seq<byte>)
    requires c.Lawful() && n < c.nonceSpace && ParseChunk(c, key, n, s).Chunk?
    ensures var r := ParseChunk(c, key, n, s);
            var head := c.dec(key, n, s[..2 + c.tagLen]);
            && head.Some? && |head.value| == 2
            && |r.payload| == (256 * (head.value[0] as int) + head.value[1]) % 16384 > 0
            && r.consumed == 2 + c.tagLen + |r.payload| + c.tagLen
            && c.dec(key, (n + 1) % c.nonceSpace, s[2 + c.tagLen..r.consumed]) == Some(r.payload)
  {
    assert c.Inc(n) == (n + 1) % c.nonceSpace by {
      NextNonce(c, n);
    }
    var head := c.dec(key, n, s[..2 + c.tagLen]);
    assert |head.value| == 2;
    var mlen := Load16Be(head.value) % (CHUNK_SIZE_MASK + 1);
    assert c.dec(key, c.Inc(n), s[2 + c.tagLen..c.Overhead() + mlen]).Some?;
  }

  /** The length that a chunk says it has, if its tag is right and its bytes are there. */
  function SizeOf(c: Cipher, key: seq<byte>, n: nat, s: seq<byte>): Option<nat>
    requires c.Lawful()
  {
    if |s| <= 2 + c.tagLen + c.tagLen then None
    else
      match c.dec(key, n, s[..2 + c.tagLen])
      case None => None
      case Some(b) => Some((256 * (b[0] as int) + b[1]) % 16384)
  }

  /** A chunk is refused exactly if it is long enough to be looked at and its length has a wrong tag or is zero, or all
      of its payload is there and has a wrong tag. It is waited on as long as it is not complete. */
  lemma BadExactly(c: Cipher, key: seq<byte>, n: nat, s: seq<byte>)
    requires c.Lawful() && n < c.nonceSpace
    ensures var size, over := SizeOf(c, key, n, s), 2 + c.tagLen + c.tagLen;
            && (ParseChunk(c, key, n, s).Bad? <==>
              |s| > over && (size.None? || size == Some(0) ||
                             (|s| >= over + size.value &&
                              c.dec(key, (n + 1) % c.nonceSpace, s[2 + c.tagLen..over + size.value]).None?)))
            && (ParseChunk(c, key, n, s).More? <==>
              |s| <= over || (size.Some? && size != Some(0) && |s| < over + size.value))
  {
    NextNonce(c, n);
  }

  lemma NextNonce(c: Cipher, n: nat)
    requires n < c.nonceSpace
    ensures c.Inc(n) == (n + 1) % c.nonceSpace
  {
  }

  /** Outcome of decoding a byte string: the payload of every whole chunk up to the first bad one,
      the bytes after them, and the nonce reached. */
  datatype Parsed = Parsed(output: seq<byte>, rest: seq<byte>, nonce: nat, good: bool) {
    function Prepend(p: seq<byte>): Parsed {
      this.(output := p + output)
    }
  }

  function Parse(c: Cipher, key: seq<byte>, n: nat, s: seq<byte>): (r: Parsed)
    requires c.Lawful()
    decreases |s|
  {
    match ParseChunk(c, key, n, s)
    case More => Parsed([], s, n, true)
    case Bad => Parsed([], s, n, false)
    case Chunk(p, k) => Parse(c, key, c.Inc(c.Inc(n)), s[k..]).Prepend(p)
  }

  /** More bytes never change a verdict already reached on a chunk. */
  lemma ParseChunkStable(c: Cipher, key: seq<byte>, n: nat, s: seq<byte>, t: seq<byte>)
    requires c.Lawful()
    ensures !ParseChunk(c, key, n, s).More? ==> ParseChunk(c, key, n, s + t) == ParseChunk(c, key, n, s)
  {
    if |s| > c.Overhead() {
      assert (s + t)[..CHUNK_SIZE_LEN + c.tagLen] == s[..CHUNK_SIZE_LEN + c.tagLen];
      var r := ParseChunk(c, key, n, s);
      if !r.More? {
        var header := c.dec(key, n, s[..CHUNK_SIZE_LEN + c.tagLen]);
        if header.Some? {
          var mlen := Load16Be(header.value) % (CHUNK_SIZE_MASK + 1);
          if 0 < mlen {
            var from, to := CHUNK_SIZE_LEN + c.tagLen, c.Overhead() + mlen;
            assert (s + t)[from..to] == s[from..to];
          }
        }
      }
    }
  }

  /** Decoding is incremental: decode a prefix, then decode what it left together with the rest. */
  lemma {:induction false} ParseSplit(c: Cipher, key: seq<byte>, n: nat, s: seq<byte>, t: seq<byte>)
    requires c.Lawful()
    ensures var r := Parse(c, key, n, s);
            Parse(c, key, n, s + t).good ==> r.good
    ensures var r := Parse(c, key, n, s);
            r.good ==> Parse(c, key, n, s + t) == Parse(c, key, r.nonce, r.rest + t).Prepend(r.output)
    decreases |s|
  {
    ParseChunkStable(c, key, n, s, t);
    match ParseChunk(c, key, n, s)
    case More =>
      var u := Parse(c, key, n, s + t);
      assert [] + u.output == u.output;
    case Bad =>
    case Chunk(p, k) =>
      assert (s + t)[k..] == s[k..] + t;
      ParseSplit(c, key, c.Inc(c.Inc(n)), s[k..], t);
      var r := Parse(c, key, c.Inc(c.Inc(n)), s[k..]);
      if r.good {
        PrependPrepend(Parse(c, key, r.nonce, r.rest + t), r.output, p);
      }
  }

  lemma PrependPrepend(r: Parsed, p: seq<byte>, q: seq<byte>)
    ensures r.Prepend(p).Prepend(q) == r.Prepend(q + p)
  {
    assert q + (p + r.output) == q + p + r.output;
  }

  // ---------- round trip ----------

  /** The nonce after k chunks. */
  function Advance(c: Cipher, n: nat, k: nat): nat
    decreases k
  {
    if k == 0 then n else Advance(c, c.Inc(c.Inc(n)), k - 1)
  }

  /** A sent chunk, alone or followed by anything, is received as its payload; a proper prefix of
      it is waited on. */
  lemma ChunkRoundTrip(c: Cipher, key: seq<byte>, n: nat, p: seq<byte>, t: seq<byte>)
    requires c.Lawful() && Fits(p)
    ensures var s := EncodeChunk(c, key, n, p);
            && |s| == c.Overhead() + |p|
            && ParseChunk(c, key, n, s + t) == Chunk(p, |s|)
  {
    var header, payload := c.enc(key, n, Store16Be(|p|)), c.enc(key, c.Inc(n), p);
    var s := header + payload + t;
    assert s[..CHUNK_SIZE_LEN + c.tagLen] == header;
    assert Load16Be(Store16Be(|p|)) % (CHUNK_SIZE_MASK + 1) == |p|;
    assert s[CHUNK_SIZE_LEN + c.tagLen..c.Overhead() + |p|] == payload;
  }

  lemma PartialChunk(c: Cipher, key: seq<byte>, n: nat, p: seq<byte>, tail: seq<byte>)
    requires c.Lawful() && Fits(p) && tail < EncodeChunk(c, key, n, p)
    ensures ParseChunk(c, key, n, tail).More?
  {
    var header, payload := c.enc(key, n, Store16Be(|p|)), c.enc(key, c.Inc(n), p);
    if |tail| > c.Overhead() {
      assert tail[..CHUNK_SIZE_LEN + c.tagLen] == header;
      assert Load16Be(Store16Be(|p|)) % (CHUNK_SIZE_MASK + 1) == |p|;
    }
  }

  lemma ParseOne(c: Cipher, key: seq<byte>, n: nat, p: seq<byte>, t: seq<byte>)
    requires c.Lawful() && Fits(p)
    ensures Parse(c, key, n, EncodeChunk(c, key, n, p) + t) == Parse(c, key, c.Inc(c.Inc(n)), t).Prepend(p)
  {
    ChunkRoundTrip(c, key, n, p, t);
    var s := EncodeChunk(c, key, n, p);
    assert (s + t)[|s|..] == t;
  }

  /** Whole chunks are decoded up to a tail that is no whole chunk, and the decoding fails exactly if the tail is
      bad. */
  lemma {:induction false} ParseChunks(c: Cipher, key: seq<byte>, n: nat, ps: seq<seq<byte>>, tail: seq<byte>)
    requires c.Lawful() && AllFit(ps)
    requires !ParseChunk(c, key, Advance(c, n, |ps|), tail).Chunk?
    ensures Parse(c, key, n, EncodeChunks(c, key, n, ps) + tail) ==
            Parsed(Flatten(ps), tail, Advance(c, n, |ps|), ParseChunk(c, key, Advance(c, n, |ps|), tail).More?)
    decreases |ps|
  {
    if ps == [] {
      assert EncodeChunks(c, key, n, ps) + tail == tail;
    } else {
      var p, others, n2 := ps[0], ps[1..], c.Inc(c.Inc(n));
      ParseChunks(c, key, n2, others, tail);
      var first, sent := EncodeChunk(c, key, n, p), EncodeChunks(c, key, n2, others);
      assert first + sent + tail == first + (sent + tail);
      ParseOne(c, key, n, p, sent + tail);
      assert ps == [p] + others;
      FlattenCons(p, others);
    }
  }

  /** What is left of a stream cut after its k-th chunk: a proper prefix of the next chunk. */
  predicate Cut(c: Cipher, key: seq<byte>, n: nat, ps: seq<seq<byte>>, k: nat, tail: seq<byte>)
    requires AllFit(ps) && k <= |ps|
  {
    if k == |ps| then tail == [] else tail < EncodeChunk(c, key, Advance(c, n, k), ps[k])
  }

  /** Decoding a sent stream cut anywhere yields exactly the chunks that are whole in it, and keeps
      exactly the bytes after them. */
  lemma ParseSent(c: Cipher, key: seq<byte>, n: nat, ps: seq<seq<byte>>, k: nat, tail: seq<byte>)
    requires c.Lawful() && AllFit(ps) && k <= |ps|
    requires Cut(c, key, n, ps, k, tail)
    ensures Parse(c, key, n, EncodeChunks(c, key, n, ps[..k]) + tail) ==
            Parsed(Flatten(ps[..k]), tail, Advance(c, n, k), true)
  {
    if k < |ps| {
      PartialChunk(c, key, Advance(c, n, k), ps[k], tail);
    }
    ParseChunks(c, key, n, ps[..k], tail);
  }

  /** Every prefix of a sent stream is the stream cut after some chunk. */
  lemma {:induction false} PrefixIsCut(c: Cipher, key: seq<byte>, n: nat, ps: seq<seq<byte>>, s: seq<byte>)
    returns (k: nat, tail: seq<byte>)
    requires AllFit(ps) && s <= EncodeChunks(c, key, n, ps)
    ensures k <= |ps| && Cut(c, key, n, ps, k, tail)
    ensures s == EncodeChunks(c, key, n, ps[..k]) + tail
    decreases |ps|
  {
    if ps == [] {
      k, tail := 0, [];
    } else {
      var first := EncodeChunk(c, key, n, ps[0]);
      if |s| < |first| {
        k, tail := 0, s;
        assert s == first[..|s|];
      } else {
        var n2 := c.Inc(c.Inc(n));
        assert s[|first|..] <= EncodeChunks(c, key, n2, ps[1..]);
        var k', tail' := PrefixIsCut(c, key, n2, ps[1..], s[|first|..]);
        k, tail := k' + 1, tail';
        assert ps[..k][1..] == ps[1..][..k'];
        assert s == first + s[|first|..];
        assert s == first + EncodeChunks(c, key, n2, ps[1..][..k']) + tail;
      }
    }
  }

  /** Each chunk advances the nonce by two. */
  lemma {:induction false} AdvanceValue(c: Cipher, n: nat, k: nat)
    requires n < c.nonceSpace
    ensures Advance(c, n, k) < c.nonceSpace
    ensures n + 2 * k < c.nonceSpace ==> Advance(c, n, k) == n + 2 * k
    decreases k
  {
    if k > 0 {
      AdvanceValue(c, c.Inc(c.Inc(n)), k - 1);
    }
  }
}
