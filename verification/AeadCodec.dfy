/**
 The buffer-level AEAD codec of src/aead.c, proved to do what AeadStream says of it.
 */
module AeadCodec {
  import opened Bytes
  import opened Hiding
  import opened Buffers
  import opened AeadSpec
  import opened AeadStream
  import opened PingPongBloom

  class DecryptCtx {
    const cipher: Cipher
    var init: nat
    var salt: seq<byte>
    var skey: seq<byte>
    var nonce: nat
    const chunk: Buffer

    ghost predicate Valid()
      reads this, chunk
    {
      cipher.Lawful() && chunk.Valid()
    }

    /** The receiver this context stands for. */
    ghost function State(): Receiver
      requires Valid()
      reads this, chunk
    {
      Receiver(init, salt, skey, nonce, chunk.Content())
    }

    /** aead_ctx_init for decryption; the chunk buffer is allocated here rather than on first use. */
    constructor (c: Cipher, capacity: nat)
      requires c.Lawful()
      ensures Valid() && fresh(chunk) && cipher == c && State() == FRESH
    {
      cipher := c;
      init, salt, skey, nonce := 0, [], [], 0;
      chunk := new Buffer(capacity);
    }

    /** Move the kept bytes to the front of their buffer. */
    method Compact()
      requires Valid()
      modifies chunk
      ensures Valid() && chunk.idx == 0 && chunk.len == old(chunk.len)
      ensures chunk.data[..chunk.len] == old(chunk.Content())
    {
      var content := chunk.data[chunk.idx..chunk.idx + chunk.len];
      if chunk.idx > 0 {
        chunk.Write(0, content);
        chunk.idx := 0;
        assert [] + content == content;
      }
    }

    /** Append c to the kept bytes, which are at the front. */
    method Append(c: seq<byte>, capacity: nat)
      requires Valid() && chunk.idx == 0
      modifies chunk
      ensures Valid() && chunk.idx == 0 && chunk.len == old(chunk.len) + |c|
      ensures chunk.data[..chunk.len] == old(chunk.data[..chunk.len]) + c
    {
      ghost var kept := chunk.data[..chunk.len];
      chunk.Realloc(chunk.len + |c|, capacity);
      assert chunk.data[..chunk.len] == kept;
      chunk.Write(chunk.len, c);
      chunk.len := chunk.len + |c|;
    }

    /** First part of aead_decrypt: append the received bytes to those kept, reusing the allocation
        when nothing is kept, and make room for the plaintext in the freed buffer. */
    method Absorb(ciphertext: Buffer, capacity: nat)
      requires Valid() && ciphertext != chunk && ciphertext.len <= |ciphertext.data|
      modifies ciphertext, chunk
      ensures Valid() && chunk.Content() == old(chunk.Content()) + old(ciphertext.data[..ciphertext.len])
      ensures |ciphertext.data| >= chunk.len
    {
      if chunk.len == 0 {
        SwapData(chunk, ciphertext);
        chunk.len := ciphertext.len;
        chunk.idx := 0;
        ciphertext.len := 0;
        assert chunk.Content() == chunk.data[..chunk.len] == [] + chunk.data[..chunk.len];
      } else {
        var c := ciphertext.data[..ciphertext.len];
        Compact();
        Append(c, capacity);
      }
      ciphertext.Realloc(chunk.len, capacity);
    }

    /** aead_chunk_decrypt of the bytes c, writing the payload at offset `at` of dst. */
    method ChunkDecrypt(dst: Buffer, at: nat, c: seq<byte>) returns (status: Status, plen: nat, clen: nat)
      requires cipher.Lawful()
      requires at + |c| <= |dst.data|
      modifies dst`data, `nonce
      ensures match ParseChunk(cipher, skey, old(nonce), c)
              case More => status == NeedMore && nonce == old(nonce) && dst.data == old(dst.data)
              case Bad => status == Error
              case Chunk(p, k) =>
                && status == OK && plen == |p| && clen == |c| - k
                && nonce == cipher.Inc(cipher.Inc(old(nonce)))
                && at + |p| <= |dst.data| == |old(dst.data)|
                && dst.data[..at + |p|] == old(dst.data[..at]) + p
    {
      plen, clen := 0, |c|;
      var tlen := cipher.tagLen;
      if clen <= 2 * tlen + CHUNK_SIZE_LEN {
        return NeedMore, plen, clen;
      }
      var lenBuf := cipher.dec(skey, nonce, c[..CHUNK_SIZE_LEN + tlen]);
      if lenBuf.None? {
        return Error, plen, clen;
      }
      var mlen := Load16Be(lenBuf.value) % (CHUNK_SIZE_MASK + 1);
      if mlen == 0 {
        return Error, plen, clen;
      }
      var chunkLen := 2 * tlen + CHUNK_SIZE_LEN + mlen;
      if clen < chunkLen {
        return NeedMore, plen, clen;
      }
      nonce := cipher.Inc(nonce);
      var payload := cipher.dec(skey, nonce, c[CHUNK_SIZE_LEN + tlen..chunkLen]);
      if payload.None? {
        return Error, plen, clen;
      }
      dst.Write(at, payload.value);
      plen := |payload.value|;
      nonce := cipher.Inc(nonce);
      return OK, plen, clen - chunkLen;
    }

    /** plen bytes are delivered, cidx bytes of the kept ones are consumed, and decoding the others
        gives the rest of goal. */
    ghost predicate Progress(ciphertext: Buffer, plen: nat, cidx: nat, goal: Parsed)
      reads this, chunk, ciphertext
    {
      && cipher.Lawful() && ciphertext != chunk
      && chunk.idx + cidx + chunk.len <= |chunk.data|
      && plen + chunk.len <= |ciphertext.data|
      && Remains(cipher, skey, nonce, Left(cidx), ciphertext.data[..plen], goal)
    }

    function Left(cidx: nat): seq<byte>
      requires chunk.idx + cidx + chunk.len <= |chunk.data|
      reads this, chunk
    {
      chunk.data[chunk.idx + cidx..chunk.idx + cidx + chunk.len]
    }

    /** One round of the chunk loop of aead_decrypt. */
    method NextChunk(ciphertext: Buffer, plen: nat, cidx: nat, ghost goal: Parsed)
      returns (status: Status, plen': nat, cidx': nat)
      requires Progress(ciphertext, plen, cidx, goal)
      modifies ciphertext`data, chunk`len, `nonce
      ensures chunk.len <= old(chunk.len)
      ensures status != OK ==> plen' == plen && cidx' == cidx
      ensures status == Error ==> !goal.good
      ensures status == NeedMore ==>
                && nonce == old(nonce) && chunk.len == old(chunk.len) && ciphertext.data == old(ciphertext.data)
                && goal == Parsed(ciphertext.data[..plen], Left(cidx), nonce, true)
      ensures status == OK ==>
                && chunk.len < old(chunk.len) && 0 < plen'
                && Progress(ciphertext, plen', cidx', goal)
    {
      var c := Left(cidx);
      ghost var out := ciphertext.data[..plen];
      ghost var r := RemainsStep(cipher, skey, nonce, c, out, goal);
      var chunkPlen, chunkClen;
      status, chunkPlen, chunkClen := ChunkDecrypt(ciphertext, plen, c);
      plen', cidx' := plen, cidx;
      if status == OK {
        chunk.len := chunkClen;
        cidx' := cidx + cipher.tagLen * 2 + CHUNK_SIZE_LEN + chunkPlen;
        plen' := plen + chunkPlen;
        TailOfSlice(chunk.data, chunk.idx + cidx, old(chunk.len), r.consumed);
        assert Left(cidx') == c[r.consumed..];
        assert ciphertext.data[..plen'] == out + r.payload;
      }
    }

    /** The chunk loop of aead_decrypt. On success the plaintext is the first bytes of ciphertext. */
    method ReadChunks(ciphertext: Buffer, ghost goal: Parsed) returns (status: Status)
      requires Progress(ciphertext, 0, 0, goal)
      modifies ciphertext, `nonce, chunk`len, chunk`idx
      ensures Valid()
      ensures status == Error ==> !goal.good
      ensures status == NeedMore ==>
                && goal == Parsed([], old(Left(0)), old(nonce), true) && old(Left(0)) != []
                && nonce == old(nonce) && chunk.Content() == old(Left(0))
      ensures status == OK ==>
                && ciphertext.len <= |ciphertext.data|
                && goal == Parsed(ciphertext.data[..ciphertext.len], chunk.Content(), nonce, true)
                && (ciphertext.len == 0 ==> old(Left(0)) == [])
    {
      var plen: nat, cidx: nat := 0, 0;
      while chunk.len > 0
        invariant Progress(ciphertext, plen, cidx, goal) && chunk.idx == old(chunk.idx)
        invariant plen == 0 ==> cidx == 0 && nonce == old(nonce) && chunk.len == old(chunk.len)
      {
        var err;
        err, plen, cidx := NextChunk(ciphertext, plen, cidx, goal);
        if err == Error {
          return Error;
        } else if err == NeedMore {
          if plen == 0 {
            return NeedMore;
          }
          chunk.idx := chunk.idx + cidx;
          ciphertext.len := plen;
          return OK;
        }
      }
      RemainsEnd(cipher, skey, nonce, ciphertext.data[..plen], goal);
      chunk.idx := 0;
      ciphertext.len := plen;
      status := OK;
    }

    /** Second part of aead_decrypt: once more than a salt has arrived, take it and derive the key. */
    method Begin(filter: PingPong) returns (status: Status)
      requires Valid() && filter.Valid() && this !in filter.Repr && chunk !in filter.Repr
      modifies `init, `salt, `skey, chunk`idx, chunk`len, filter.Repr
      ensures Valid() && filter.Valid() && filter.window == old(filter.window)
      ensures if old(init) != 0 then status == OK && State() == old(State())
              else if old(chunk.len) <= cipher.saltLen then status == NeedMore && State() == old(State())
              else if Reports(filter.params, filter.window, old(chunk.Content()[..cipher.saltLen])) then status == Error
              else status == OK && State() == TakeSalt(cipher, old(State()))
      ensures status == OK ==> init == (if old(init) == 0 then 1 else old(init)) && chunk.len <= old(chunk.len)
    {
      if init == 0 {
        if chunk.len <= cipher.saltLen {
          return NeedMore;
        }
        ghost var content := chunk.Content();
        salt := chunk.data[chunk.idx..chunk.idx + cipher.saltLen];
        assert salt == content[..cipher.saltLen];
        var seen := filter.Check(salt);
        if seen == 1 {
          return Error;
        }
        skey := cipher.subkey(salt);
        chunk.idx := chunk.idx + cipher.saltLen;
        chunk.len := chunk.len - cipher.saltLen;
        init := 1;
        assert chunk.Content() == content[cipher.saltLen..];
      }
      status := OK;
    }

    /** Last part of aead_decrypt: look at the filter again and record the salt. */
    method Record(filter: PingPong) returns (status: Status)
      requires Valid() && filter.Valid() && this !in filter.Repr && chunk !in filter.Repr
      modifies `init, filter.Repr
      ensures Valid() && filter.Valid()
      ensures if init == old(init) then filter.window == old(filter.window)
              else filter.window == Next(filter.entries, old(filter.window), salt)
      ensures if old(init) == 1 && Reports(filter.params, old(filter.window), salt) then
                status == Error && init == old(init)
              else status == OK && init == (if old(init) == 1 then 2 else old(init))
    {
      if init == 1 {
        var seen := filter.Check(salt);
        if seen == 1 {
          return Error;
        }
        var _ := filter.Add(salt);
        init := 2;
      }
      status := OK;
    }

    /** The rest of aead_decrypt, once the salt is known. */
    method Finish(ciphertext: Buffer, filter: PingPong) returns (status: Status)
      requires Valid() && filter.Valid() && {this, chunk, ciphertext} !! filter.Repr
      requires 1 <= init <= 2 && ciphertext != chunk && |ciphertext.data| >= chunk.len
      modifies this, chunk, ciphertext, filter.Repr
      ensures Valid() && filter.Valid()
      ensures var d := ReceiveChunks(cipher, old(State()), Reports(filter.params, old(filter.window), old(salt)));
              && Outcome(status, ciphertext, d)
              && filter.window ==
                 (if d.recorded then Next(filter.entries, old(filter.window), old(salt)) else old(filter.window))
    {
      ghost var goal := Parse(cipher, skey, nonce, chunk.Content());
      RemainsStart(cipher, skey, nonce, chunk.Content());
      status := ReadChunks(ciphertext, goal);
      if status == OK {
        status := Record(filter);
      }
    }

    /** A call ended the way d says, with the plaintext in the caller's buffer. */
    ghost predicate Outcome(status: Status, ciphertext: Buffer, d: Received)
      requires Valid()
      reads this, chunk, ciphertext
    {
      && status == d.status
      && (status != Error ==> State() == d.next)
      && (status == OK ==>
            ciphertext.len == |d.output| <= |ciphertext.data| && ciphertext.data[..ciphertext.len] == d.output)
    }

    /** aead_decrypt */
    method Decrypt(ciphertext: Buffer, filter: PingPong, capacity: nat) returns (status: Status)
      requires Valid() && filter.Valid() && {this, chunk, ciphertext} !! filter.Repr
      requires init <= 2
      requires ciphertext != chunk && ciphertext.len <= |ciphertext.data|
      modifies this, chunk, ciphertext, filter.Repr
      ensures Valid() && filter.Valid()
      ensures var fragment := old(ciphertext.data[..ciphertext.len]);
              var seen := SaltSeen(cipher, old(State()), fragment);
              var d := Receive(cipher, old(State()), fragment, Reports(filter.params, old(filter.window), seen));
              && Outcome(status, ciphertext, d)
              && filter.window ==
                 (if d.recorded then Next(filter.entries, old(filter.window), seen) else old(filter.window))
    {
      Absorb(ciphertext, capacity);
      status := Begin(filter);
      if status == OK {
        status := Finish(ciphertext, filter);
      }
    }
  }

  lemma TailOfSlice(data: seq<byte>, from: nat, n: nat, k: nat)
    requires from + n <= |data| && k <= n
    ensures data[from..from + n][k..] == data[from + k..from + n]
  {
  }

  /** With `out` already delivered and `left` still to decode, decoding everything gives `goal`. */
  ghost predicate Remains(c: Cipher, key: seq<byte>, n: nat, left: seq<byte>, out: seq<byte>, goal: Parsed)
    requires c.Lawful()
  {
    forall k {:trigger InRemains(k)} :: InRemains(k) ==> goal == Parse(c, key, n, left).Prepend(out)
  }

  lemma RemainsStart(c: Cipher, key: seq<byte>, n: nat, s: seq<byte>)
    requires c.Lawful()
    ensures Remains(c, key, n, s, [], Parse(c, key, n, s))
  {
    assert [] + Parse(c, key, n, s).output == Parse(c, key, n, s).output;
  }

  lemma RemainsEnd(c: Cipher, key: seq<byte>, n: nat, out: seq<byte>, goal: Parsed)
    requires c.Lawful() && Remains(c, key, n, [], out, goal)
    ensures goal == Parsed(out, [], n, true)
  {
    assert InRemains(0);
    assert out + [] == out;
  }

  /** What one round of the chunk loop leaves to do. */
  lemma RemainsStep(c: Cipher, key: seq<byte>, n: nat, left: seq<byte>, out: seq<byte>, goal: Parsed)
    returns (r: ChunkResult)
    requires c.Lawful() && Remains(c, key, n, left, out, goal)
    ensures r == ParseChunk(c, key, n, left)
    ensures r.More? ==> goal == Parsed(out, left, n, true)
    ensures r.Bad? ==> !goal.good
    ensures r.Chunk? ==> Remains(c, key, c.Inc(c.Inc(n)), left[r.consumed..], out + r.payload, goal)
  {
    assert InRemains(0);
    r := ParseChunk(c, key, n, left);
    assert out + [] == out;
    if r.Chunk? {
      PrependPrepend(Parse(c, key, c.Inc(c.Inc(n)), left[r.consumed..]), r.payload, out);
    }
  }

  class EncryptCtx {
    const cipher: Cipher
    var init: bool
    const salt: seq<byte>
    var skey: seq<byte>
    var nonce: nat

    ghost predicate Valid()
      reads this
    {
      cipher.Lawful() && |salt| == cipher.saltLen
    }

    ghost function State(): Sender
      reads this
    {
      Sender(init, salt, skey, nonce)
    }

    /** aead_ctx_init for encryption, with the random salt drawn by the caller. */
    constructor (c: Cipher, random: seq<byte>)
      requires c.Lawful() && |random| == c.saltLen
      ensures Valid() && cipher == c && State() == Sender(false, random, [], 0)
    {
      cipher, salt := c, random;
      init, skey, nonce := false, [], 0;
    }

    /** aead_chunk_encrypt of p to offset `at` of dst. */
    method ChunkEncrypt(p: seq<byte>, dst: Buffer, at: nat)
      requires cipher.Lawful() && |p| <= CHUNK_SIZE_MASK
      requires at + cipher.Overhead() + |p| <= |dst.data|
      modifies dst`data, `nonce
      ensures nonce == cipher.Inc(cipher.Inc(old(nonce)))
      ensures |EncodeChunk(cipher, skey, old(nonce), p)| == cipher.Overhead() + |p|
      ensures |dst.data| == |old(dst.data)|
      ensures dst.data[..at + cipher.Overhead() + |p|] ==
              old(dst.data[..at]) + EncodeChunk(cipher, skey, old(nonce), p)
    {
      var header := cipher.enc(skey, nonce, Store16Be(|p|));
      dst.Write(at, header);
      nonce := cipher.Inc(nonce);
      var payload := cipher.enc(skey, nonce, p);
      dst.Write(at + |header|, payload);
      nonce := cipher.Inc(nonce);
      assert old(dst.data[..at]) + header + payload == old(dst.data[..at]) + (header + payload);
    }

    /** aead_encrypt; tmp is the function's static output buffer. */
    method Encrypt(plaintext: Buffer, tmp: Buffer, filter: PingPong, capacity: nat)
      requires Valid() && filter.Valid() && {this, plaintext, tmp} !! filter.Repr
      requires plaintext != tmp && plaintext.len <= |plaintext.data| && plaintext.len <= CHUNK_SIZE_MASK
      modifies this, plaintext, tmp, filter.Repr
      ensures Valid() && filter.Valid()
      ensures var s := Send(cipher, old(State()), old(plaintext.data[..plaintext.len]));
              && State() == s.next
              && plaintext.len == |s.bytes| <= |plaintext.data| && plaintext.data[..plaintext.len] == s.bytes
      ensures filter.window ==
              if init == old(init) then old(filter.window) else Next(filter.entries, old(filter.window), salt)
    {
      if plaintext.len == 0 {
        return;
      }
      Fill(plaintext.data[..plaintext.len], tmp, filter, capacity);
      SwapData(plaintext, tmp);
      plaintext.len := tmp.len;
    }

    /** The bytes for one non-empty payload, put at the start of tmp. */
    method Fill(p: seq<byte>, tmp: Buffer, filter: PingPong, capacity: nat)
      requires Valid() && filter.Valid() && {this, tmp} !! filter.Repr && 0 < |p| <= CHUNK_SIZE_MASK
      modifies this, tmp, filter.Repr
      ensures Valid() && filter.Valid() && init
      ensures var s := Send(cipher, old(State()), p);
              State() == s.next && tmp.len == |s.bytes| <= |tmp.data| && tmp.data[..tmp.len] == s.bytes
      ensures filter.window ==
              if old(init) then old(filter.window) else Next(filter.entries, old(filter.window), salt)
    {
      ghost var prefix := if init then [] else salt;
      var saltOfst := if init then 0 else cipher.saltLen;
      var outLen := saltOfst + 2 * cipher.tagLen + |p| + CHUNK_SIZE_LEN;
      tmp.Realloc(outLen, capacity);
      tmp.len := outLen;
      Prefix(tmp, filter);
      assert tmp.data[..saltOfst] == prefix;
      ChunkEncrypt(p, tmp, saltOfst);
    }

    /** The part of aead_encrypt done once: put the salt first, derive the key, record the salt. */
    method Prefix(tmp: Buffer, filter: PingPong)
      requires Valid() && filter.Valid() && {this, tmp} !! filter.Repr && (init || cipher.saltLen <= |tmp.data|)
      modifies `init, `skey, tmp`data, filter.Repr
      ensures Valid() && filter.Valid() && init
      ensures |tmp.data| == |old(tmp.data)|
      ensures if old(init) then skey == old(skey) && tmp.data == old(tmp.data) && filter.window == old(filter.window)
              else
                && skey == cipher.subkey(salt) && tmp.data[..cipher.saltLen] == salt
                && filter.window == Next(filter.entries, old(filter.window), salt)
    {
      if !init {
        tmp.Write(0, salt);
        skey := cipher.subkey(salt);
        init := true;
        var _ := filter.Add(salt);
      }
    }
  }

  /** aead_encrypt_all of one packet, with the random salt drawn by the caller. */
  method EncryptAll(c: Cipher, salt: seq<byte>, plaintext: Buffer, tmp: Buffer, filter: PingPong, capacity: nat)
    requires c.Lawful() && |salt| == c.saltLen && filter.Valid() && {plaintext, tmp} !! filter.Repr
    requires plaintext != tmp && plaintext.len <= |plaintext.data|
    modifies plaintext, tmp, filter.Repr
    ensures filter.Valid() && filter.window == Next(filter.entries, old(filter.window), salt)
    ensures plaintext.len <= |plaintext.data|
    ensures plaintext.data[..plaintext.len] == Seal(c, salt, old(plaintext.data[..plaintext.len]))
  {
    var m := plaintext.data[..plaintext.len];
    tmp.Realloc(c.saltLen + c.tagLen + plaintext.len, capacity);
    tmp.len := c.tagLen + plaintext.len;
    tmp.Write(0, salt);
    assert tmp.data[..c.saltLen] == salt;
    var _ := filter.Add(salt);
    var sealed := c.enc(c.subkey(salt), 0, m);
    tmp.Write(c.saltLen, sealed);
    SwapData(plaintext, tmp);
    plaintext.len := c.saltLen + tmp.len;
  }

  /** aead_cipher_decrypt of a packet's body into tmp. */
  method OpenInto(c: Cipher, salt: seq<byte>, body: seq<byte>, tmp: Buffer) returns (ok: bool)
    requires c.Lawful() && tmp.len + c.tagLen == |body| && tmp.len <= |tmp.data|
    modifies tmp`data
    ensures |tmp.data| == |old(tmp.data)|
    ensures var m := c.dec(c.subkey(salt), 0, body);
            (ok <==> m.Some?) && (ok ==> tmp.data[..tmp.len] == m.value)
  {
    var m := c.dec(c.subkey(salt), 0, body);
    ok := m.Some?;
    if ok {
      tmp.Write(0, m.value);
    }
  }

  /** aead_decrypt_all of one packet. */
  method DecryptAll(c: Cipher, ciphertext: Buffer, tmp: Buffer, filter: PingPong, capacity: nat)
    returns (status: Status)
    requires c.Lawful() && filter.Valid() && {ciphertext, tmp} !! filter.Repr
    requires ciphertext != tmp && ciphertext.len <= |ciphertext.data|
    modifies ciphertext, tmp, filter.Repr
    ensures filter.Valid() && status != NeedMore
    ensures var s := old(ciphertext.data[..ciphertext.len]);
            var salt := if |s| < c.saltLen then [] else s[..c.saltLen];
            var m := OpenPacket(c, s, Reports(filter.params, old(filter.window), salt));
            && (status == OK <==> m.Some?)
            && (status == OK ==>
                  ciphertext.len <= |ciphertext.data| && ciphertext.data[..ciphertext.len] == m.value)
            && filter.window ==
               (if status == OK then Next(filter.entries, old(filter.window), salt) else old(filter.window))
  {
    if ciphertext.len <= c.saltLen + c.tagLen {
      return Error;
    }
    var s := ciphertext.data[..ciphertext.len];
    tmp.Realloc(ciphertext.len, capacity);
    tmp.len := ciphertext.len - c.saltLen - c.tagLen;
    var salt := s[..c.saltLen];
    var seen := filter.Check(salt);
    if seen == 1 {
      return Error;
    }
    var ok := OpenInto(c, salt, s[c.saltLen..], tmp);
    if !ok {
      return Error;
    }
    var _ := filter.Add(salt);
    SwapData(ciphertext, tmp);
    ciphertext.len := tmp.len;
    status := OK;
  }
}
