/**
 The Salsa20/ChaCha20 path of src/stream.c: buffers shifted by counter % 64 so that a library that
 works in blocks is used as a byte stream. Proved to do what StreamSpec says.
 */
module StreamCodec {
  import opened Bytes
  import opened Buffers
  import opened StreamSpec
  import opened PingPongBloom

  /** The shifting shared by both directions: src is moved up by the padding, zeros are put below it,
      the whole is combined into dst at offset `at`, and the result is moved back down. */
  method XorShifted(m: Method, nonce: seq<byte>, counter: nat, src: Buffer, dst: Buffer, at: nat, capacity: nat)
    requires m.Lawful() && src != dst && src.len <= |src.data|
    requires counter + src.len <= BLOCK * m.blocks
    requires at + counter % BLOCK + src.len <= |dst.data|
    modifies src`data, dst`data
    ensures |dst.data| == |old(dst.data)|
    ensures dst.data[..at + src.len] == old(dst.data[..at]) + m.XorAt(nonce, counter, old(src.data[..src.len]))
  {
    var padding := counter % BLOCK;
    ghost var p := src.data[..src.len];
    var padded := Pad(src, padding, capacity);
    PaddedBlock(m, nonce, counter, p, padded);
    var r := m.xorIc(padded, nonce, counter / BLOCK);
    WriteShifted(dst, at, r, padding);
  }

  /** Move the bytes of src up by the padding and put zeros below them. */
  method Pad(src: Buffer, padding: nat, capacity: nat) returns (padded: seq<byte>)
    requires src.len <= |src.data|
    modifies src`data
    ensures |padded| == padding + src.len && padded[padding..] == old(src.data[..src.len])
  {
    ghost var p := src.data[..src.len];
    if padding > 0 {
      src.PushFront(Zeros(padding), src.len, capacity);
    }
    padded := src.data[..padding + src.len];
  }

  /** Where the two parts of a concatenation are. */
  lemma Behind(data: seq<byte>, below: seq<byte>, r: seq<byte>)
    requires |below| + |r| <= |data| && data[..|below| + |r|] == below + r
    ensures data[..|below|] == below && data[|below|..|below| + |r|] == r
  {
    assert data[..|below|] == data[..|below| + |r|][..|below|];
    assert data[|below|..|below| + |r|] == data[..|below| + |r|][|below|..];
  }

  /** Store r at offset `at` of dst, then move everything after its first `padding` bytes down. */
  method WriteShifted(dst: Buffer, at: nat, r: seq<byte>, padding: nat)
    requires padding <= |r| && at + |r| <= |dst.data|
    modifies dst`data
    ensures |dst.data| == |old(dst.data)|
    ensures dst.data[..at + |r| - padding] == old(dst.data[..at]) + r[padding..]
  {
    ghost var below := dst.data[..at];
    dst.Write(at, r);
    Behind(dst.data, below, r);
    if padding > 0 {
      var kept := dst.data[at + padding..at + |r|];
      assert kept == dst.data[at..at + |r|][padding..] == r[padding..];
      dst.Write(at, kept);
    } else {
      assert r[padding..] == r;
    }
  }

  /** Make room in dst and combine the bytes of src into it after the first `at` bytes. */
  method CryptInto(m: Method, nonce: seq<byte>, counter: nat, src: Buffer, dst: Buffer, at: nat, capacity: nat)
    requires m.Lawful() && src != dst && src.len <= |src.data| && at <= |dst.data|
    requires counter + src.len <= BLOCK * m.blocks
    modifies src`data, dst`data
    ensures at + src.len <= |dst.data|
    ensures dst.data[..at + src.len] == old(dst.data[..at]) + m.XorAt(nonce, counter, old(src.data[..src.len]))
  {
    ghost var below := dst.data[..at];
    dst.Realloc(at + (counter % BLOCK + src.len) * 2, capacity);
    assert dst.data[..at] == below;
    XorShifted(m, nonce, counter, src, dst, at, capacity);
  }

  class EncryptCtx {
    const m: Method
    const nonce: seq<byte>
    var init: bool
    var counter: nat

    ghost predicate Valid()
      reads this
    {
      m.Lawful() && |nonce| == m.nonceLen
    }

    ghost function State(): Sender
      reads this
    {
      Sender(init, nonce, counter)
    }

    /** stream_ctx_init for encryption, with the random nonce drawn by the caller. */
    constructor (m: Method, random: seq<byte>)
      requires m.Lawful() && |random| == m.nonceLen
      ensures Valid() && this.m == m && State() == Sender(false, random, 0)
    {
      this.m, nonce := m, random;
      init, counter := false, 0;
    }

    /** stream_encrypt; tmp is the function's static output buffer. */
    method Encrypt(plaintext: Buffer, tmp: Buffer, filter: PingPong, capacity: nat)
      requires Valid() && filter.Valid() && {this, plaintext, tmp} !! filter.Repr
      requires plaintext != tmp && plaintext.len <= |plaintext.data|
      requires (if init then counter else 0) + plaintext.len <= BLOCK * m.blocks
      modifies this, plaintext, tmp, filter.Repr
      ensures Valid() && filter.Valid()
      ensures State() == SendNext(old(State()), old(plaintext.data[..plaintext.len]))
      ensures plaintext.len <= |plaintext.data|
      ensures plaintext.data[..plaintext.len] == SendBytes(m, old(State()), old(plaintext.data[..plaintext.len]))
      ensures filter.window ==
              if old(init) then old(filter.window) else Next(filter.entries, old(filter.window), nonce)
    {
      var nonceLen := if init then 0 else m.nonceLen;
      tmp.Realloc(nonceLen + plaintext.len, capacity);
      tmp.len := plaintext.len;
      Begin(tmp, filter);
      assert tmp.data[..nonceLen] == if old(init) then [] else nonce;
      Combine(plaintext, tmp, nonceLen, capacity);
    }

    /** The rest: combine the plaintext with the keystream behind the nonce, and exchange the buffers. */
    method Combine(plaintext: Buffer, tmp: Buffer, nonceLen: nat, capacity: nat)
      requires m.Lawful() && plaintext != tmp && plaintext.len == tmp.len <= |plaintext.data| && nonceLen <= |tmp.data|
      requires counter + plaintext.len <= BLOCK * m.blocks
      modifies `counter, plaintext, tmp
      ensures counter == old(counter + plaintext.len) && plaintext.len <= |plaintext.data|
      ensures plaintext.data[..plaintext.len] ==
              old(tmp.data[..nonceLen]) + m.XorAt(nonce, old(counter), old(plaintext.data[..plaintext.len]))
    {
      CryptInto(m, nonce, counter, plaintext, tmp, nonceLen, capacity);
      counter := counter + plaintext.len;
      SwapData(plaintext, tmp);
      plaintext.len := nonceLen + tmp.len;
    }

    /** The part of stream_encrypt done once: emit the nonce, reset the counter, record the nonce. */
    method Begin(tmp: Buffer, filter: PingPong)
      requires Valid() && filter.Valid() && {this, tmp} !! filter.Repr && (init || m.nonceLen <= |tmp.data|)
      modifies `init, `counter, tmp`data, filter.Repr
      ensures filter.Valid() && init && |tmp.data| == |old(tmp.data)|
      ensures if old(init) then
                counter == old(counter) && tmp.data == old(tmp.data) && filter.window == old(filter.window)
              else
                && counter == 0 && tmp.data[..m.nonceLen] == nonce
                && filter.window == Next(filter.entries, old(filter.window), nonce)
    {
      if !init {
        tmp.Write(0, nonce);
        counter := 0;
        init := true;
        var _ := filter.Add(nonce);
      }
    }
  }

  class DecryptCtx {
    const m: Method
    var init: nat
    var nonce: seq<byte>
    var counter: nat
    const chunk: Buffer

    ghost predicate Valid()
      reads this, chunk
    {
      && m.Lawful() && chunk.idx == 0 && chunk.len <= |chunk.data| == m.nonceLen
      && (init != 0 ==> nonce == chunk.data[..chunk.len])
    }

    ghost function State(): Receiver
      requires Valid()
      reads this, chunk
    {
      Receiver(init, chunk.data[..chunk.len], counter)
    }

    /** stream_ctx_init for decryption; the nonce buffer is allocated here rather than on first use. */
    constructor (m: Method)
      requires m.Lawful()
      ensures Valid() && fresh(chunk) && this.m == m && State() == NEW
    {
      this.m := m;
      init, nonce, counter := 0, [], 0;
      chunk := new Buffer(m.nonceLen);
    }

    /** First part of stream_decrypt: move what is missing of the nonce out of the received bytes. */
    method TakeIv(ciphertext: Buffer)
      requires Valid() && ciphertext != chunk && ciphertext.len <= |ciphertext.data| && init == 0
      modifies chunk`data, chunk`len, ciphertext
      ensures Valid()
      ensures var fragment := old(ciphertext.data[..ciphertext.len]);
              var take := IvPart(m, old(State()), fragment);
              && chunk.data[..chunk.len] == old(chunk.data[..chunk.len]) + fragment[..take]
              && ciphertext.len <= |ciphertext.data| && ciphertext.data[..ciphertext.len] == fragment[take..]
    {
      var leftLen := Min(m.nonceLen - chunk.len, ciphertext.len);
      if leftLen > 0 {
        var part, rest := ciphertext.data[..leftLen], ciphertext.data[leftLen..ciphertext.len];
        chunk.Write(chunk.len, part);
        ciphertext.Write(0, rest);
        chunk.len := chunk.len + leftLen;
        ciphertext.len := ciphertext.len - leftLen;
      }
    }

    /** A call ended the way d says, with the plaintext in the caller's buffer. */
    ghost predicate Outcome(status: Status, ciphertext: Buffer, d: Received)
      requires Valid()
      reads this, chunk, ciphertext
    {
      && status == d.status
      && (status != Error ==> State() == d.next)
      && (status == OK ==>
            ciphertext.len == |d.output| <= |ciphertext.data| && ciphertext.data[..ciphertext.len] == d.output)
    }

    /** The rest of stream_decrypt, once the nonce is known. */
    method Finish(ciphertext: Buffer, tmp: Buffer, filter: PingPong, capacity: nat) returns (status: Status)
      requires Valid() && filter.Valid() && {this, chunk, ciphertext, tmp} !! filter.Repr
      requires 1 <= init <= 2 && chunk != ciphertext && ciphertext != tmp
      requires tmp != chunk && ciphertext.len <= |ciphertext.data|
      requires counter + ciphertext.len <= BLOCK * m.blocks
      modifies `init, `counter, ciphertext, tmp, filter.Repr
      ensures Valid() && filter.Valid()
      ensures var d := ReceiveData(m, old(State()), old(ciphertext.data[..ciphertext.len]),
                                   Reports(filter.params, old(filter.window), nonce));
              && Outcome(status, ciphertext, d)
              && filter.window ==
                 (if d.recorded then Next(filter.entries, old(filter.window), nonce) else old(filter.window))
    {
      if ciphertext.len == 0 {
        return NeedMore;
      }
      Combine(ciphertext, tmp, capacity);
      status := Record(filter);
      if status == OK {
        SwapData(ciphertext, tmp);
        ciphertext.len := tmp.len;
      }
    }

    /** The plaintext of what was received, in the other buffer. */
    method Combine(ciphertext: Buffer, tmp: Buffer, capacity: nat)
      requires m.Lawful() && ciphertext != tmp && ciphertext.len <= |ciphertext.data|
      requires counter + ciphertext.len <= BLOCK * m.blocks
      modifies `counter, ciphertext`data, tmp
      ensures counter == old(counter) + ciphertext.len && tmp.len == ciphertext.len <= |tmp.data|
      ensures tmp.data[..tmp.len] == m.XorAt(nonce, old(counter), old(ciphertext.data[..ciphertext.len]))
    {
      tmp.len := ciphertext.len;
      ghost var plain := m.XorAt(nonce, counter, ciphertext.data[..ciphertext.len]);
      CryptInto(m, nonce, counter, ciphertext, tmp, 0, capacity);
      assert [] + plain == plain;
      counter := counter + ciphertext.len;
    }

    /** Look at the filter again and record the nonce. */
    method Record(filter: PingPong) returns (status: Status)
      requires filter.Valid() && {this, chunk} !! filter.Repr
      modifies `init, filter.Repr
      ensures filter.Valid()
      ensures filter.window ==
              if init == old(init) then old(filter.window) else Next(filter.entries, old(filter.window), nonce)
      ensures if old(init) == 1 && Reports(filter.params, old(filter.window), nonce) then
                status == Error && init == old(init)
              else status == OK && init == (if old(init) == 1 then 2 else old(init))
    {
      if init == 1 {
        var seen := filter.Check(nonce);
        if seen == 1 {
          return Error;
        }
        var _ := filter.Add(nonce);
        init := 2;
      }
      status := OK;
    }

    /** Complete the nonce and look for it in the filter. */
    method Begin(ciphertext: Buffer, filter: PingPong) returns (status: Status)
      requires Valid() && filter.Valid() && {this, chunk, ciphertext} !! filter.Repr
      requires init == 0 && chunk != ciphertext && ciphertext.len <= |ciphertext.data|
      modifies this, chunk, ciphertext, filter.Repr
      ensures Valid() && filter.Valid() && filter.window == old(filter.window)
      ensures var fragment := old(ciphertext.data[..ciphertext.len]);
              var take := IvPart(m, old(State()), fragment);
              var iv := old(State()).iv + fragment[..take];
              if |iv| < m.nonceLen then status == NeedMore && State() == Receiver(0, iv, old(counter))
              else if Reports(filter.params, filter.window, iv) then status == Error
              else
                && status == OK && State() == Receiver(1, iv, 0)
                && ciphertext.len <= |ciphertext.data| && ciphertext.data[..ciphertext.len] == fragment[take..]
    {
      TakeIv(ciphertext);
      if chunk.len < m.nonceLen {
        return NeedMore;
      }
      nonce := chunk.data[..m.nonceLen];
      counter := 0;
      init := 1;
      var seen := filter.Check(nonce);
      status := if seen == 1 then Error else OK;
    }

    /** stream_decrypt */
    method Decrypt(ciphertext: Buffer, tmp: Buffer, filter: PingPong, capacity: nat) returns (status: Status)
      requires Valid() && filter.Valid() && {this, chunk, ciphertext, tmp} !! filter.Repr
      requires init <= 2 && chunk != ciphertext && ciphertext != tmp
      requires tmp != chunk && ciphertext.len <= |ciphertext.data|
      requires counter + ciphertext.len <= BLOCK * m.blocks
      modifies this, chunk, ciphertext, tmp, filter.Repr
      ensures Valid() && filter.Valid()
      ensures var fragment := old(ciphertext.data[..ciphertext.len]);
              var seen := old(State()).iv + fragment[..IvPart(m, old(State()), fragment)];
              var d := Receive(m, old(State()), fragment, Reports(filter.params, old(filter.window), seen));
              && Outcome(status, ciphertext, d)
              && filter.window ==
                 (if d.recorded then Next(filter.entries, old(filter.window), seen) else old(filter.window))
    {
      if init == 0 {
        status := Begin(ciphertext, filter);
        if status != OK {
          return;
        }
      } else {
        assert State().iv + [] == nonce;
      }
      status := Finish(ciphertext, tmp, filter, capacity);
    }
  }
}
