/**
 A receiver of the chunk stream fed fragment by fragment, as aead_decrypt is by the TCP relay,
 and the theorem that fragmentation does not matter.
 */
module AeadStream {
  import opened Bytes
  import opened AeadSpec
  import opened Buffers

  /** init is 0 before the salt has arrived, 1 once it has, and 2 once it has been recorded. */
  datatype Receiver = Receiver(init: nat, salt: seq<byte>, skey: seq<byte>, nonce: nat, kept: seq<byte>)

  const FRESH := Receiver(0, [], [], 0, [])

  datatype Received = Received(status: Status, output: seq<byte>, next: Receiver, recorded: bool)

  /** Take the salt off the front of the kept bytes and derive the session key from it. */
  function TakeSalt(c: Cipher, r: Receiver): Receiver
    requires |r.kept| > c.saltLen
  {
    var salt := r.kept[..c.saltLen];
    Receiver(1, salt, c.subkey(salt), r.nonce, r.kept[c.saltLen..])
  }

  /** One call of aead_decrypt; `reported` is what the filter says of the salt during the call. */
  function Receive(c: Cipher, r: Receiver, fragment: seq<byte>, reported: bool): (d: Received)
    requires c.Lawful()
  {
    var r1 := r.(kept := r.kept + fragment);
    if r.init == 0 && |r1.kept| <= c.saltLen then Received(NeedMore, [], r1, false)
    else if r.init == 0 && reported then Received(Error, [], r1, false)
    else ReceiveChunks(c, if r.init == 0 then TakeSalt(c, r1) else r1, reported)
  }

  /** The chunk loop, and the second look at the filter. */
  function ReceiveChunks(c: Cipher, r: Receiver, reported: bool): (d: Received)
    requires c.Lawful()
  {
    var p := Parse(c, r.skey, r.nonce, r.kept);
    if !p.good then Received(Error, [], r, false)
    else if p.output == [] && r.kept != [] then Received(NeedMore, [], r, false)
    else if r.init == 1 && reported then Received(Error, p.output, r, false)
    else Received(OK, p.output, Receiver(2, r.salt, r.skey, p.nonce, p.rest), r.init == 1)
  }

  /** The salt the filter is asked about during that call. */
  function SaltSeen(c: Cipher, r: Receiver, fragment: seq<byte>): seq<byte> {
    var kept := r.kept + fragment;
    if r.init == 0 && |kept| > c.saltLen then kept[..c.saltLen] else r.salt
  }

  /** Waiting for more leaves the nonce alone; a successful call on new bytes delivers something. */
  lemma ReceiveProgress(c: Cipher, r: Receiver, fragment: seq<byte>, reported: bool)
    requires c.Lawful()
    ensures var d := Receive(c, r, fragment, reported);
            && (d.status == NeedMore ==> d.next.nonce == r.nonce && d.output == [])
            && (d.status == OK && fragment != [] ==> d.output != [])
  {
  }

  /** A call with a salt that the filter reports fails as soon as the salt is past, and so does a later one that brings
      the first data; never does a context accept data under such a salt for the first time. */
  lemma ReplayRefused(c: Cipher, r: Receiver, fragment: seq<byte>)
    requires c.Lawful() && r.init <= 2
    ensures var d := Receive(c, r, fragment, true);
            !d.recorded && (d.next.init == 2 <==> r.init == 2)
            && (r.init == 0 ==> (d.status == Error <==> |r.kept + fragment| > c.saltLen))
            && (r.init == 1 ==> d.status == Error || (d.status == NeedMore && d.output == []))
  {
  }

  // ---------- whole runs ----------

  /** What a byte stream means, however it arrives. */
  function Decode(c: Cipher, s: seq<byte>): Parsed
    requires c.Lawful()
  {
    if |s| <= c.saltLen then Parsed([], s, 0, true)
    else Parse(c, c.subkey(s[..c.saltLen]), 0, s[c.saltLen..])
  }

  datatype Fed = Fed(output: seq<byte>, state: Receiver, failed: bool)

  function FeedOne(c: Cipher, f: Fed, fragment: seq<byte>): Fed
    requires c.Lawful()
  {
    if f.failed then f
    else
      var d := Receive(c, f.state, fragment, false);
      if d.status == Error then f.(failed := true) else Fed(f.output + d.output, d.next, false)
  }

  /** Feed the fragments in order to a fresh receiver, the filter never reporting the salt. */
  function Feed(c: Cipher, fragments: seq<seq<byte>>): Fed
    requires c.Lawful()
  {
    if fragments == [] then Fed([], FRESH, false)
    else FeedOne(c, Feed(c, fragments[..|fragments| - 1]), fragments[|fragments| - 1])
  }

  /** After the bytes s the receiver has delivered, and still keeps, what Decode says. */
  ghost predicate Tracks(c: Cipher, s: seq<byte>, f: Fed)
    requires c.Lawful()
  {
    if |s| <= c.saltLen then f.output == [] && f.state == FRESH.(kept := s)
    else
      && f.state.salt == s[..c.saltLen] && f.state.skey == c.subkey(f.state.salt)
      && f.state.init == (if f.output == [] then 1 else 2)
      && Decode(c, s) == Parsed(f.output, f.state.kept, f.state.nonce, true)
  }

  /** Chunks are decoded alike from the kept bytes and from the whole stream. */
  lemma DecodeSplit(c: Cipher, s: seq<byte>, t: seq<byte>)
    requires c.Lawful() && |s| > c.saltLen
    ensures Decode(c, s + t).good ==> Decode(c, s).good
    ensures var r := Decode(c, s);
            r.good ==>
              Decode(c, s + t) == Parse(c, c.subkey(s[..c.saltLen]), r.nonce, r.rest + t).Prepend(r.output)
  {
    assert (s + t)[..c.saltLen] == s[..c.saltLen];
    assert (s + t)[c.saltLen..] == s[c.saltLen..] + t;
    ParseSplit(c, c.subkey(s[..c.saltLen]), 0, s[c.saltLen..], t);
  }

  /** A parse that delivers nothing consumes nothing. */
  lemma ParseNothing(c: Cipher, key: seq<byte>, n: nat, s: seq<byte>)
    requires c.Lawful()
    ensures var r := Parse(c, key, n, s);
            r.good && r.output == [] ==> r.rest == s && r.nonce == n
  {
  }

  lemma TracksSalt(c: Cipher, s: seq<byte>, f: Fed, fragment: seq<byte>)
    requires c.Lawful() && !f.failed && fragment != []
    requires |s| <= c.saltLen && Tracks(c, s, f)
    ensures var g := FeedOne(c, f, fragment);
            if Decode(c, s + fragment).good then !g.failed && Tracks(c, s + fragment, g) else g.failed
  {
    var whole := s + fragment;
    if |whole| > c.saltLen {
      var r := TakeSalt(c, FRESH.(kept := whole));
      ParseNothing(c, r.skey, 0, r.kept);
      var p := Parse(c, r.skey, 0, r.kept);
      assert [] + p.output == p.output;
    }
  }

  lemma TracksChunks(c: Cipher, s: seq<byte>, f: Fed, fragment: seq<byte>)
    requires c.Lawful() && !f.failed && fragment != []
    requires |s| > c.saltLen && Tracks(c, s, f)
    ensures var g := FeedOne(c, f, fragment);
            if Decode(c, s + fragment).good then !g.failed && Tracks(c, s + fragment, g) else g.failed
  {
    DecodeSplit(c, s, fragment);
    assert (s + fragment)[..c.saltLen] == s[..c.saltLen];
    ParseNothing(c, f.state.skey, f.state.nonce, f.state.kept + fragment);
    assert f.output + [] == f.output;
  }

  /** Fragmentation independence, for every byte stream and every way of cutting it: the run fails
      exactly when the stream is bad, and otherwise has delivered exactly what the stream decodes
      to and keeps exactly the undecoded bytes. */
  lemma {:induction false} FragmentationIndependent(c: Cipher, fragments: seq<seq<byte>>)
    requires c.Lawful()
    requires forall i :: 0 <= i < |fragments| ==> fragments[i] != []
    ensures var s, f := Flatten(fragments), Feed(c, fragments);
            if Decode(c, s).good then !f.failed && Tracks(c, s, f) else f.failed
  {
    if fragments != [] {
      var before, last := fragments[..|fragments| - 1], fragments[|fragments| - 1];
      FragmentationIndependent(c, before);
      var s, f := Flatten(before), Feed(c, before);
      if f.failed {
        DecodeSplit(c, s, last);
      } else if |s| <= c.saltLen {
        TracksSalt(c, s, f, last);
      } else {
        TracksChunks(c, s, f, last);
      }
    }
  }

  /** The bytes a sender puts on the wire for a list of payloads. */
  function Wire(c: Cipher, salt: seq<byte>, ps: seq<seq<byte>>): seq<byte>
    requires AllFit(ps)
  {
    salt + EncodeChunks(c, c.subkey(salt), 0, ps)
  }

  lemma DecodeSent(c: Cipher, salt: seq<byte>, ps: seq<seq<byte>>, s: seq<byte>)
    returns (k: nat, tail: seq<byte>)
    requires c.Lawful() && |salt| == c.saltLen && AllFit(ps)
    requires s <= Wire(c, salt, ps) && |s| > c.saltLen
    ensures k <= |ps| && Cut(c, c.subkey(salt), 0, ps, k, tail)
    ensures s == Wire(c, salt, ps[..k]) + tail
    ensures Decode(c, s) == Parsed(Flatten(ps[..k]), tail, Advance(c, 0, k), true)
  {
    var key := c.subkey(salt);
    var body := SaltOff(s, salt, EncodeChunks(c, key, 0, ps));
    k, tail := PrefixIsCut(c, key, 0, ps, body);
    ParseSent(c, key, 0, ps, k, tail);
    SaltOn(c, salt, EncodeChunks(c, key, 0, ps[..k]), tail);
  }

  lemma SaltOff(s: seq<byte>, salt: seq<byte>, chunks: seq<byte>) returns (body: seq<byte>)
    requires s <= salt + chunks && |s| > |salt|
    ensures s == salt + body && body <= chunks && body != []
  {
    PrefixOfConcat(s, salt, chunks);
    body := s[|salt|..];
  }

  lemma SaltOn(c: Cipher, salt: seq<byte>, sent: seq<byte>, tail: seq<byte>)
    requires c.Lawful() && |salt| == c.saltLen && |sent + tail| > 0
    ensures salt + (sent + tail) == salt + sent + tail
    ensures Decode(c, salt + (sent + tail)) == Parse(c, c.subkey(salt), 0, sent + tail)
  {
    var s := salt + (sent + tail);
    assert s[..c.saltLen] == salt && s[c.saltLen..] == sent + tail;
  }

  /** The codec is correct under every fragmentation: feed any fragments that together are a prefix
      of what was sent, beyond the salt, and the receiver has delivered exactly the payloads of the
      k chunks that have fully arrived, keeps exactly the bytes after them, and is at nonce 2k
      (counting modulo the nonce space). */
  lemma CodecCorrect(c: Cipher, salt: seq<byte>, ps: seq<seq<byte>>, fragments: seq<seq<byte>>)
    returns (k: nat, tail: seq<byte>)
    requires c.Lawful() && |salt| == c.saltLen && AllFit(ps)
    requires forall i :: 0 <= i < |fragments| ==> fragments[i] != []
    requires Flatten(fragments) <= Wire(c, salt, ps) && |Flatten(fragments)| > c.saltLen
    ensures k <= |ps| && Cut(c, c.subkey(salt), 0, ps, k, tail)
    ensures Flatten(fragments) == Wire(c, salt, ps[..k]) + tail
    ensures var f := Feed(c, fragments);
            && !f.failed
            && f.output == Flatten(ps[..k])
            && f.state.kept == tail
            && f.state.nonce == Advance(c, 0, k)
            && (2 * k < c.nonceSpace ==> f.state.nonce == 2 * k)
  {
    k, tail := DecodeSent(c, salt, ps, Flatten(fragments));
    FragmentationIndependent(c, fragments);
    AdvanceValue(c, 0, k);
  }

  /** Nothing is delivered, and nothing fails, until the salt is past. */
  lemma BeforeSalt(c: Cipher, fragments: seq<seq<byte>>)
    requires c.Lawful()
    requires forall i :: 0 <= i < |fragments| ==> fragments[i] != []
    requires |Flatten(fragments)| <= c.saltLen
    ensures Feed(c, fragments) == Fed([], FRESH.(kept := Flatten(fragments)), false)
  {
    FragmentationIndependent(c, fragments);
  }

  // ---------- the sending side ----------

  datatype Sender = Sender(init: bool, salt: seq<byte>, skey: seq<byte>, nonce: nat)

  datatype Sent = Sent(bytes: seq<byte>, next: Sender)

  /** One call of aead_encrypt: the first non-empty payload is preceded by the salt. */
  function Send(c: Cipher, s: Sender, p: seq<byte>): Sent
    requires |p| <= CHUNK_SIZE_MASK
  {
    if p == [] then Sent([], s)
    else
      var skey := if s.init then s.skey else c.subkey(s.salt);
      Sent((if s.init then [] else s.salt) + EncodeChunk(c, skey, s.nonce, p),
           Sender(true, s.salt, skey, c.Inc(c.Inc(s.nonce))))
  }

  /** Every payload sent through one fresh context. */
  function SendAll(c: Cipher, salt: seq<byte>, ps: seq<seq<byte>>): Sent
    requires AllFit(ps)
  {
    if ps == [] then Sent([], Sender(false, salt, [], 0))
    else
      var before := SendAll(c, salt, ps[..|ps| - 1]);
      var last := Send(c, before.next, ps[|ps| - 1]);
      Sent(before.bytes + last.bytes, last.next)
  }

  lemma {:induction false} EncodeChunksAppend(c: Cipher, key: seq<byte>, n: nat, ps: seq<seq<byte>>, p: seq<byte>)
    requires AllFit(ps) && Fits(p)
    ensures EncodeChunks(c, key, n, ps + [p]) ==
            EncodeChunks(c, key, n, ps) + EncodeChunk(c, key, Advance(c, n, |ps|), p)
    decreases |ps|
  {
    if ps == [] {
      assert ps + [p] == [p];
      assert EncodeChunks(c, key, n, [p]) == EncodeChunk(c, key, n, p) + [];
    } else {
      EncodeChunksAppend(c, key, c.Inc(c.Inc(n)), ps[1..], p);
      assert (ps + [p])[1..] == ps[1..] + [p];
    }
  }

  lemma {:induction false} AdvanceMore(c: Cipher, n: nat, k: nat)
    ensures Advance(c, n, k + 1) == c.Inc(c.Inc(Advance(c, n, k)))
    decreases k
  {
    if k > 0 {
      AdvanceMore(c, c.Inc(c.Inc(n)), k - 1);
    }
  }

  /** What the sending context emits, call by call, is exactly the wire format the receiver decodes. */
  lemma {:induction false} SendAllIsWire(c: Cipher, salt: seq<byte>, ps: seq<seq<byte>>)
    requires AllFit(ps) && ps != []
    ensures SendAll(c, salt, ps) ==
            Sent(Wire(c, salt, ps), Sender(true, salt, c.subkey(salt), Advance(c, 0, |ps|)))
  {
    var before, p, key := ps[..|ps| - 1], ps[|ps| - 1], c.subkey(salt);
    assert ps == before + [p];
    EncodeChunksAppend(c, key, 0, before, p);
    AdvanceMore(c, 0, |before|);
    var chunk := EncodeChunk(c, key, Advance(c, 0, |before|), p);
    if before == [] {
      assert salt + chunk == Wire(c, salt, ps);
    } else {
      SendAllIsWire(c, salt, before);
      assert Wire(c, salt, before) + chunk == Wire(c, salt, ps);
    }
  }

  // ---------- packets ----------

  /** [salt][encrypted payload][tag] */
  function Seal(c: Cipher, salt: seq<byte>, m: seq<byte>): seq<byte> {
    salt + c.enc(c.subkey(salt), 0, m)
  }

  /** aead_decrypt_all */
  function OpenPacket(c: Cipher, s: seq<byte>, reported: bool): Option<seq<byte>> {
    if |s| <= c.saltLen + c.tagLen || reported then None
    else c.dec(c.subkey(s[..c.saltLen]), 0, s[c.saltLen..])
  }

  /** The layout of SIP007, in plain bytes: the salt, and the payload under the nonce 0 with its tag. */
  lemma PacketLayout(c: Cipher, salt: seq<byte>, m: seq<byte>)
    requires c.Lawful() && |salt| == c.saltLen
    ensures var s := Seal(c, salt, m);
            && |s| == |salt| + |m| + c.tagLen && s[..|salt|] == salt
            && c.dec(c.subkey(salt), 0, s[|salt|..]) == Some(m)
  {
    assert Seal(c, salt, m)[|salt|..] == c.enc(c.subkey(salt), 0, m);
  }

  /** The layout of a stream: the salt, and then chunk after chunk, the i-th under the nonces 2i and 2i + 1. */
  lemma {:induction false} WireLayout(c: Cipher, salt: seq<byte>, ps: seq<seq<byte>>)
    requires AllFit(ps) && 2 * |ps| < c.nonceSpace
    ensures if ps == [] then Wire(c, salt, ps) == salt
            else
              var before, i := ps[..|ps| - 1], |ps| - 1;
              Wire(c, salt, ps) == Wire(c, salt, before) + EncodeChunk(c, c.subkey(salt), 2 * i, ps[i])
  {
    if ps != [] {
      var before, i := ps[..|ps| - 1], |ps| - 1;
      assert ps == before + [ps[i]];
      EncodeChunksAppend(c, c.subkey(salt), 0, before, ps[i]);
      AdvanceValue(c, 0, i);
    } else {
      assert salt + [] == salt;
    }
  }

  /** A sealed packet opens to its payload exactly when the payload is not empty. */
  lemma PacketRoundTrip(c: Cipher, salt: seq<byte>, m: seq<byte>)
    requires c.Lawful() && |salt| == c.saltLen
    ensures OpenPacket(c, Seal(c, salt, m), false) == Some(m) <==> m != []
  {
    var s := Seal(c, salt, m);
    assert s[..c.saltLen] == salt && s[c.saltLen..] == c.enc(c.subkey(salt), 0, m);
  }
}
