/**
 Stream ciphers as one exclusive-or with a byte keystream: what sending and receiving through a
 context mean, whatever the calls and whatever the fragmentation.
 */
module StreamSpec {
  import opened Bytes
  import opened Buffers

  const BLOCK := 64

  /** A Salsa20/ChaCha20 method. xorIc is the library call that starts at a block number; keystream
      names the byte it combines with at each absolute position. The block counter holds `blocks`
      values. */
  datatype Method = Method(
    nonceLen: nat,
    blocks: nat,
    keystream: (seq<byte>, nat) -> byte,
    xorIc: (seq<byte>, seq<byte>, nat) -> seq<byte>)
  {
    /** The law assumed of the library, as long as its block counter does not wrap. */
    ghost predicate Lawful() {
      forall m, nonce, ic {:trigger xorIc(m, nonce, ic)} ::
        && |xorIc(m, nonce, ic)| == |m|
        && (BLOCK * ic + |m| <= BLOCK * blocks ==>
              forall j :: 0 <= j < |m| ==> xorIc(m, nonce, ic)[j] == Xor(m[j], keystream(nonce, BLOCK * ic + j)))
    }

    /** p combined with the keystream from an absolute position. */
    function XorAt(nonce: seq<byte>, at: nat, p: seq<byte>): (r: seq<byte>)
      ensures |r| == |p|
    {
      seq(|p|, j requires 0 <= j < |p| => Xor(p[j], keystream(nonce, at + j)))
    }
  }

  /** The law can be met, if only by a keystream of zeros. */
  lemma LawfulExists()
    ensures exists m: Method :: m.Lawful()
  {
    var xor := (p: seq<byte>, nonce: seq<byte>, ic: nat) => seq(|p|, j requires 0 <= j < |p| => Xor(p[j], 0));
    var m := Method(8, 100, (nonce, at) => 0, xor);
    assert m.Lawful();
  }

  lemma XorAtConcat(m: Method, nonce: seq<byte>, at: nat, p: seq<byte>, q: seq<byte>)
    ensures m.XorAt(nonce, at, p + q) == m.XorAt(nonce, at, p) + m.XorAt(nonce, at + |p|, q)
  {
  }

  lemma XorAtTwice(m: Method, nonce: seq<byte>, at: nat, p: seq<byte>)
    ensures m.XorAt(nonce, at, m.XorAt(nonce, at, p)) == p
  {
    forall j | 0 <= j < |p|
      ensures m.XorAt(nonce, at, m.XorAt(nonce, at, p))[j] == p[j]
    {
      XorTwice(p[j], m.keystream(nonce, at + j));
    }
  }

  /** Padding to a block boundary makes the block keystream a byte keystream. */
  lemma PaddedBlock(m: Method, nonce: seq<byte>, counter: nat, p: seq<byte>, padded: seq<byte>)
    requires m.Lawful()
    requires |padded| == counter % BLOCK + |p| && padded[counter % BLOCK..] == p
    requires counter + |p| <= BLOCK * m.blocks
    ensures var r := m.xorIc(padded, nonce, counter / BLOCK);
            |r| == |padded| && r[counter % BLOCK..] == m.XorAt(nonce, counter, p)
  {
    var pad, ic := counter % BLOCK, counter / BLOCK;
    var r := m.xorIc(padded, nonce, ic);
    assert BLOCK * ic + pad == counter;
    forall j | 0 <= j < |p|
      ensures r[pad + j] == m.XorAt(nonce, counter, p)[j]
    {
      assert padded[pad + j] == padded[pad..][j] == p[j];
      assert BLOCK * ic + (pad + j) == counter + j;
    }
  }

  // ---------- sending ----------

  datatype Sender = Sender(init: bool, nonce: seq<byte>, counter: nat)

  /** One call of stream_encrypt: the first one emits the nonce, empty payload or not. */
  function SendBytes(m: Method, s: Sender, p: seq<byte>): seq<byte> {
    if s.init then m.XorAt(s.nonce, s.counter, p) else s.nonce + m.XorAt(s.nonce, 0, p)
  }

  function SendNext(s: Sender, p: seq<byte>): Sender {
    Sender(true, s.nonce, (if s.init then s.counter else 0) + |p|)
  }

  /** Every payload sent through one fresh context. */
  function SendAll(m: Method, nonce: seq<byte>, ps: seq<seq<byte>>): (seq<byte>, Sender) {
    if ps == [] then ([], Sender(false, nonce, 0))
    else
      var (bytes, s) := SendAll(m, nonce, ps[..|ps| - 1]);
      var p := ps[|ps| - 1];
      (bytes + SendBytes(m, s, p), SendNext(s, p))
  }

  /** However the plaintext is split over calls, the output is the nonce and then the plaintext under
      one keystream. */
  lemma {:induction false} SendAllIsOneXor(m: Method, nonce: seq<byte>, ps: seq<seq<byte>>)
    requires ps != []
    ensures SendAll(m, nonce, ps) ==
            (nonce + m.XorAt(nonce, 0, Flatten(ps)), Sender(true, nonce, |Flatten(ps)|))
  {
    var before, p := ps[..|ps| - 1], ps[|ps| - 1];
    if before == [] {
      assert Flatten(ps) == [] + p == p;
      assert [] + SendBytes(m, Sender(false, nonce, 0), p) == nonce + m.XorAt(nonce, 0, p);
    } else {
      SendAllIsOneXor(m, nonce, before);
      XorAtConcat(m, nonce, 0, Flatten(before), p);
      var sent, more := m.XorAt(nonce, 0, Flatten(before)), m.XorAt(nonce, |Flatten(before)|, p);
      assert nonce + sent + more == nonce + (sent + more);
    }
  }

  // ---------- receiving ----------

  /** init as for AEAD contexts; iv is what has arrived of the nonce. */
  datatype Receiver = Receiver(init: nat, iv: seq<byte>, counter: nat)

  const NEW := Receiver(0, [], 0)

  datatype Received = Received(status: Status, output: seq<byte>, next: Receiver, recorded: bool)

  /** How much of a fragment completes the nonce. */
  function IvPart(m: Method, r: Receiver, fragment: seq<byte>): nat {
    if r.init == 0 && |r.iv| <= m.nonceLen then Min(m.nonceLen - |r.iv|, |fragment|) else 0
  }

  /** One call of stream_decrypt; `reported` is what the filter says of the nonce during the call. */
  function Receive(m: Method, r: Receiver, fragment: seq<byte>, reported: bool): Received {
    var take := IvPart(m, r, fragment);
    var iv := r.iv + fragment[..take];
    if r.init != 0 then ReceiveData(m, r, fragment, reported)
    else if |iv| < m.nonceLen then Received(NeedMore, [], Receiver(0, iv, r.counter), false)
    else if reported then Received(Error, [], Receiver(1, iv, 0), false)
    else ReceiveData(m, Receiver(1, iv, 0), fragment[take..], reported)
  }

  function ReceiveData(m: Method, r: Receiver, data: seq<byte>, reported: bool): Received {
    if data == [] then Received(NeedMore, [], r, false)
    else
      var output := m.XorAt(r.iv, r.counter, data);
      if r.init == 1 && reported then Received(Error, output, r, false)
      else Received(OK, output, Receiver(2, r.iv, r.counter + |data|), r.init == 1)
  }

  /** Feed the fragments in order to a fresh receiver, the filter never reporting the nonce. */
  function Feed(m: Method, fragments: seq<seq<byte>>): (seq<byte>, Receiver) {
    if fragments == [] then ([], NEW)
    else
      var (output, r) := Feed(m, fragments[..|fragments| - 1]);
      var d := Receive(m, r, fragments[|fragments| - 1], false);
      (output + d.output, d.next)
  }

  /** None of the calls that feed the fragments fails. */
  predicate NoneFails(m: Method, fragments: seq<seq<byte>>) {
    fragments == [] ||
    (var before := fragments[..|fragments| - 1];
     NoneFails(m, before) && Receive(m, Feed(m, before).1, fragments[|fragments| - 1], false).status != Error)
  }

  /** The state after the bytes s, however they arrived. */
  ghost predicate Tracks(m: Method, s: seq<byte>, output: seq<byte>, r: Receiver) {
    if |s| < m.nonceLen then output == [] && r == Receiver(0, s, 0)
    else
      && output == m.XorAt(s[..m.nonceLen], 0, s[m.nonceLen..])
      && r.iv == s[..m.nonceLen] && r.counter == |output|
      && 0 < r.init
  }

  lemma TracksIv(m: Method, s: seq<byte>, fragment: seq<byte>)
    requires |s| < m.nonceLen
    ensures var d := Receive(m, Receiver(0, s, 0), fragment, false);
            d.status != Error && Tracks(m, s + fragment, d.output, d.next)
  {
    var take := Min(m.nonceLen - |s|, |fragment|);
    var whole := s + fragment;
    assert fragment == fragment[..take] + fragment[take..];
    if |whole| < m.nonceLen {
      assert whole == s + fragment[..take];
    } else {
      assert whole[..m.nonceLen] == s + fragment[..take];
      assert whole[m.nonceLen..] == fragment[take..];
    }
  }

  lemma TracksData(m: Method, s: seq<byte>, output: seq<byte>, r: Receiver, fragment: seq<byte>)
    requires |s| >= m.nonceLen && Tracks(m, s, output, r)
    ensures var d := Receive(m, r, fragment, false);
            d.status != Error && Tracks(m, s + fragment, output + d.output, d.next)
  {
    var iv, body := s[..m.nonceLen], s[m.nonceLen..];
    assert (s + fragment)[..m.nonceLen] == iv;
    assert (s + fragment)[m.nonceLen..] == body + fragment;
    XorAtConcat(m, iv, 0, body, fragment);
    assert fragment == [] ==> body + fragment == body;
    assert output + [] == output;
  }

  /** Fragmentation independence: no call fails, and together they have delivered exactly the bytes
      after the nonce under one keystream. */
  lemma {:induction false} FragmentationIndependent(m: Method, fragments: seq<seq<byte>>)
    requires 0 < m.nonceLen
    ensures NoneFails(m, fragments)
    ensures var (output, r) := Feed(m, fragments); Tracks(m, Flatten(fragments), output, r)
  {
    if fragments != [] {
      var before, last := fragments[..|fragments| - 1], fragments[|fragments| - 1];
      FragmentationIndependent(m, before);
      var (output, r) := Feed(m, before);
      if |Flatten(before)| < m.nonceLen {
        TracksIv(m, Flatten(before), last);
        assert [] + Receive(m, r, last, false).output == Receive(m, r, last, false).output;
      } else {
        TracksData(m, Flatten(before), output, r, last);
      }
    }
  }

  /** A call with a nonce that the filter reports fails as soon as the nonce is complete, before any data is accepted
      under it; the nonce of a context that has accepted data is no longer checked. */
  lemma ReplayRefused(m: Method, s: seq<byte>, output: seq<byte>, r: Receiver, fragment: seq<byte>)
    requires Tracks(m, s, output, r) && 0 < m.nonceLen && r.init <= 2
    ensures var d := Receive(m, r, fragment, true);
            && d.status == Error <==>
               r.init != 2 && |s + fragment| >= m.nonceLen && (r.init == 0 || fragment != [])
    ensures var d := Receive(m, r, fragment, true); !d.recorded && (d.next.init == 2 <==> r.init == 2)
  {
  }

  /** In how many of the first n calls the nonce is recorded. */
  function Records(m: Method, fragments: seq<seq<byte>>): nat {
    if fragments == [] then 0
    else
      var before := fragments[..|fragments| - 1];
      Records(m, before) + if Receive(m, Feed(m, before).1, fragments[|fragments| - 1], false).recorded then 1 else 0
  }

  /** The nonce is recorded exactly once, by the call that brings the first byte after it. */
  lemma {:induction false} RecordedOnce(m: Method, fragments: seq<seq<byte>>)
    requires 0 < m.nonceLen
    ensures Records(m, fragments) == if |Flatten(fragments)| > m.nonceLen then 1 else 0
    ensures Feed(m, fragments).1.init == 2 <==> |Flatten(fragments)| > m.nonceLen
    ensures Feed(m, fragments).1.init <= 2
  {
    if fragments != [] {
      var before := fragments[..|fragments| - 1];
      RecordedOnce(m, before);
      FragmentationIndependent(m, before);
    }
  }

  /** Any split of the plaintext over sends and any other split of the bytes over receives, even inside
      the nonce: what has been received is what was sent, as far as the bytes got. */
  lemma StreamCorrect(m: Method, nonce: seq<byte>, ps: seq<seq<byte>>, fragments: seq<seq<byte>>)
    requires 0 < m.nonceLen == |nonce| && ps != []
    requires Flatten(fragments) <= SendAll(m, nonce, ps).0
    ensures Feed(m, fragments).0 <= Flatten(ps)
    ensures |Feed(m, fragments).0| ==
            if |Flatten(fragments)| < m.nonceLen then 0 else |Flatten(fragments)| - m.nonceLen
  {
    var s, plain := Flatten(fragments), Flatten(ps);
    SendAllIsOneXor(m, nonce, ps);
    FragmentationIndependent(m, fragments);
    if |s| >= m.nonceLen {
      PrefixOfConcat(s, nonce, m.XorAt(nonce, 0, plain));
      PrefixUndone(m, nonce, plain, s[m.nonceLen..]);
    }
  }

  lemma PrefixUndone(m: Method, nonce: seq<byte>, plain: seq<byte>, body: seq<byte>)
    requires body <= m.XorAt(nonce, 0, plain)
    ensures m.XorAt(nonce, 0, body) == plain[..|body|]
  {
    assert body == m.XorAt(nonce, 0, plain[..|body|]);
    XorAtTwice(m, nonce, 0, plain[..|body|]);
  }
}
