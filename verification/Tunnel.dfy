/**
 The whole way from a SOCKS5 client to its target: the handshake of ss-local, its AEAD context, the network, and the
 relay of ss-server with its own AEAD context.
 */
module Tunnel {
  import opened Bytes
  import opened Hiding
  import opened TcpHeader
  import opened RelaySpec
  import opened RelayWorld
  import opened RelayProof
  import opened RelayCodec
  import S = AeadSpec
  import A = AeadStream
  import L = Socks5

  /** A stream that has arrived whole has been delivered whole. */
  lemma WholeIsAll(c: S.Cipher, salt: seq<byte>, ps: seq<seq<byte>>, k: nat, tail: seq<byte>)
    requires c.Lawful() && S.AllFit(ps) && k <= |ps| && S.Cut(c, c.subkey(salt), 0, ps, k, tail)
    requires A.Wire(c, salt, ps) == A.Wire(c, salt, ps[..k]) + tail
    ensures Flatten(ps[..k]) == Flatten(ps)
  {
    var key := c.subkey(salt);
    var all, part := S.EncodeChunks(c, key, 0, ps), S.EncodeChunks(c, key, 0, ps[..k]) + tail;
    assert all == A.Wire(c, salt, ps)[|salt|..] == part;
    S.ParseSent(c, key, 0, ps, k, tail);
    assert ps[..|ps|] == ps && all + [] == all;
    S.ParseSent(c, key, 0, ps, |ps|, []);
  }

  lemma WholeIsLong(c: S.Cipher, salt: seq<byte>, ps: seq<seq<byte>>)
    requires c.Lawful() && |salt| == c.saltLen && S.AllFit(ps) && ps != []
    ensures |A.Wire(c, salt, ps)| > c.saltLen
  {
    var key := c.subkey(salt);
    assert |S.EncodeChunk(c, key, 0, ps[0])| > 0;
  }

  /** What is left of the first k payloads without the header is a part of what the client sent. */
  lemma PartOfPayload(head: seq<byte>, chunks: seq<seq<byte>>, k: nat)
    requires 0 < k <= |chunks| + 1
    ensures var ps := [head] + chunks;
            |head| <= |Flatten(ps[..k])| && Flatten(ps[..k])[|head|..] <= Flatten(chunks)
  {
    var ps := [head] + chunks;
    assert ps[..k] == [head] + chunks[..k - 1];
    FlattenCons(head, chunks[..k - 1]);
    FlattenPrefix(chunks, k - 1);
  }

  lemma {:induction false} FlattenPrefix(parts: seq<seq<byte>>, k: nat)
    requires k <= |parts|
    ensures Flatten(parts[..k]) <= Flatten(parts)
    decreases |parts| - k
  {
    if k == |parts| {
      assert parts[..k] == parts;
    } else {
      var more := parts[..k + 1];
      assert more[..|more| - 1] == parts[..k];
      FlattenPrefix(parts, k + 1);
    }
  }

  /** What has reached the target, or waits at the server to be sent to it. */
  ghost function Reached(w: World, s: Id): seq<byte>
    requires s in w.servers
  {
    var sv := w.servers[s];
    if Unread(sv) then []
    else if sv.remote in w.remotes then sv.log.upSent + UpPending(w.remotes[sv.remote])
    else Slice(sv.buf)
  }

  /** What the server has of a client is the payloads of whole chunks, without the header. */
  lemma ReachedIs(c: S.Cipher, salt: seq<byte>, ps: seq<seq<byte>>, head: seq<byte>, trace: seq<World>,
                  events: seq<Event>, policy: Policy, s: Id, n: nat)
    returns (k: nat)
    requires c.Lawful() && |salt| == c.saltLen && S.AllFit(ps) && ps != [] && head <= ps[0] && Accepts(policy, head)
    requires IsRun(trace, events, policy) && n <= |events| && s in trace[n].servers && Deciphers(c, events, s, n)
    requires Flatten(Arrived(events, s, n)) <= A.Wire(c, salt, ps)
    ensures k <= |ps| && trace[n].servers[s].stage != Stop
    ensures k == 0 ==> Reached(trace[n], s) == []
    ensures k > 0 ==> |head| <= |Flatten(ps[..k])| && Reached(trace[n], s) == Flatten(ps[..k])[|head|..]
    ensures Flatten(Arrived(events, s, n)) == A.Wire(c, salt, ps) ==> Flatten(ps[..k]) == Flatten(ps) && k > 0
  {
    var tail;
    k, tail := EndToEnd(c, salt, ps, head, trace, events, policy, s, n);
    RunKeeps(trace, events, policy, n);
    ServerFacts(trace[n], s);
    if Flatten(Arrived(events, s, n)) == A.Wire(c, salt, ps) {
      WholeIsLong(c, salt, ps);
      WholeIsAll(c, salt, ps, k, tail);
      FirstIsFirst(ps, |ps|);
      assert ps[..|ps|] == ps && ps[..0] == [];
    }
  }

  /** The same from ss-local on, for any header that the server accepts. */
  lemma LocalToTarget(head: seq<byte>, chunks: seq<seq<byte>>, c: S.Cipher, salt: seq<byte>, trace: seq<World>,
                      events: seq<Event>, policy: Policy, s: Id, n: nat)
    requires S.Fits(head) && S.AllFit(chunks) && Accepts(policy, head) && c.Lawful() && |salt| == c.saltLen
    requires IsRun(trace, events, policy) && n <= |events| && s in trace[n].servers && Deciphers(c, events, s, n)
    ensures S.AllFit([head] + chunks)
    ensures var arrived, sent := Flatten(Arrived(events, s, n)), A.SendAll(c, salt, [head] + chunks).bytes;
            && (arrived <= sent ==> trace[n].servers[s].stage != Stop && Reached(trace[n], s) <= Flatten(chunks))
            && (arrived == sent ==> Reached(trace[n], s) == Flatten(chunks))
  {
    var ps := [head] + chunks;
    assert S.AllFit(ps);
    A.SendAllIsWire(c, salt, ps);
    if Flatten(Arrived(events, s, n)) <= A.Wire(c, salt, ps) {
      var k := ReachedIs(c, salt, ps, head, trace, events, policy, s, n);
      if k > 0 {
        PartOfPayload(head, chunks, k);
      }
      FlattenCons(head, chunks);
    }
  }

  /** A client that offers no authentication, among its methods, asks ss-local for target t and sends a payload, all in
      any fragments; local is what ss-local makes of them. */
  ghost predicate Asks(methods: seq<byte>, t: Target, payload: seq<byte>, fragments: seq<seq<byte>>, local: L.Local) {
    forall k {:trigger InClient(k)} :: InClient(k) ==>
      && |methods| < 256 && L.METHOD_NOAUTH in methods && L.WellFormed(t)
      && Flatten(fragments) == L.Selection(methods) + (L.Request(t) + payload)
      && local == L.FeedAll(L.NEW, fragments, |fragments|)
  }

  /** The server's policy lets the target pass. */
  predicate Allows(policy: Policy, t: Target) {
    t.Domain? ==> !policy.isBlocked(t.name) && (policy.isLiteral(t.name) || policy.isValid(t.name))
  }

  lemma LocalReaches(methods: seq<byte>, t: Target, payload: seq<byte>, fragments: seq<seq<byte>>, local: L.Local,
                     policy: Policy)
    requires Asks(methods, t, payload, fragments, local) && Allows(policy, t)
    ensures local.payload == payload && S.Fits(local.header) && Accepts(policy, local.header)
  {
    assert InClient(0);
    L.ConnectReached(methods, t, payload, fragments);
    AddressAccepted(t, policy);
    AddressFits(t);
  }

  /** From a SOCKS5 client to its target. The client asks for target t and sends a payload. ss-local encrypts the
      header by itself and then the payload, in any chunks, and the network brings any part of that, in any
      fragments, to ss-server, whose policy lets the target pass. In every run of ss-server, with any other
      connections beside this one, what was sent to the target and what waits to be sent are together the beginning
      of the payload, and all of it once everything has arrived. */
  lemma ClientToTarget(methods: seq<byte>, t: Target, payload: seq<byte>, fragments: seq<seq<byte>>, local: L.Local,
                       chunks: seq<seq<byte>>, c: S.Cipher, salt: seq<byte>, trace: seq<World>, events: seq<Event>,
                       policy: Policy, s: Id, n: nat)
    requires Asks(methods, t, payload, fragments, local) && Allows(policy, t)
    requires S.AllFit(chunks) && Flatten(chunks) == local.payload && c.Lawful() && |salt| == c.saltLen
    requires IsRun(trace, events, policy) && n <= |events| && s in trace[n].servers && Deciphers(c, events, s, n)
    ensures S.AllFit([local.header] + chunks)
    ensures var arrived, sent := Flatten(Arrived(events, s, n)), A.SendAll(c, salt, [local.header] + chunks).bytes;
            && (arrived <= sent ==> trace[n].servers[s].stage != Stop && Reached(trace[n], s) <= payload)
            && (arrived == sent ==> Reached(trace[n], s) == payload)
  {
    LocalReaches(methods, t, payload, fragments, local, policy);
    LocalToTarget(local.header, chunks, c, salt, trace, events, policy, s, n);
  }

  lemma AddressFits(t: Target)
    requires L.WellFormed(t)
    ensures S.Fits(L.Address(t))
  {
  }
}
