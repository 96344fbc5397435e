/**
 The SOCKS5 side of ss-local (server_recv_cb and server_handshake of src/local.c): method selection, request, payload,
 however the client's bytes are cut into fragments; and the header it makes of the request, as ss-server reads it.
 */
module Socks5 {
  import opened Bytes
  import opened TcpHeader

  const SVERSION: byte := 5
  const METHOD_NOAUTH: byte := 0
  const CMD_CONNECT: byte := 1
  const CMD_UDP_ASSOCIATE: byte := 3

  datatype Phase = Init | Handshake | Streaming | Closed

  datatype Reply = NoAuth | Unacceptable | Succeeded | Associated | BadCommand | BadAddress

  /** buf is what is not yet used up; header is abuf; payload is what was passed on to server_stream. */
  datatype Local = Local(phase: Phase, buf: seq<byte>, header: seq<byte>, payload: seq<byte>, replies: seq<Reply>)

  const NEW := Local(Init, [], [], [], [])

  function Close(s: Local, reply: seq<Reply>): Local {
    s.(phase := Closed, buf := [], replies := s.replies + reply)
  }

  /** The length of a method selection, or 0 while it cannot be told. */
  function MethodLength(buf: seq<byte>): nat {
    if |buf| < 2 then 0 else 2 + buf[1] as int
  }

  /** STAGE_INIT */
  function Select(s: Local): Local {
    if s.phase != Init || |s.buf| < 1 then s
    else if s.buf[0] != SVERSION then Close(s, [])
    else if |s.buf| < 2 || |s.buf| < MethodLength(s.buf) then s
    else
      var n := MethodLength(s.buf);
      if METHOD_NOAUTH in s.buf[2..n] then s.(phase := Handshake, buf := s.buf[n..], replies := s.replies + [NoAuth])
      else Close(s, [Unacceptable])
  }

  /** The length of a CONNECT request, or 0 while it cannot be told, or for an address type that is not supported. */
  function RequestLength(buf: seq<byte>): nat {
    if |buf| < 4 then 0
    else if buf[3] == 1 then 10
    else if buf[3] == 3 then if |buf| < 5 then 0 else 7 + buf[4] as int
    else if buf[3] == 4 then 22
    else 0
  }

  predicate Supported(atyp: byte) {
    atyp == 1 || atyp == 3 || atyp == 4
  }

  /** STAGE_HANDSHAKE: server_handshake, when its reply can be sent and the remote can be created. */
  function Shake(s: Local): Local {
    if s.phase != Handshake || |s.buf| < 4 then s
    else if s.buf[1] == CMD_UDP_ASSOCIATE then s.(replies := s.replies + [Associated])
    else if s.buf[1] != CMD_CONNECT then Close(s, [BadCommand])
    else if !Supported(s.buf[3]) then Close(s, [BadAddress])
    else
      var n := RequestLength(s.buf);
      if n == 0 || |s.buf| < n then s
      else s.(phase := Streaming, buf := s.buf[n..], header := s.buf[3..n], replies := s.replies + [Succeeded])
  }

  /** STAGE_STREAM */
  function Drain(s: Local): Local {
    if s.phase != Streaming then s else s.(payload := s.payload + s.buf, buf := [])
  }

  /** server_recv_cb with a fragment. */
  function Feed(s: Local, fragment: seq<byte>): Local {
    if s.phase == Closed then s else Drain(Shake(Select(s.(buf := s.buf + fragment))))
  }

  /** A UDP ASSOCIATE request stays in the buffer, and is answered again with every fragment. */
  predicate Associating(s: Local) {
    s.phase == Handshake && |s.buf| >= 4 && s.buf[1] == CMD_UDP_ASSOCIATE
  }

  /** All but the replies. */
  function Mute(s: Local): Local {
    s.(replies := [])
  }

  // ---------- fragmentation ----------

  lemma SelectMore(s: Local, b: seq<byte>)
    requires s.phase == Init
    ensures var t, whole := Select(s), Select(s.(buf := s.buf + b));
            match t.phase
            case Init => t == s
            case Handshake => whole == t.(buf := t.buf + b)
            case Closed => whole == t
            case Streaming => false
  {
    if |s.buf| >= 2 && |s.buf| >= MethodLength(s.buf) {
      var n := MethodLength(s.buf);
      assert (s.buf + b)[2..n] == s.buf[2..n];
      assert (s.buf + b)[n..] == s.buf[n..] + b;
    }
  }

  lemma ShakeMore(s: Local, b: seq<byte>)
    requires s.phase == Handshake
    ensures var t, whole := Shake(s), Shake(s.(buf := s.buf + b));
            match t.phase
            case Init => false
            case Handshake => Mute(t) == Mute(s) && (t == s || (Associating(s) && whole == t.(buf := s.buf + b)))
            case Closed => whole == t
            case Streaming => whole == t.(buf := t.buf + b)
  {
    var n := RequestLength(s.buf);
    if n != 0 && |s.buf| >= n {
      assert (s.buf + b)[3..n] == s.buf[3..n];
      assert (s.buf + b)[n..] == s.buf[n..] + b;
    }
  }

  lemma DrainMore(s: Local, b: seq<byte>)
    requires s.phase == Streaming
    ensures Drain(s.(buf := s.buf + b)) == Drain(Drain(s).(buf := Drain(s).buf + b))
  {
    assert s.payload + (s.buf + b) == (s.payload + s.buf) + b;
    assert Drain(s).buf + b == b;
  }

  /** The rest of the loop after STAGE_INIT. */
  function Finish(s: Local): Local {
    Drain(Shake(s))
  }

  lemma FinishMore(s: Local, b: seq<byte>)
    requires s.phase == Handshake || s.phase == Streaming
    ensures var t, whole := Finish(s), Finish(s.(buf := s.buf + b));
            && (t.phase == Closed ==> whole == t)
            && (t.phase != Closed ==> t.phase == Handshake || t.phase == Streaming)
            && (t.phase != Closed ==> Mute(Finish(t.(buf := t.buf + b))) == Mute(whole))
            && (t.phase != Closed ==> (Finish(t.(buf := t.buf + b)) == whole <==> !Associating(t)))
  {
    if s.phase == Handshake {
      ShakeMore(s, b);
    }
    var t := Shake(s);
    if t.phase == Streaming {
      DrainMore(t, b);
    }
  }

  /** Cutting a fragment in two makes no difference to the phase, the header and the payload, and none to the replies
      unless a UDP ASSOCIATE request was in the buffer. */
  lemma FeedTwice(s: Local, a: seq<byte>, b: seq<byte>)
    ensures Mute(Feed(Feed(s, a), b)) == Mute(Feed(s, a + b))
    ensures Feed(Feed(s, a), b) == Feed(s, a + b) <==> !Associating(Feed(s, a))
  {
    if s.phase != Closed {
      var sa := s.(buf := s.buf + a);
      assert s.buf + (a + b) == sa.buf + b;
      var t := sa;
      if s.phase == Init {
        SelectMore(sa, b);
        t := Select(sa);
      }
      if t.phase == Handshake || t.phase == Streaming {
        FinishMore(t, b);
      }
    }
  }

  function FeedAll(s: Local, fragments: seq<seq<byte>>, n: nat): Local
    requires n <= |fragments|
  {
    if n == 0 then s else Feed(FeedAll(s, fragments, n - 1), fragments[n - 1])
  }

  lemma MuteFeed(s: Local, t: Local, f: seq<byte>)
    requires Mute(s) == Mute(t)
    ensures Mute(Feed(s, f)) == Mute(Feed(t, f))
  {
    var s1, t1 := s.(buf := s.buf + f), t.(buf := t.buf + f);
    MuteSelect(s1, t1);
    MuteShake(Select(s1), Select(t1));
  }

  lemma MuteSelect(s: Local, t: Local)
    requires Mute(s) == Mute(t)
    ensures Mute(Select(s)) == Mute(Select(t))
  {
  }

  lemma MuteShake(s: Local, t: Local)
    requires Mute(s) == Mute(t)
    ensures Mute(Drain(Shake(s))) == Mute(Drain(Shake(t)))
  {
    assert Mute(Shake(s)) == Mute(Shake(t));
  }

  lemma OneMore(s: Local, x: Local, before: seq<byte>, fragment: seq<byte>)
    requires Mute(x) == Mute(Feed(s, before))
    ensures Mute(Feed(x, fragment)) == Mute(Feed(s, before + fragment))
  {
    MuteFeed(x, Feed(s, before), fragment);
    FeedTwice(s, before, fragment);
  }

  lemma FlattenNext(fragments: seq<seq<byte>>, n: nat)
    requires 0 < n <= |fragments|
    ensures Flatten(fragments[..n]) == Flatten(fragments[..n - 1]) + fragments[n - 1]
  {
    assert fragments[..n][..n - 1] == fragments[..n - 1];
  }

  lemma {:induction false} FragmentsDoNotMatter(s: Local, fragments: seq<seq<byte>>, n: nat)
    requires n <= |fragments| && s.phase == Init && s.buf == []
    ensures Mute(FeedAll(s, fragments, n)) == Mute(Feed(s, Flatten(fragments[..n])))
  {
    if n == 0 {
      assert s.buf + Flatten(fragments[..0]) == [];
    } else {
      FragmentsDoNotMatter(s, fragments, n - 1);
      FlattenNext(fragments, n);
      OneMore(s, FeedAll(s, fragments, n - 1), Flatten(fragments[..n - 1]), fragments[n - 1]);
    }
  }

  /** A UDP ASSOCIATE request that comes with one byte more is answered once if they come together, and twice if not. */
  lemma AssociatedTwice()
    ensures var s := NEW.(phase := Handshake);
            var a, b := [5, 3, 0, 1], [0];
            |Feed(s, a + b).replies| == 1 && |Feed(Feed(s, a), b).replies| == 2
  {
    var s := NEW.(phase := Handshake);
    var a: seq<byte>, b: seq<byte> := [5, 3, 0, 1], [0];
    assert s.buf + a == a && s.buf + (a + b) == a + b;
    var t := Feed(s, a);
    assert t.buf == a && t.replies == [Associated];
  }

  // ---------- a CONNECT request ----------

  predicate WellFormed(t: Target) {
    |t.port| == 2 && match t
                     case Ip4(addr, _) => |addr| == 4
                     case Domain(name, _) => |name| < 256
                     case Ip6(addr, _) => |addr| == 16
  }

  /** The address header that names a target. */
  function Address(t: Target): seq<byte>
    requires WellFormed(t)
  {
    match t
    case Ip4(addr, port) => [1] + addr + port
    case Domain(name, port) => [3, |name| as byte] + name + port
    case Ip6(addr, port) => [4] + addr + port
  }

  /** Method selection, section 3 of RFC 1928. */
  function Selection(methods: seq<byte>): seq<byte>
    requires |methods| < 256
  {
    [SVERSION, |methods| as byte] + methods
  }

  /** A CONNECT request, section 4 of RFC 1928. */
  function Request(t: Target): seq<byte>
    requires WellFormed(t)
  {
    [SVERSION, CMD_CONNECT, 0] + Address(t)
  }

  lemma SelectionUnderstood(methods: seq<byte>, rest: seq<byte>)
    requires |methods| < 256 && METHOD_NOAUTH in methods
    ensures Select(NEW.(buf := Selection(methods) + rest)) == NEW.(phase := Handshake, buf := rest, replies := [NoAuth])
  {
    var buf := Selection(methods) + rest;
    var n := 2 + |methods|;
    assert buf[2..n] == methods && buf[n..] == rest;
  }

  lemma RequestUnderstood(t: Target, rest: seq<byte>, s: Local)
    requires WellFormed(t) && s.phase == Handshake && s.buf == Request(t) + rest
    ensures Shake(s) == s.(phase := Streaming, buf := rest, header := Address(t), replies := s.replies + [Succeeded])
  {
    var n := |Request(t)|;
    assert s.buf[0..3] == [SVERSION, CMD_CONNECT, 0] && s.buf[3] == Address(t)[0];
    assert t.Domain? ==> s.buf[4] == Address(t)[1];
    assert s.buf[3..n] == Address(t) && s.buf[n..] == rest;
  }

  /** A client that offers no authentication and asks for a target reaches the same header and leaves the same payload,
      however its bytes arrive. */
  lemma ConnectReached(methods: seq<byte>, t: Target, payload: seq<byte>, fragments: seq<seq<byte>>)
    requires |methods| < 256 && METHOD_NOAUTH in methods && WellFormed(t)
    requires Flatten(fragments) == Selection(methods) + (Request(t) + payload)
    ensures var s := FeedAll(NEW, fragments, |fragments|);
            s.phase == Streaming && s.header == Address(t) && s.payload == payload && s.buf == []
  {
    assert fragments[..|fragments|] == fragments;
    FragmentsDoNotMatter(NEW, fragments, |fragments|);
    var all := Selection(methods) + (Request(t) + payload);
    assert NEW.buf + all == all;
    SelectionUnderstood(methods, Request(t) + payload);
    RequestUnderstood(t, payload, Select(NEW.(buf := all)));
    assert Feed(NEW, all).payload == [] + payload;
  }

  /** The header is read by ss-server as the same target, and its length is the offset of the payload. */
  lemma HeaderUnderstood(t: Target, payload: seq<byte>, policy: Policy)
    requires WellFormed(t)
    requires t.Domain? ==> !policy.isBlocked(t.name) && (policy.isLiteral(t.name) || policy.isValid(t.name))
    ensures TcpHeader.Parse(Address(t) + payload, policy) ==
            Accepted(t, |Address(t)|, t.Domain? && !policy.isLiteral(t.name))
    ensures (Address(t) + payload)[|Address(t)|..] == payload
  {
    var p := Address(t) + payload;
    match t
    case Ip4(addr, port) =>
      assert p[1..5] == addr && p[5..7] == port;
    case Domain(name, port) =>
      var end := 2 + |name|;
      assert p[0] == 3 && p[1] == |name| && p[2..end] == name && p[end..end + 2] == port;
    case Ip6(addr, port) =>
      assert p[1..17] == addr && p[17..19] == port;
  }

  // ---------- what becomes of all that a client can send ----------

  /** A complete method selection that offers no authentication. */
  predicate Greeted(all: seq<byte>) {
    |all| >= 2 && all[0] == 5 && |all| >= 2 + all[1] as int && 0 in all[2..2 + all[1] as int]
  }

  /** What comes after it. */
  function Asked(all: seq<byte>): seq<byte>
    requires Greeted(all)
  {
    all[2 + all[1] as int..]
  }

  /** The end of the address and port in a CONNECT request that is there in full; version and reserved byte are not
      looked at. */
  function RequestEnd(a: seq<byte>): (end: Option<nat>)
    ensures end.Some? ==> 3 < end.value <= |a|
  {
    if |a| >= 10 && a[1] == 1 && a[3] == 1 then Some(3 + 1 + 4 + 2)
    else if |a| >= 5 && a[1] == 1 && a[3] == 3 && |a| >= 7 + a[4] as int then Some(3 + 1 + 1 + a[4] as int + 2)
    else if |a| >= 22 && a[1] == 1 && a[3] == 4 then Some(3 + 1 + 16 + 2)
    else None
  }

  predicate Associates(all: seq<byte>) {
    Greeted(all) && |Asked(all)| >= 4 && Asked(all)[1] == 3
  }

  /** The reply to a client that is turned away, if any. */
  function Refusal(all: seq<byte>): Option<seq<Reply>> {
    if |all| >= 1 && all[0] != 5 then Some([])
    else if |all| >= 2 && |all| >= 2 + all[1] as int && 0 !in all[2..2 + all[1] as int] then Some([Unacceptable])
    else if Greeted(all) && |Asked(all)| >= 4 && Asked(all)[1] != 1 && Asked(all)[1] != 3 then
      Some([NoAuth, BadCommand])
    else if Greeted(all) && |Asked(all)| >= 4 && Asked(all)[1] == 1 && Asked(all)[3] !in {1, 3, 4} then
      Some([NoAuth, BadAddress])
    else None
  }

  /** What one fragment with all the bytes leads to. */
  lemma FeedExactly(all: seq<byte>)
    ensures var s := Feed(NEW, all);
            if Refusal(all).Some? then s == Local(Closed, [], [], [], Refusal(all).value)
            else if !Greeted(all) then s == NEW.(buf := all)
            else if Associates(all) then s == Local(Handshake, Asked(all), [], [], [NoAuth, Associated])
            else if RequestEnd(Asked(all)).None? then s == Local(Handshake, Asked(all), [], [], [NoAuth])
            else
              var end := RequestEnd(Asked(all)).value;
              s == Local(Streaming, [], Asked(all)[3..end], Asked(all)[end..], [NoAuth, Succeeded])
  {
    assert NEW.buf + all == all && [] + all == all;
    if Greeted(all) {
      assert Select(NEW.(buf := all)) == Local(Handshake, Asked(all), [], [], [NoAuth]);
      AskedExactly(Asked(all));
    }
  }

  /** What a request leads to. */
  lemma AskedExactly(a: seq<byte>)
    ensures var s, end := Drain(Shake(Local(Handshake, a, [], [], [NoAuth]))), RequestEnd(a);
            if |a| < 4 then s == Local(Handshake, a, [], [], [NoAuth])
            else if a[1] == 3 then s == Local(Handshake, a, [], [], [NoAuth, Associated])
            else if a[1] != 1 then s == Local(Closed, [], [], [], [NoAuth, BadCommand])
            else if a[3] !in {1, 3, 4} then s == Local(Closed, [], [], [], [NoAuth, BadAddress])
            else if end.None? then s == Local(Handshake, a, [], [], [NoAuth])
            else s == Local(Streaming, [], a[3..end.value], a[end.value..], [NoAuth, Succeeded])
  {
    if RequestEnd(a).Some? {
      assert [] + a[RequestEnd(a).value..] == a[RequestEnd(a).value..];
    }
  }

  /** How many of the first n fragments come when a UDP ASSOCIATE request is there, or complete it. */
  function Associations(fragments: seq<seq<byte>>, n: nat): nat
    requires n <= |fragments|
  {
    if n == 0 then 0 else Associations(fragments, n - 1) + if Associates(Flatten(fragments[..n])) then 1 else 0
  }

  lemma AssociatesMore(a: seq<byte>, b: seq<byte>)
    requires Associates(a)
    ensures Associates(a + b) && Asked(a + b) == Asked(a) + b && Refusal(a + b).None?
  {
    var n := 2 + a[1] as int;
    assert (a + b)[2..n] == a[2..n];
    assert (a + b)[n..] == a[n..] + b;
  }

  function Repeated(k: nat): seq<Reply> {
    seq(k, _ => Associated)
  }

  /** The state after all these bytes, when a UDP ASSOCIATE request has been answered k times. */
  function Fed(all: seq<byte>, k: nat): Local {
    if Associates(all) then Local(Handshake, Asked(all), [], [], [NoAuth] + Repeated(k)) else Feed(NEW, all)
  }

  lemma FedMore(a: seq<byte>, f: seq<byte>, k: nat)
    requires !Associates(a) ==> k == 0
    ensures Feed(Fed(a, k), f) == Fed(a + f, if Associates(a + f) then k + 1 else k)
    ensures !Associates(a + f) ==> !Associates(a)
  {
    if Associates(a) {
      AssociatesMore(a, f);
      AnsweredAgain(a, f, k);
    } else {
      FeedExactly(a);
      FeedTwice(NEW, a, f);
      if Associates(a + f) {
        FeedExactly(a + f);
        assert [NoAuth] + Repeated(1) == [NoAuth, Associated];
      }
    }
  }

  /** The same for any fragments: only the answers to a UDP ASSOCIATE request depend on them, and there is one for each
      fragment that comes when the request is there. */
  lemma {:induction false} FedExactly(fragments: seq<seq<byte>>, n: nat)
    requires n <= |fragments|
    ensures FeedAll(NEW, fragments, n) == Fed(Flatten(fragments[..n]), Associations(fragments, n))
    ensures !Associates(Flatten(fragments[..n])) ==> Associations(fragments, n) == 0
  {
    if n == 0 {
      FeedExactly([]);
      assert Flatten(fragments[..0]) == [];
    } else {
      FedExactly(fragments, n - 1);
      FlattenNext(fragments, n);
      FedMore(Flatten(fragments[..n - 1]), fragments[n - 1], Associations(fragments, n - 1));
    }
  }

  lemma AnsweredAgain(a: seq<byte>, f: seq<byte>, k: nat)
    requires Associates(a)
    ensures Feed(Local(Handshake, Asked(a), [], [], [NoAuth] + Repeated(k)), f) ==
            Local(Handshake, Asked(a) + f, [], [], [NoAuth] + Repeated(k + 1))
  {
    assert Repeated(k + 1) == Repeated(k) + [Associated];
    assert [NoAuth] + (Repeated(k) + [Associated]) == [NoAuth] + Repeated(k) + [Associated];
  }

  // ---------- the callback ----------

  class LocalServer {
    var phase: Phase
    var buf: seq<byte>
    var abuf: seq<byte>
    var payload: seq<byte>
    var replies: seq<Reply>

    ghost function Current(): Local
      reads this
    {
      Local(phase, buf, abuf, payload, replies)
    }

    constructor ()
      ensures Current() == NEW
    {
      phase, buf, abuf, payload, replies := Init, [], [], [], [];
    }

    /** The scan of the offered methods. */
    method OffersNoAuth(methods: seq<byte>) returns (found: bool)
      ensures found <==> METHOD_NOAUTH in methods
    {
      for i := 0 to |methods|
        invariant METHOD_NOAUTH !in methods[..i]
      {
        if methods[i] == METHOD_NOAUTH {
          return true;
        }
      }
      assert methods[..|methods|] == methods;
      return false;
    }

    /** server_recv_cb when some bytes have arrived. */
    method ServerRecvCb(fragment: seq<byte>)
      requires phase != Closed
      modifies this
      ensures Current() == Feed(old(Current()), fragment)
    {
      buf := buf + fragment;
      ghost var start := Current();
      while true
        invariant phase != Closed && (phase == Init ==> Current() == start)
        invariant Drain(Shake(Select(Current()))) == Drain(Shake(Select(start)))
        invariant phase == Handshake ==> Current() == Select(start)
        decreases if phase == Init then 2 else if phase == Handshake then 1 else 0
      {
        match phase
        case Streaming =>
          payload, buf := payload + buf, [];
          return;
        case Init =>
          var more := SelectMethod();
          if !more {
            return;
          }
        case Handshake =>
          var ok := ServerHandshake();
          if !ok {
            return;
          }
      }
    }

    /** The branch of STAGE_INIT; the loop goes on if there is more to read. */
    method SelectMethod() returns (more: bool)
      requires phase == Init
      modifies this
      ensures Current() == Select(old(Current()))
      ensures more <==> phase == Handshake && buf != []
    {
      if |buf| < 1 {
        return false;
      }
      if buf[0] != SVERSION {
        phase, buf := Closed, [];
        return false;
      }
      if |buf| < 2 {
        return false;
      }
      var methodLen := 2 + buf[1] as int;
      if |buf| < methodLen {
        return false;
      }
      var found := OffersNoAuth(buf[2..methodLen]);
      if !found {
        replies := replies + [Unacceptable];
        phase, buf := Closed, [];
        return false;
      }
      replies := replies + [NoAuth];
      phase := Handshake;
      buf := buf[methodLen..];
      return buf != [];
    }

    /** server_handshake; the loop goes on to STAGE_STREAM if there is payload. */
    method ServerHandshake() returns (ok: bool)
      requires phase == Handshake
      modifies this
      ensures Current() == Shake(old(Current()))
      ensures ok <==> phase == Streaming && buf != []
    {
      if |buf| < 4 {
        return false;
      }
      if buf[1] == CMD_UDP_ASSOCIATE {
        replies := replies + [Associated];
        return false;
      } else if buf[1] != CMD_CONNECT {
        replies := replies + [BadCommand];
        phase, buf := Closed, [];
        return false;
      }
      var n;
      if buf[3] == 1 {
        n := 10;
      } else if buf[3] == 3 {
        if |buf| < 5 {
          return false;
        }
        n := 7 + buf[4] as int;
      } else if buf[3] == 4 {
        n := 22;
      } else {
        replies := replies + [BadAddress];
        phase, buf := Closed, [];
        return false;
      }
      if |buf| < n {
        return false;
      }
      abuf := buf[3..n];
      replies := replies + [Succeeded];
      phase := Streaming;
      buf := buf[n..];
      return buf != [];
    }
  }
}
