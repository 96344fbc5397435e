/**
 The server, remote and query objects of src/server.c on the heap, with real pointers to one another, and what the
 callbacks do to one server and its remote in place. A buffer is its three fields, as in buffer_t.
 */
module TcpObjects {
  import opened Bytes
  import opened Hiding
  import opened RelaySpec
  import opened RelayWorld

  class ServerObj {
    /** The number of the object in the specification. */
    ghost const id: Id
    var stage: Stage
    var data: seq<byte>
    var idx: nat
    var len: nat
    var recvOn: bool
    var sendOn: bool
    var remote: RemoteObj?
    var query: QueryObj?
    ghost var log: Log

    /** new_server */
    constructor (ghost id: Id)
      ensures this.id == id && AbsServer(this) == NEW_SERVER && remote == null && query == null
    {
      this.id := id;
      stage, data, idx, len, recvOn, sendOn := Init, [], 0, 0, true, false;
      remote, query, log := null, null, Log([], [], [], []);
    }
  }

  class RemoteObj {
    ghost const id: Id
    var data: seq<byte>
    var idx: nat
    var len: nat
    var recvOn: bool
    var sendOn: bool
    var connected: bool
    var server: ServerObj?

    /** new_remote, with the watchers and the link that its caller sets. */
    constructor (ghost id: Id, server: ServerObj, data: seq<byte>)
      ensures this.id == id && this.server == server
      ensures AbsRemote(this) == Remote(Buf(data, 0, |data|), false, true, false, server.id)
    {
      this.id := id;
      this.data, idx, len, recvOn, sendOn, connected, this.server := data, 0, |data|, false, true, false, server;
    }
  }

  /** A query of server.c, with the state of its two lookups in resolv.c. */
  class QueryObj {
    ghost const id: Id
    var server: ServerObj?
    var v4: bool
    var v6: bool
    var responses: seq<Sockaddr>

    constructor (ghost id: Id, server: ServerObj)
      ensures this.id == id && this.server == server && AbsQuery(this) == Query(server.id, true, true, [])
    {
      this.id := id;
      this.server, v4, v6, responses := server, true, true, [];
    }
  }

  // ---------- what the objects stand for ----------

  ghost function ServerId(p: ServerObj?): Id {
    if p == null then NULL else p.id
  }

  ghost function RemoteId(p: RemoteObj?): Id {
    if p == null then NULL else p.id
  }

  ghost function QueryId(p: QueryObj?): Id {
    if p == null then NULL else p.id
  }

  ghost function AbsServer(o: ServerObj): Server
    reads o
  {
    Server(o.stage, Buf(o.data, o.idx, o.len), o.recvOn, o.sendOn, RemoteId(o.remote), QueryId(o.query), o.log)
  }

  ghost function AbsRemote(o: RemoteObj): Remote
    reads o
  {
    Remote(Buf(o.data, o.idx, o.len), o.recvOn, o.sendOn, o.connected, ServerId(o.server))
  }

  ghost function AbsQuery(o: QueryObj): Query
    reads o
  {
    Query(ServerId(o.server), o.v4, o.v6, o.responses)
  }

  /** The bytes from idx on that are still to be sent. */
  function Pending(data: seq<byte>, idx: nat, len: nat): seq<byte> {
    Slice(Buf(data, idx, len))
  }

  // ---------- a server and its remote ----------

  /** server_recv_cb in STAGE_STREAM: send what was decrypted. The answer says that both ends must be closed. */
  method SendToRemote(server: ServerObj, remote: RemoteObj, p: seq<byte>, sent: Sent, ghost pair: Pair)
    returns (closed: bool)
    requires pair == StreamUp(AbsServer(server), AbsRemote(remote), p, sent)
    modifies server`recvOn, server`log, remote`data, remote`idx, remote`len, remote`sendOn
    ensures pair == if closed then Closed else Both(AbsServer(server), AbsRemote(remote))
    ensures closed ==> AbsServer(server) == old(AbsServer(server)) && AbsRemote(remote) == old(AbsRemote(remote))
  {
    if sent.Fail? {
      return true;
    }
    remote.data, remote.len := p, |p|;
    server.log := server.log.(up := server.log.up + p);
    if sent.Again? {
      remote.idx := 0;
      server.recvOn := false;
      remote.sendOn := true;
    } else if sent.n < remote.len {
      remote.len := remote.len - sent.n;
      remote.idx := sent.n;
      server.recvOn := false;
      remote.sendOn := true;
      server.log := server.log.(upSent := server.log.upSent + p[..sent.n]);
    } else {
      server.log := server.log.(upSent := server.log.upSent + p);
    }
    return false;
  }

  /** server_recv_cb in STAGE_STREAM: what was received goes through the remote's buffer. */
  method ReceiveForRemote(server: ServerObj, remote: RemoteObj, raw: seq<byte>, d: Decrypted, sent: Sent,
                          ghost pair: Pair)
    returns (closed: bool)
    requires pair == Streamed(AbsServer(server), AbsRemote(remote), raw, d, sent)
    modifies server`stage, server`recvOn, server`log, remote`data, remote`idx, remote`len, remote`sendOn
    ensures pair == if closed then Closed else Both(AbsServer(server), AbsRemote(remote))
    ensures closed ==> AbsServer(server) == old(AbsServer(server)) && AbsRemote(remote) == old(AbsRemote(remote))
  {
    if d.Plain? {
      closed := SendToRemote(server, remote, d.p, sent, pair);
    } else {
      closed := false;
      remote.data, remote.len := raw, |raw|;
      if d.Bad? {
        server.stage := Stop;
      }
    }
  }

  /** remote_send_cb */
  method FlushToRemote(server: ServerObj, remote: RemoteObj, peer: bool, sent: Sent, ghost pair: Pair)
    returns (closed: bool)
    requires pair == FlushUp(AbsServer(server), AbsRemote(remote), peer, sent)
    modifies server`stage, server`recvOn, server`log
    modifies remote`idx, remote`len, remote`sendOn, remote`recvOn, remote`connected
    ensures pair == if closed then Closed else Both(AbsServer(server), AbsRemote(remote))
    ensures closed ==> AbsServer(server) == old(AbsServer(server)) && AbsRemote(remote) == old(AbsRemote(remote))
  {
    if !remote.connected {
      if !peer {
        return true;
      }
      if remote.len == 0 {
        remote.connected := true;
        server.stage := Stream;
        remote.sendOn := false;
        server.recvOn := true;
        remote.recvOn := true;
        return false;
      }
    }
    if remote.len == 0 || sent.Fail? {
      return true;
    }
    remote.connected := true;
    closed := false;
    if sent.Sent? {
      SendPending(server, remote, sent.n);
    }
  }

  /** The end of remote_send_cb: n bytes have been sent. */
  method SendPending(server: ServerObj, remote: RemoteObj, n: nat)
    requires remote.len > 0
    modifies server`stage, server`recvOn, server`log, remote`idx, remote`len, remote`sendOn, remote`recvOn
    ensures SendUp(old(AbsServer(server)), old(AbsRemote(remote)), Sent(n)) ==
            Both(AbsServer(server), AbsRemote(remote))
  {
    if n < remote.len {
      server.log := server.log.(upSent := server.log.upSent + Take(Buf(remote.data, remote.idx, remote.len), n));
      remote.len := remote.len - n;
      remote.idx := remote.idx + n;
    } else {
      server.log := server.log.(upSent := server.log.upSent + Pending(remote.data, remote.idx, remote.len));
      remote.len := 0;
      remote.idx := 0;
      remote.sendOn := false;
      server.recvOn := true;
      if server.stage != Stream {
        server.stage := Stream;
        remote.recvOn := true;
      }
    }
  }

  /** remote_recv_cb: send what was encrypted. */
  method SendToClient(server: ServerObj, remote: RemoteObj, c: seq<byte>, sent: Sent, ghost pair: Pair)
    returns (closed: bool)
    requires pair == StreamDown(AbsServer(server), AbsRemote(remote), c, sent)
    modifies server`data, server`idx, server`len, server`sendOn, server`log, remote`recvOn
    ensures pair == if closed then Closed else Both(AbsServer(server), AbsRemote(remote))
    ensures closed ==> AbsServer(server) == old(AbsServer(server)) && AbsRemote(remote) == old(AbsRemote(remote))
  {
    if sent.Fail? {
      return true;
    }
    server.data, server.len := c, |c|;
    server.log := server.log.(down := server.log.down + c);
    if sent.Again? {
      server.idx := 0;
      remote.recvOn := false;
      server.sendOn := true;
    } else if sent.n < server.len {
      server.len := server.len - sent.n;
      server.idx := sent.n;
      remote.recvOn := false;
      server.sendOn := true;
      server.log := server.log.(downSent := server.log.downSent + c[..sent.n]);
    } else {
      server.log := server.log.(downSent := server.log.downSent + c);
    }
    return false;
  }

  /** server_send_cb */
  method FlushToClient(server: ServerObj, remote: RemoteObj, sent: Sent, ghost pair: Pair) returns (closed: bool)
    requires pair == FlushDown(AbsServer(server), AbsRemote(remote), sent)
    modifies server`idx, server`len, server`sendOn, server`log, remote`recvOn
    ensures pair == if closed then Closed else Both(AbsServer(server), AbsRemote(remote))
    ensures closed ==> AbsServer(server) == old(AbsServer(server)) && AbsRemote(remote) == old(AbsRemote(remote))
  {
    if server.len == 0 || sent.Fail? {
      return true;
    }
    closed := false;
    if sent.Sent? {
      if sent.n < server.len {
        server.log := server.log.(downSent := server.log.downSent +
          Take(Buf(server.data, server.idx, server.len), sent.n));
        server.len := server.len - sent.n;
        server.idx := server.idx + sent.n;
      } else {
        server.log := server.log.(downSent := server.log.downSent + Pending(server.data, server.idx, server.len));
        server.len := 0;
        server.idx := 0;
        server.sendOn := false;
        remote.recvOn := true;
      }
    }
  }

  /** The buffer work after connect_to_remote: n bytes are sent already, and what is left moves to the new remote. */
  method MoveBuffer(server: ServerObj, n: nat, ghost sv: Server) returns (payload: seq<byte>)
    requires sv == AbsServer(server)
    modifies server`idx, server`len, server`log
    ensures var m := if n <= sv.buf.len then n else sv.buf.len;
            var buf := sv.buf.(idx := sv.buf.idx + m, len := sv.buf.len - m);
            && payload == (if buf.len > 0 then Slice(buf) else [])
            && AbsServer(server) == sv.(buf := if buf.len > 0 then buf.(idx := 0, len := 0) else buf,
                                        log := sv.log.(upSent := sv.log.upSent + Take(sv.buf, m)))
  {
    var m := if n <= server.len then n else server.len;
    server.log := server.log.(upSent := server.log.upSent + Take(Buf(server.data, server.idx, server.len), m));
    server.idx := server.idx + m;
    server.len := server.len - m;
    payload := [];
    if server.len > 0 {
      payload := Pending(server.data, server.idx, server.len);
      server.len := 0;
      server.idx := 0;
    }
  }

  /** The pair is what linking makes of the server. */
  ghost predicate Attaches(pair: Pair, sv: Server, s: Id, r: Id, n: nat) {
    forall k {:trigger InAttach(k)} :: InAttach(k) ==> pair == Attach(sv, s, r, n)
  }

  /** A new remote for a server: each points at the other, and the payload so far moves over. */
  method AttachRemote(server: ServerObj, n: nat, ghost r: Id, ghost pair: Pair) returns (remote: RemoteObj)
    requires Fits(Buf(server.data, server.idx, server.len)) && Attaches(pair, AbsServer(server), server.id, r, n)
    modifies server`idx, server`len, server`log, server`remote
    ensures fresh(remote) && remote.id == r && server.remote == remote && remote.server == server
    ensures pair == Both(AbsServer(server), AbsRemote(remote))
  {
    assert InAttach(0);
    ghost var sv := AbsServer(server);
    var payload := MoveBuffer(server, n, sv);
    remote := new RemoteObj(r, server, payload);
    server.remote := remote;
  }

  /** The server's buffer and watcher once the header is read. */
  method KeepPayload(server: ServerObj, p: seq<byte>, offset: nat, ghost sv: Server)
    requires offset <= |p| && sv == AbsServer(server)
    modifies server`data, server`idx, server`len, server`recvOn, server`log
    ensures AbsServer(server) == AfterHeader(sv, p, offset)
  {
    server.data, server.idx, server.len := p, offset, |p| - offset;
    server.recvOn := false;
    server.log := server.log.(up := p[offset..]);
  }

  /** The server's buffer holds what was received, and it may be stopped. */
  method Fill(server: ServerObj, p: seq<byte>, stop: bool, ghost sv: Server)
    requires sv == AbsServer(server)
    modifies server`data, server`len, server`stage
    ensures AbsServer(server) == sv.(buf := Buf(p, sv.buf.idx, |p|), stage := if stop then Stop else sv.stage)
  {
    server.data, server.len := p, |p|;
    if stop {
      server.stage := Stop;
    }
  }

  /** One lookup is answered. */
  method Note(query: QueryObj, v4: bool, found: seq<Sockaddr>, ghost qu: Query)
    requires qu == AbsQuery(query)
    modifies query`v4, query`v6, query`responses
    ensures AbsQuery(query) == Noted(qu, v4, found)
  {
    query.responses := query.responses + found;
    if v4 {
      query.v4 := false;
    } else {
      query.v6 := false;
    }
  }
}
