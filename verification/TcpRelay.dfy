/**
 The callbacks of src/server.c and src/resolv.c on heap objects. Each follows real pointers and updates the objects in
 place, and does to the world that they mirror what the specification says.
 */
module TcpRelay {
  import opened Bytes
  import opened Hiding
  import opened TcpHeader
  import opened RelaySpec
  import opened RelayWorld
  import opened RelayProof
  import opened TcpObjects
  import opened TcpHeap

  // ---------- a server and its remote ----------

  /** server_send_cb, on a server with a remote. */
  method ServerSendPair(ghost h: Heap, ghost w: World, server: ServerObj, remote: RemoteObj, sent: Sent,
                        ghost pair: Pair)
    returns (ghost h': Heap, ghost w': World)
    requires Taken(h, w, server, remote) && pair == FlushDown(AbsServer(server), AbsRemote(remote), sent)
    modifies h.servers.Values, h.remotes.Values, h.queries.Values`server
    ensures w' == Bind(w, server.id, pair) && Mirrors(h', w')
  {
    var closed := FlushToClient(server, remote, sent, pair);
    h', w' := Settle(h, w, server, remote, closed, pair);
  }

  /** server_send_cb */
  method OnServerSend(ghost h: Heap, ghost w: World, server: ServerObj, sent: Sent)
    returns (ghost h': Heap, ghost w': World)
    requires Mirrors(h, w) && Inv(w) && ServerLive(h, server) && server.sendOn
    modifies h.servers.Values, h.remotes.Values, h.queries.Values`server
    ensures w' == Flushed(w, server.id, sent) && Mirrors(h', w')
  {
    TakeServer(h, w.servers, server);
    ServerFacts(w, server.id);
    TakenFrom(h, w, server);
    h', w' := ServerSendPair(h, w, server, server.remote, sent,
                             FlushDown(AbsServer(server), AbsRemote(server.remote), sent));
  }

  /** remote_send_cb, on a remote with a server. */
  method RemoteSendPair(ghost h: Heap, ghost w: World, server: ServerObj, remote: RemoteObj, peer: bool, sent: Sent,
                        ghost pair: Pair)
    returns (ghost h': Heap, ghost w': World)
    requires Taken(h, w, server, remote) && pair == FlushUp(AbsServer(server), AbsRemote(remote), peer, sent)
    modifies h.servers.Values, h.remotes.Values, h.queries.Values`server
    ensures w' == Bind(w, server.id, pair) && Mirrors(h', w')
  {
    var closed := FlushToRemote(server, remote, peer, sent, pair);
    h', w' := Settle(h, w, server, remote, closed, pair);
  }

  /** remote_send_cb; that its server is gone while it has data to send does not happen. */
  method OnRemoteSend(ghost h: Heap, ghost w: World, remote: RemoteObj, peer: bool, sent: Sent)
    returns (ghost h': Heap, ghost w': World)
    requires Mirrors(h, w) && Inv(w) && RemoteLive(h, remote) && remote.sendOn
    modifies h.servers.Values, h.remotes.Values, h.queries.Values`server
    ensures w' == Pushed(w, remote.id, peer, sent) && Mirrors(h', w')
  {
    RemotePair(h, w, remote);
    RemoteFacts(w, remote.id);
    var server := remote.server;
    TakenFrom(h, w, server);
    h', w' := RemoteSendPair(h, w, server, remote, peer, sent,
                             FlushUp(AbsServer(server), AbsRemote(remote), peer, sent));
  }

  /** remote_recv_cb, once something was encrypted for a server that is not stopped. */
  method RemoteRecvPair(ghost h: Heap, ghost w: World, server: ServerObj, remote: RemoteObj, c: seq<byte>, sent: Sent,
                        ghost pair: Pair)
    returns (ghost h': Heap, ghost w': World)
    requires Taken(h, w, server, remote) && pair == StreamDown(AbsServer(server), AbsRemote(remote), c, sent)
    modifies h.servers.Values, h.remotes.Values, h.queries.Values`server
    ensures w' == Bind(w, server.id, pair) && Mirrors(h', w')
  {
    var closed := SendToClient(server, remote, c, sent, pair);
    h', w' := Settle(h, w, server, remote, closed, pair);
  }

  /** recv into the buffer of a stopped server. */
  method Overrun(ghost h: Heap, ghost w: World, server: ServerObj, raw: seq<byte>)
    requires Mirrors(h, w) && ServerLive(h, server)
    modifies server`data
    ensures server.id in w.servers
    ensures var sv := w.servers[server.id];
            Mirrors(h, w.(servers := w.servers[server.id := sv.(buf := Overwrite(sv.buf, raw))]))
  {
    TakeServer(h, w.servers, server);
    ghost var sv := w.servers[server.id];
    server.data := raw + if |raw| <= |server.data| then server.data[|raw|..] else [];
    PutServer(h, w.servers, server, sv.(buf := Overwrite(sv.buf, raw)));
  }

  /** remote_recv_cb */
  method OnRemoteRecv(ghost h: Heap, ghost w: World, remote: RemoteObj, chunk: FromRemote, sent: Sent)
    returns (ghost h': Heap, ghost w': World)
    requires Mirrors(h, w) && Inv(w) && RemoteLive(h, remote)
    modifies h.servers.Values, h.remotes.Values, h.queries.Values`server
    ensures w' == Answered(w, remote.id, chunk, sent) && Mirrors(h', w')
  {
    NoNull(h, w);
    InvLinks(w);
    RemotePair(h, w, remote);
    h', w' := h, w;
    var server := remote.server;
    if server == null {
      h', w' := CloseAndFreeRemote(h, w, remote);
      return;
    }
    TakeServer(h, w.servers, server);
    if chunk.RemoteNoData? {
      return;
    }
    if chunk.RemoteEof? || chunk.RemoteBroken? || (server.stage != Stop && !chunk.ok) {
      h', w' := ClosePair(h, w, server, remote);
      return;
    }
    if server.stage == Stop {
      Overrun(h, w, server, chunk.raw);
      ghost var sv := w.servers[server.id];
      w' := w.(servers := w.servers[server.id := sv.(buf := Overwrite(sv.buf, chunk.raw))]);
      return;
    }
    TakenFrom(h, w, server);
    h', w' := RemoteRecvPair(h, w, server, remote, chunk.c, sent,
                             StreamDown(AbsServer(server), AbsRemote(remote), chunk.c, sent));
  }

  /** server_timeout_cb */
  method OnServerTimeout(ghost h: Heap, ghost w: World, server: ServerObj) returns (ghost h': Heap, ghost w': World)
    requires Mirrors(h, w) && Inv(w) && ServerLive(h, server)
    modifies h.servers.Values`remote, h.remotes.Values`server, h.queries.Values`server
    ensures w' == CloseBoth(w, server.id) && Mirrors(h', w')
  {
    InvLinks(w);
    TakeServer(h, w.servers, server);
    h', w' := ClosePair(h, w, server, server.remote);
  }

  // ---------- the start of a connection ----------

  /** Linking a new remote, both ways, to a server that is taken out of the heap. */
  method LinkOut(ghost h: Heap, ghost w: World, server: ServerObj, n: nat, ghost pair: Pair) returns (ghost h': Heap)
    requires OneOut(h, w, server) && QueryLive(h, server.query) && w.next != NULL && w.next !in h.remotes
    requires Fits(Buf(server.data, server.idx, server.len)) && Attaches(pair, AbsServer(server), server.id, w.next, n)
    modifies server
    ensures pair.Both? && Mirrors(h', Bind(w, server.id, pair)) && h'.queries == h.queries && h'.servers == h.servers
  {
    var remote := AttachRemote(server, n, w.next, pair);
    PutLinked(h, w, server, remote);
    h' := WithRemote(h, w.next, remote);
  }

  /** Linking a new remote to a server of the heap. */
  method LinkRemote(ghost h: Heap, ghost w: World, server: ServerObj, n: nat, ghost pair: Pair)
    returns (ghost h': Heap, ghost w': World)
    requires Mirrors(h, w) && ServerLive(h, server) && w.next != NULL && w.next !in h.remotes
    requires server.id in w.servers && Ready(w.servers[server.id])
    requires Attaches(pair, w.servers[server.id], server.id, w.next, n)
    modifies server
    ensures w' == Bind(w.(next := w.next + 1), server.id, pair) && Mirrors(h', w')
    ensures h'.queries == h.queries && h'.servers == h.servers
  {
    TakeOne(h, w, server);
    h' := LinkOut(h, w, server, n, pair);
    w' := Bind(w.(next := w.next + 1), server.id, pair);
    BindNext(h', w, server.id, pair, w.next + 1);
  }

  /** The number of the next object does not matter to those that are there. */
  lemma BindNext(h: Heap, w: World, s: Id, pair: Pair, next: Id)
    requires Mirrors(h, Bind(w, s, pair)) && pair.Both?
    ensures Mirrors(h, Bind(w.(next := next), s, pair))
  {
  }

  // ---------- server_recv_cb ----------

  /** Only pointers matter to the closing of a server, and to what is linked. */
  lemma SamePointers(w: World, s: Id, sv: Server)
    requires s in w.servers && sv.remote == w.servers[s].remote && sv.query == w.servers[s].query
    ensures CloseServer(w.(servers := w.servers[s := sv]), s) == CloseServer(w, s)
    ensures Links(w) ==> Links(w.(servers := w.servers[s := sv]))
  {
    assert InLinks(0);
    assert w.servers[s := sv] - {s} == w.servers - {s};
  }

  /** connect_to_remote, and the linking that follows, for a server that is in order. */
  method ConnectToRemote(ghost h: Heap, ghost w: World, server: ServerObj, connect: Connect)
    returns (ghost h': Heap, ghost w': World)
    requires Mirrors(h, w) && Links(w) && ServerLive(h, server) && w.next != NULL && w.next !in h.remotes
    requires server.id in w.servers && Ready(w.servers[server.id])
    modifies server, h.remotes.Values`server, h.queries.Values`server
    ensures w' == Linked(w, server.id, w.servers[server.id], connect) && Mirrors(h', w')
    ensures h'.queries == h.queries && h'.servers.Values <= h.servers.Values
  {
    match connect
    case Refused => h', w' := CloseAndFreeServer(h, w, server);
    case Opened(n) => h', w' := LinkRemote(h, w, server, n, Attach(w.servers[server.id], server.id, w.next, n));
  }

  lemma LinkedSame(w: World, s: Id, sv: Server, connect: Connect)
    requires s in w.servers && sv.remote == w.servers[s].remote && sv.query == w.servers[s].query
    ensures Linked(w.(servers := w.servers[s := sv]), s, sv, connect) == Linked(w, s, sv, connect)
  {
    SamePointers(w, s, sv);
    var w1 := w.(servers := w.servers[s := sv]);
    if connect.Opened? {
      var pair := Attach(sv, s, w.next, connect.n);
      assert w1.servers[s := pair.sv] == w.servers[s := pair.sv];
    }
  }

  /** The server's buffer and watcher once the header is read. */
  method TakeHeader(ghost h: Heap, ghost w: World, server: ServerObj, p: seq<byte>, offset: nat)
    returns (ghost ready: Server)
    requires Mirrors(h, w) && ServerLive(h, server) && server.id in w.servers && offset <= |p|
    modifies server`data, server`idx, server`len, server`recvOn, server`log
    ensures ready == AfterHeader(w.servers[server.id], p, offset)
    ensures Mirrors(h, w.(servers := w.servers[server.id := ready]))
  {
    TakeOne(h, w, server);
    KeepPayload(server, p, offset, w.servers[server.id]);
    ready := AbsServer(server);
    PutOne(h, w, server);
  }

  /** The server's buffer holds what was received, and it may be stopped. */
  method Refill(ghost h: Heap, ghost w: World, server: ServerObj, p: seq<byte>, stop: bool) returns (ghost sv: Server)
    requires Mirrors(h, w) && ServerLive(h, server) && server.id in w.servers
    modifies server`data, server`len, server`stage
    ensures sv == w.servers[server.id].(buf := Buf(p, w.servers[server.id].buf.idx, |p|),
                                        stage := if stop then Stop else w.servers[server.id].stage)
    ensures Mirrors(h, w.(servers := w.servers[server.id := sv]))
  {
    TakeOne(h, w, server);
    Fill(server, p, stop, w.servers[server.id]);
    sv := AbsServer(server);
    PutOne(h, w, server);
  }

  lemma PutAsking(h: Heap, w: World, server: ServerObj, query: QueryObj)
    requires OneOut(h, w, server) && RemoteLive(h, server.remote) && server.query == query && query.server == server
    requires query.id != NULL && query.id !in h.queries
    ensures Mirrors(WithQuery(h, query.id, query), w.(servers := w.servers[server.id := AbsServer(server)],
                                                      queries := w.queries[query.id := AbsQuery(query)]))
  {
    NewQuery(h, w, server, query);
    PutServer(WithQuery(h, query.id, query), w.servers, server, AbsServer(server));
  }

  /** resolv_start, for a server that is taken out of the heap. */
  method AskOut(ghost h: Heap, ghost w: World, server: ServerObj, ghost sv: Server) returns (ghost h': Heap)
    requires OneOut(h, w, server) && RemoteLive(h, server.remote)
    requires w.next != NULL && w.next !in h.queries && sv == AbsServer(server)
    modifies server`stage, server`query
    ensures Mirrors(h', w.(servers := w.servers[server.id := sv.(stage := Resolve, query := w.next)],
                           queries := w.queries[w.next := Query(server.id, true, true, [])]))
  {
    var query := new QueryObj(w.next, server);
    server.query := query;
    server.stage := Resolve;
    PutAsking(h, w, server, query);
    h' := WithQuery(h, w.next, query);
  }

  /** resolv_start: a query and its server point at each other. */
  method StartQuery(ghost h: Heap, ghost w: World, server: ServerObj) returns (ghost h': Heap, ghost w': World)
    requires Mirrors(h, w) && ServerLive(h, server) && server.id in w.servers && w.next != NULL && w.next !in h.queries
    modifies server`stage, server`query
    ensures w' == w.(servers := w.servers[server.id := w.servers[server.id].(stage := Resolve, query := w.next)],
                     queries := w.queries[w.next := Query(server.id, true, true, [])], next := w.next + 1)
    ensures Mirrors(h', w')
  {
    TakeOne(h, w, server);
    h' := AskOut(h, w, server, w.servers[server.id]);
    w' := w.(servers := w.servers[server.id := w.servers[server.id].(stage := Resolve, query := w.next)],
             queries := w.queries[w.next := Query(server.id, true, true, [])], next := w.next + 1);
  }

  /** A server of the heap that has sent no header yet, and room for a new object. */
  ghost predicate Fresh(h: Heap, w: World, server: ServerObj)
    reads h.servers.Values, h.remotes.Values, h.queries.Values
  {
    && Mirrors(h, w) && Links(w) && ServerLive(h, server) && server.id in w.servers
    && w.servers[server.id].remote == NULL && w.next != NULL && w.next !in h.remotes && w.next !in h.queries
  }

  lemma FreshFrom(h: Heap, w: World, server: ServerObj)
    requires Mirrors(h, w) && Inv(w) && ServerLive(h, server) && server.stage == Init && server.recvOn
    ensures Fresh(h, w, server)
  {
    NoNull(h, w);
    InvLinks(w);
    TakeServer(h, w.servers, server);
    ServerFacts(w, server.id);
  }

  /** server_recv_cb in STAGE_INIT, once the header is accepted. */
  method HeaderAccepted(ghost h: Heap, ghost w: World, server: ServerObj, p: seq<byte>, offset: nat, query: bool,
                        connect: Connect)
    returns (ghost h': Heap, ghost w': World)
    requires Fresh(h, w, server) && offset <= |p|
    modifies server, h.remotes.Values`server, h.queries.Values`server
    ensures var sv := AfterHeader(w.servers[server.id], p, offset);
            w' == if !query then Linked(w, server.id, sv, connect)
                  else w.(servers := w.servers[server.id := sv.(stage := Resolve, query := w.next)],
                          queries := w.queries[w.next := Query(server.id, true, true, [])], next := w.next + 1)
    ensures Mirrors(h', w')
  {
    ghost var ready := TakeHeader(h, w, server, p, offset);
    ghost var mid := w.(servers := w.servers[server.id := ready]);
    SamePointers(w, server.id, ready);
    if !query {
      h', w' := ConnectToRemote(h, mid, server, connect);
      LinkedSame(w, server.id, ready, connect);
    } else {
      h', w' := StartQuery(h, mid, server);
    }
  }

  /** server_recv_cb in STAGE_INIT: read the header. */
  method ReadHeader(ghost h: Heap, ghost w: World, server: ServerObj, p: seq<byte>, policy: Policy, connect: Connect)
    returns (ghost h': Heap, ghost w': World)
    requires Fresh(h, w, server) && |p| > 0
    modifies server, h.remotes.Values`server, h.queries.Values`server
    ensures w' == Started(w, server.id, w.servers[server.id], p, policy, connect) && Mirrors(h', w')
  {
    match Parse(p, policy)
    case Rejected =>
      ghost var sv := Refill(h, w, server, p, true);
      h', w' := h, w.(servers := w.servers[server.id := sv]);
    case Blocked => h', w' := CloseAndFreeServer(h, w, server);
    case Accepted(_, offset, query) => h', w' := HeaderAccepted(h, w, server, p, offset, query, connect);
  }

  /** server_recv_cb in STAGE_STREAM, on a server with its remote. */
  method StreamPair(ghost h: Heap, ghost w: World, server: ServerObj, remote: RemoteObj, raw: seq<byte>, d: Decrypted,
                    sent: Sent, ghost pair: Pair)
    returns (ghost h': Heap, ghost w': World)
    requires Taken(h, w, server, remote) && pair == Streamed(AbsServer(server), AbsRemote(remote), raw, d, sent)
    modifies h.servers.Values, h.remotes.Values, h.queries.Values`server
    ensures w' == Bind(w, server.id, pair) && Mirrors(h', w')
  {
    var closed := ReceiveForRemote(server, remote, raw, d, sent, pair);
    h', w' := Settle(h, w, server, remote, closed, pair);
  }

  /** server_recv_cb in STAGE_INIT, with what was received. */
  method InitData(ghost h: Heap, ghost w: World, server: ServerObj, raw: seq<byte>, d: Decrypted, policy: Policy,
                  connect: Connect)
    returns (ghost h': Heap, ghost w': World)
    requires Fresh(h, w, server) && (d.Plain? ==> |d.p| > 0)
    modifies server, h.remotes.Values`server, h.queries.Values`server
    ensures w' == Begun(w, server.id, w.servers[server.id], raw, d, policy, connect) && Mirrors(h', w')
  {
    if d.Plain? {
      h', w' := ReadHeader(h, w, server, d.p, policy, connect);
    } else {
      ghost var sv := Refill(h, w, server, raw, d.Bad?);
      h', w' := h, w.(servers := w.servers[server.id := sv]);
    }
  }

  /** server_recv_cb, with data. The last branch ends the process in the source, and is not reached. */
  method ServerData(ghost h: Heap, ghost w: World, server: ServerObj, raw: seq<byte>, d: Decrypted, connect: Connect,
                    sent: Sent, policy: Policy)
    returns (ghost h': Heap, ghost w': World)
    requires Mirrors(h, w) && Inv(w) && ServerLive(h, server) && server.recvOn && (d.Plain? ==> |d.p| > 0)
    modifies h.servers.Values, h.remotes.Values, h.queries.Values`server
    ensures w' == Received(w, server.id, Data(raw, d), connect, sent, policy) && Mirrors(h', w')
  {
    TakeServer(h, w.servers, server);
    ServerFacts(w, server.id);
    if server.stage == Stop {
      Overrun(h, w, server, raw);
      ghost var sv := w.servers[server.id];
      h', w' := h, w.(servers := w.servers[server.id := sv.(buf := Overwrite(sv.buf, raw))]);
    } else if server.stage == Stream {
      TakenFrom(h, w, server);
      h', w' := StreamPair(h, w, server, server.remote, raw, d, sent,
                           Streamed(AbsServer(server), AbsRemote(server.remote), raw, d, sent));
    } else if server.stage == Init {
      FreshFrom(h, w, server);
      h', w' := InitData(h, w, server, raw, d, policy, connect);
    } else {
      assert false;
    }
  }

  /** server_recv_cb */
  method OnServerRecv(ghost h: Heap, ghost w: World, server: ServerObj, input: Input, connect: Connect, sent: Sent,
                      policy: Policy)
    returns (ghost h': Heap, ghost w': World)
    requires Mirrors(h, w) && Inv(w) && ServerLive(h, server) && server.recvOn
    requires input.Data? && input.d.Plain? ==> |input.d.p| > 0
    modifies h.servers.Values, h.remotes.Values, h.queries.Values`server
    ensures w' == Received(w, server.id, input, connect, sent, policy) && Mirrors(h', w')
  {
    TakeServer(h, w.servers, server);
    NoNull(h, w);
    InvLinks(w);
    h', w' := h, w;
    if input.Data? {
      h', w' := ServerData(h, w, server, input.raw, input.d, connect, sent, policy);
    } else if !input.NoData? {
      var remote: RemoteObj? := if server.stage == Stream then server.remote else null;
      h', w' := ClosePair(h, w, server, remote);
    }
  }

  /** accept_cb, when the connection is allowed. */
  method OnAccept(ghost h: Heap, ghost w: World) returns (server: ServerObj, ghost h': Heap)
    requires Mirrors(h, w) && Inv(w)
    ensures fresh(server) && server.id == w.next && w.next !in w.servers && AbsServer(server) == NEW_SERVER
    ensures h' == WithServer(h, w.next, server) && Mirrors(h', Welcomed(w))
  {
    NoNull(h, w);
    server := new ServerObj(w.next);
    NewServer(h, w, server);
    h' := WithServer(h, w.next, server);
  }

  // ---------- name lookups ----------

  /** choose_any */
  method ChooseAny(responses: seq<Sockaddr>) returns (found: bool, i: nat)
    ensures found <==> responses != []
    ensures found ==> i == 0
  {
    found, i := |responses| >= 1, 0;
  }

  /** The loop of choose_ipv4_first, and choose_any after it. */
  method ChooseIpv4First(responses: seq<Sockaddr>) returns (found: bool, i: nat)
    ensures found <==> responses != []
    ensures found ==> i < |responses| && Best(Ipv4First, responses, i)
  {
    for j := 0 to |responses|
      invariant forall k :: 0 <= k < j ==> !responses[k].V4?
    {
      if responses[j].V4? {
        return true, j;
      }
    }
    found, i := ChooseAny(responses);
  }

  /** The loop of choose_ipv6_first, and choose_any after it. */
  method ChooseIpv6First(responses: seq<Sockaddr>) returns (found: bool, i: nat)
    ensures found <==> responses != []
    ensures found ==> i < |responses| && Best(Ipv6First, responses, i)
  {
    for j := 0 to |responses|
      invariant forall k :: 0 <= k < j ==> !responses[k].V6?
    {
      if responses[j].V6? {
        return true, j;
      }
    }
    found, i := ChooseAny(responses);
  }

  /** The choice of process_client_callback. */
  method ChooseBest(mode: Mode, responses: seq<Sockaddr>) returns (found: bool, i: nat)
    ensures found <==> responses != []
    ensures found ==> i < |responses| && Best(mode, responses, i)
  {
    match mode
    case Ipv4First => found, i := ChooseIpv4First(responses);
    case Ipv6First => found, i := ChooseIpv6First(responses);
    case AnyFirst => found, i := ChooseAny(responses);
  }

  lemma SameServer(w: World, q: Id, qu: Query)
    requires Links(w) && q in w.queries && qu.server == w.queries[q].server
    ensures Links(w.(queries := w.queries[q := qu]))
  {
    assert InLinks(0);
  }

  /** One lookup is answered. */
  method Record(ghost h: Heap, ghost w: World, query: QueryObj, v4: bool, found: seq<Sockaddr>)
    returns (ghost w': World)
    requires Mirrors(h, w) && Links(w) && QueryLive(h, query)
    modifies query`v4, query`v6, query`responses
    ensures query.id in w.queries && w' == w.(queries := w.queries[query.id := Noted(w.queries[query.id], v4, found)])
    ensures AbsQuery(query) == w'.queries[query.id] && Mirrors(h, w') && Links(w')
  {
    TakeQuery(h, w.queries, query);
    ghost var qu := w.queries[query.id];
    Note(query, v4, found, qu);
    PutQuery(h, w.queries, query, Noted(qu, v4, found));
    w' := w.(queries := w.queries[query.id := Noted(qu, v4, found)]);
    SameServer(w, query.id, Noted(qu, v4, found));
  }

  /** A new remote, linked both ways. */
  lemma AttachLinks(w: World, s: Id, sv: Server, rm: Remote, next: Id)
    requires Links(w) && s in w.servers && w.servers[s].remote == NULL && sv.query == w.servers[s].query
    requires sv.remote != NULL && sv.remote !in w.remotes && NULL !in w.remotes && rm.server == s && s != NULL
    ensures Links(w.(servers := w.servers[s := sv], remotes := w.remotes[sv.remote := rm], next := next))
  {
    assert InLinks(0);
  }

  lemma LinkedLinks(w: World, s: Id, connect: Connect)
    requires Links(w) && s in w.servers && w.servers[s].remote == NULL && w.next !in w.remotes && w.next != NULL
    requires NULL !in w.servers && NULL !in w.remotes && NULL !in w.queries
    ensures Links(Linked(w, s, w.servers[s], connect))
  {
    match connect
    case Refused => CloseServerLinks(w, s);
    case Opened(n) =>
      var pair := Attach(w.servers[s], s, w.next, n);
      AttachLinks(w, s, pair.sv, pair.rm, w.next + 1);
  }

  /** resolv_cb */
  method ResolvCb(ghost h: Heap, ghost w: World, query: QueryObj, found: bool, connect: Connect)
    returns (ghost h': Heap, ghost w': World)
    requires Mirrors(h, w) && Links(w) && QueryLive(h, query)
    requires w.next != NULL && w.next !in h.remotes && query.id in w.queries
    requires found <==> w.queries[query.id].responses != []
    requires var s := w.queries[query.id].server; s in w.servers ==> Ready(w.servers[s])
    modifies h.servers.Values, h.remotes.Values`server, h.queries.Values`server
    ensures w' == Resolved(w, query.id, connect) && Mirrors(h', w') && Links(w')
    ensures h'.queries == h.queries && h'.servers.Values <= h.servers.Values
  {
    TakeQuery(h, w.queries, query);
    NoNull(h, w);
    h', w' := h, w;
    if query.server != null {
      TakeServer(h, w.servers, query.server);
      if !found {
        h', w' := CloseAndFreeServer(h, w, query.server);
      } else {
        LinkedLinks(w, query.server.id, connect);
        h', w' := ConnectToRemote(h, w, query.server, connect);
      }
    }
  }

  /** server->query = NULL */
  method DropQueryPointer(ghost h: Heap, ghost w: World, server: ServerObj)
    requires Mirrors(h, w) && ServerLive(h, server)
    modifies server`query
    ensures server.id in w.servers
    ensures Mirrors(h, w.(servers := w.servers[server.id := w.servers[server.id].(query := NULL)]))
  {
    TakeServer(h, w.servers, server);
    server.query := null;
    PutServer(h, w.servers, server, w.servers[server.id].(query := NULL));
  }

  lemma FreedLinks(w: World, q: Id)
    requires Links(w) && q in w.queries && q != NULL
    ensures forall s :: s in w.servers && s != w.queries[q].server ==> w.servers[s].query != q
    ensures w.queries[q].server != NULL ==> w.queries[q].server in w.servers
  {
    assert InLinks(0);
  }

  /** resolv_free_cb */
  method ResolvFreeCb(ghost h: Heap, ghost w: World, query: QueryObj) returns (ghost h': Heap, ghost w': World)
    requires Mirrors(h, w) && Links(w) && QueryLive(h, query)
    modifies h.servers.Values`query
    ensures h' == WithoutQuery(h, query.id) && w' == Freed(w, query.id) && Mirrors(h', w')
  {
    TakeQuery(h, w.queries, query);
    NoNull(h, w);
    FreedLinks(w, query.id);
    ghost var mid := w;
    if query.server != null {
      DropQueryPointer(h, w, query.server);
      mid := w.(servers := w.servers[query.server.id := w.servers[query.server.id].(query := NULL)]);
    }
    ForgetQuery(h, mid, query.id);
    h', w' := WithoutQuery(h, query.id), Freed(w, query.id);
  }

  lemma QueryReady(w: World, q: Id, qu: Query)
    requires Inv(w) && q in w.queries && qu.server == w.queries[q].server
    ensures qu.server in w.servers ==> Ready(w.servers[qu.server])
    ensures w.next != NULL && w.next !in w.remotes
  {
    if qu.server in w.servers {
      ServerFacts(w, qu.server);
    }
  }

  /** process_client_callback, with resolv_cb and resolv_free_cb. */
  method ProcessClientCallback(ghost h: Heap, ghost w: World, query: QueryObj, mode: Mode, connect: Connect)
    returns (ghost h': Heap, ghost w': World)
    requires Mirrors(h, w) && Links(w) && QueryLive(h, query)
    requires w.next != NULL && w.next !in h.remotes && query.id in w.queries
    requires var s := w.queries[query.id].server; s in w.servers ==> Ready(w.servers[s])
    modifies h.servers.Values, h.remotes.Values`server, h.queries.Values`server
    ensures w' == Freed(Resolved(w, query.id, connect), query.id) && Mirrors(h', w')
  {
    TakeQuery(h, w.queries, query);
    var found, _ := ChooseBest(mode, query.responses);
    ghost var h1, w1 := ResolvCb(h, w, query, found, connect);
    h', w' := ResolvFreeCb(h1, w1, query);
  }

  /** dns_query_v4_cb and dns_query_v6_cb */
  method OnDnsQuery(ghost h: Heap, ghost w: World, query: QueryObj, v4: bool, found: seq<Sockaddr>, mode: Mode,
                    connect: Connect)
    returns (ghost h': Heap, ghost w': World)
    requires Mirrors(h, w) && Inv(w) && QueryLive(h, query)
    modifies h.servers.Values, h.remotes.Values`server, h.queries.Values
    ensures w' == Looked(w, query.id, v4, found, connect) && Mirrors(h', w')
  {
    InvLinks(w);
    NoNull(h, w);
    TakeQuery(h, w.queries, query);
    QueryReady(w, query.id, Noted(w.queries[query.id], v4, found));
    ghost var w1 := Record(h, w, query, v4, found);
    h', w' := h, w1;
    if !query.v4 && !query.v6 {
      h', w' := ProcessClientCallback(h, w1, query, mode, connect);
      w' := w'.(answered := w.answered + [query.id]);
    }
  }

  // ---------- the event loop ----------

  /** Every pointer of a live object is null or leads to a live object, which points back. */
  ghost predicate NoDangling(h: Heap)
    reads h.servers.Values, h.remotes.Values, h.queries.Values
  {
    && (forall s :: s in h.servers ==>
          var r := h.servers[s].remote;
          r == null || (r.id in h.remotes && h.remotes[r.id] == r && r.server == h.servers[s]))
    && (forall s :: s in h.servers ==>
          var q := h.servers[s].query;
          q == null || (q.id in h.queries && h.queries[q.id] == q && q.server == h.servers[s]))
    && (forall r :: r in h.remotes ==>
          var s := h.remotes[r].server;
          s == null || (s.id in h.servers && h.servers[s.id] == s && s.remote == h.remotes[r]))
    && (forall q :: q in h.queries ==>
          var s := h.queries[q].server;
          s == null || (s.id in h.servers && h.servers[s.id] == s && s.query == h.queries[q]))
  }

  /** The live objects mirror a consistent world. */
  ghost predicate Consistent(h: Heap, w: World)
    reads h.servers.Values, h.remotes.Values, h.queries.Values
  {
    Mirrors(h, w) && Inv(w)
  }

  lemma ServerPoints(h: Heap, w: World, o: ServerObj)
    requires Mirrors(h, w) && Links(w) && ServerLive(h, o)
    ensures o.remote != null ==> RemoteLive(h, o.remote) && o.remote.server == o
    ensures o.query != null ==> QueryLive(h, o.query) && o.query.server == o
  {
    assert InLinks(0);
    NoNull(h, w);
    TakeServer(h, w.servers, o);
    if o.remote != null {
      TakeRemote(h, w.remotes, o.remote);
    }
    if o.query != null {
      TakeQuery(h, w.queries, o.query);
    }
  }

  lemma RemotePoints(h: Heap, w: World, o: RemoteObj)
    requires Mirrors(h, w) && Links(w) && RemoteLive(h, o)
    ensures o.server != null ==> ServerLive(h, o.server) && o.server.remote == o
  {
    assert InLinks(0);
    NoNull(h, w);
    TakeRemote(h, w.remotes, o);
    if o.server != null {
      TakeServer(h, w.servers, o.server);
    }
  }

  lemma QueryPoints(h: Heap, w: World, o: QueryObj)
    requires Mirrors(h, w) && Links(w) && QueryLive(h, o)
    ensures o.server != null ==> ServerLive(h, o.server) && o.server.query == o
  {
    assert InLinks(0);
    NoNull(h, w);
    TakeQuery(h, w.queries, o);
    if o.server != null {
      TakeServer(h, w.servers, o.server);
    }
  }

  /** Between callbacks no pointer dangles. */
  lemma NeverDangling(h: Heap, w: World)
    requires Consistent(h, w)
    ensures NoDangling(h)
  {
    InvLinks(w);
    forall s | s in h.servers
      ensures ServerLive(h, h.servers[s])
      ensures h.servers[s].remote != null ==>
              RemoteLive(h, h.servers[s].remote) && h.servers[s].remote.server == h.servers[s]
      ensures h.servers[s].query != null ==>
              QueryLive(h, h.servers[s].query) && h.servers[s].query.server == h.servers[s]
    {
      ServerPoints(h, w, h.servers[s]);
    }
    forall r | r in h.remotes
      ensures h.remotes[r].server != null ==>
              ServerLive(h, h.remotes[r].server) && h.remotes[r].server.remote == h.remotes[r]
    {
      RemotePoints(h, w, h.remotes[r]);
    }
    forall q | q in h.queries
      ensures h.queries[q].server != null ==>
              ServerLive(h, h.queries[q].server) && h.queries[q].server.query == h.queries[q]
    {
      QueryPoints(h, w, h.queries[q]);
    }
  }

  /** accept_cb */
  method AcceptCb(ghost h: Heap, ghost w: World, ghost policy: Policy)
    returns (server: ServerObj, ghost h': Heap, ghost w': World)
    requires Consistent(h, w)
    ensures w' == Step(w, Accept, policy) && Consistent(h', w')
    ensures fresh(server) && ServerLive(h', server) && AbsServer(server) == NEW_SERVER && server.id !in w.servers
  {
    StepKeeps(w, Accept, policy);
    server, h' := OnAccept(h, w);
    w' := Welcomed(w);
  }

  /** server_recv_cb */
  method ServerRecvCb(ghost h: Heap, ghost w: World, server: ServerObj, input: Input, connect: Connect, sent: Sent,
                      policy: Policy)
    returns (ghost h': Heap, ghost w': World)
    requires Consistent(h, w) && ServerLive(h, server) && Enabled(w, ServerRecv(server.id, input, connect, sent))
    modifies h.servers.Values, h.remotes.Values, h.queries.Values`server
    ensures w' == Step(w, ServerRecv(server.id, input, connect, sent), policy) && Consistent(h', w')
  {
    StepKeeps(w, ServerRecv(server.id, input, connect, sent), policy);
    TakeServer(h, w.servers, server);
    h', w' := OnServerRecv(h, w, server, input, connect, sent, policy);
  }

  /** server_send_cb */
  method ServerSendCb(ghost h: Heap, ghost w: World, server: ServerObj, sent: Sent, ghost policy: Policy)
    returns (ghost h': Heap, ghost w': World)
    requires Consistent(h, w) && ServerLive(h, server) && Enabled(w, ServerSend(server.id, sent))
    modifies h.servers.Values, h.remotes.Values, h.queries.Values`server
    ensures w' == Step(w, ServerSend(server.id, sent), policy) && Consistent(h', w')
  {
    StepKeeps(w, ServerSend(server.id, sent), policy);
    TakeServer(h, w.servers, server);
    h', w' := OnServerSend(h, w, server, sent);
  }

  /** server_timeout_cb */
  method ServerTimeoutCb(ghost h: Heap, ghost w: World, server: ServerObj, ghost policy: Policy)
    returns (ghost h': Heap, ghost w': World)
    requires Consistent(h, w) && ServerLive(h, server)
    modifies h.servers.Values`remote, h.remotes.Values`server, h.queries.Values`server
    ensures w' == Step(w, ServerTimeout(server.id), policy) && Consistent(h', w')
  {
    TakeServer(h, w.servers, server);
    StepKeeps(w, ServerTimeout(server.id), policy);
    h', w' := OnServerTimeout(h, w, server);
  }

  /** remote_recv_cb */
  method RemoteRecvCb(ghost h: Heap, ghost w: World, remote: RemoteObj, chunk: FromRemote, sent: Sent,
                      ghost policy: Policy)
    returns (ghost h': Heap, ghost w': World)
    requires Consistent(h, w) && RemoteLive(h, remote) && Enabled(w, RemoteRecv(remote.id, chunk, sent))
    modifies h.servers.Values, h.remotes.Values, h.queries.Values`server
    ensures w' == Step(w, RemoteRecv(remote.id, chunk, sent), policy) && Consistent(h', w')
  {
    StepKeeps(w, RemoteRecv(remote.id, chunk, sent), policy);
    h', w' := OnRemoteRecv(h, w, remote, chunk, sent);
  }

  /** remote_send_cb */
  method RemoteSendCb(ghost h: Heap, ghost w: World, remote: RemoteObj, peer: bool, sent: Sent, ghost policy: Policy)
    returns (ghost h': Heap, ghost w': World)
    requires Consistent(h, w) && RemoteLive(h, remote) && Enabled(w, RemoteSend(remote.id, peer, sent))
    modifies h.servers.Values, h.remotes.Values, h.queries.Values`server
    ensures w' == Step(w, RemoteSend(remote.id, peer, sent), policy) && Consistent(h', w')
  {
    StepKeeps(w, RemoteSend(remote.id, peer, sent), policy);
    TakeRemote(h, w.remotes, remote);
    h', w' := OnRemoteSend(h, w, remote, peer, sent);
  }

  /** dns_query_v4_cb and dns_query_v6_cb */
  method DnsQueryCb(ghost h: Heap, ghost w: World, query: QueryObj, v4: bool, found: seq<Sockaddr>, mode: Mode,
                    connect: Connect, ghost policy: Policy)
    returns (ghost h': Heap, ghost w': World)
    requires Consistent(h, w) && QueryLive(h, query) && Enabled(w, Dns(query.id, v4, found, connect))
    modifies h.servers.Values, h.remotes.Values`server, h.queries.Values
    ensures w' == Step(w, Dns(query.id, v4, found, connect), policy) && Consistent(h', w')
  {
    StepKeeps(w, Dns(query.id, v4, found, connect), policy);
    h', w' := OnDnsQuery(h, w, query, v4, found, mode, connect);
  }
}
