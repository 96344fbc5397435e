/**
 All connections of the TCP relay of src/server.c: its server, remote and query objects with their pointers to one
 another, the name lookups of src/resolv.c, and the callbacks of the event loop as steps.
 */
module RelayWorld {
  import opened Bytes
  import opened TcpHeader
  import opened RelaySpec

  /** An address in a DNS answer. */
  datatype Sockaddr = V4(addr: seq<byte>) | V6(addr: seq<byte>)

  /** A query and its two lookups, each of them under way until it is answered. */
  datatype Query = Query(server: Id, v4: bool, v6: bool, responses: seq<Sockaddr>)

  /** The live objects, the number of the next one, and the queries whose client callback has run, in order. */
  datatype World = World(servers: map<Id, Server>, remotes: map<Id, Remote>, queries: map<Id, Query>, next: Id,
                         answered: seq<Id>)

  datatype FromRemote = RemoteEof | RemoteNoData | RemoteBroken | Chunk(raw: seq<byte>, c: seq<byte>, ok: bool)

  datatype Event =
    | Accept
    | ServerRecv(s: Id, input: Input, connect: Connect, sent: Sent)
    | ServerSend(s: Id, sent: Sent)
    | ServerTimeout(s: Id)
    | RemoteRecv(r: Id, chunk: FromRemote, sent: Sent)
    | RemoteSend(r: Id, peer: bool, sent: Sent)
    | Dns(q: Id, v4: bool, found: seq<Sockaddr>, connect: Connect)

  // ---------- closing ----------

  /** close_and_free_remote */
  function CloseRemote(w: World, r: Id): World {
    if r !in w.remotes then w
    else
      var s := w.remotes[r].server;
      w.(remotes := w.remotes - {r},
         servers := if s in w.servers then w.servers[s := w.servers[s].(remote := NULL)] else w.servers)
  }

  /** close_and_free_server */
  function CloseServer(w: World, s: Id): World {
    if s !in w.servers then w
    else
      var q, r := w.servers[s].query, w.servers[s].remote;
      w.(servers := w.servers - {s},
         queries := if q in w.queries then w.queries[q := w.queries[q].(server := NULL)] else w.queries,
         remotes := if r in w.remotes then w.remotes[r := w.remotes[r].(server := NULL)] else w.remotes)
  }

  /** Close a server and the remote it has. */
  function CloseBoth(w: World, s: Id): World {
    if s !in w.servers then w else CloseServer(CloseRemote(w, w.servers[s].remote), s)
  }

  function Bind(w: World, s: Id, pair: Pair): World {
    match pair
    case Both(sv, rm) => w.(servers := w.servers[s := sv], remotes := w.remotes[sv.remote := rm])
    case Closed => CloseBoth(w, s)
  }

  // ---------- callbacks ----------

  const NEW_SERVER := Server(Init, EMPTY, true, false, NULL, NULL, Log([], [], [], []))

  /** accept_cb, when the connection is allowed. */
  function Welcomed(w: World): World {
    w.(servers := w.servers[w.next := NEW_SERVER], next := w.next + 1)
  }

  /** connect_to_remote and the linking of the new remote, for a server that waits for it. */
  function Linked(w: World, s: Id, sv: Server, connect: Connect): World {
    match connect
    case Refused => CloseServer(w, s)
    case Opened(n) => Bind(w.(next := w.next + 1), s, Attach(sv, s, w.next, n))
  }

  /** server_recv_cb in STAGE_INIT, with a decrypted header. */
  function Started(w: World, s: Id, sv: Server, p: seq<byte>, policy: Policy, connect: Connect): World
    requires |p| > 0
  {
    match Parse(p, policy)
    case Rejected => w.(servers := w.servers[s := sv.(stage := Stop, buf := Buf(p, sv.buf.idx, |p|))])
    case Blocked => CloseServer(w, s)
    case Accepted(_, offset, query) =>
      var sv := AfterHeader(sv, p, offset);
      if !query then Linked(w, s, sv, connect)
      else
        w.(servers := w.servers[s := sv.(stage := Resolve, query := w.next)],
           queries := w.queries[w.next := Query(s, true, true, [])],
           next := w.next + 1)
  }

  /** server_recv_cb in STAGE_INIT, with what was received. */
  function Begun(w: World, s: Id, sv: Server, raw: seq<byte>, d: Decrypted, policy: Policy, connect: Connect): World {
    match d
    case Bad => w.(servers := w.servers[s := sv.(stage := Stop, buf := Buf(raw, sv.buf.idx, |raw|))])
    case More => w.(servers := w.servers[s := sv.(buf := Buf(raw, sv.buf.idx, |raw|))])
    case Plain(p) => if |p| > 0 then Started(w, s, sv, p, policy, connect) else w
  }

  /** server_recv_cb. It must not be called in STAGE_RESOLVE, where it would end the process: see NoContextError. */
  function Received(w: World, s: Id, input: Input, connect: Connect, sent: Sent, policy: Policy): World {
    if s !in w.servers then w
    else
      var sv := w.servers[s];
      var r := if sv.stage == Stream then sv.remote else NULL;
      match input
      case NoData => w
      case Eof => CloseServer(CloseRemote(w, r), s)
      case Broken => CloseServer(CloseRemote(w, r), s)
      case Data(raw, d) =>
        if sv.stage == Stop then
          w.(servers := w.servers[s := sv.(buf := Overwrite(sv.buf, raw))])
        else if sv.stage == Stream && r in w.remotes then
          Bind(w, s, Streamed(sv, w.remotes[r], raw, d, sent))
        else
          Begun(w, s, sv, raw, d, policy, connect)
  }

  /** server_send_cb */
  function Flushed(w: World, s: Id, sent: Sent): World {
    if s !in w.servers then w
    else
      var sv := w.servers[s];
      if sv.remote !in w.remotes then CloseServer(w, s)
      else Bind(w, s, FlushDown(sv, w.remotes[sv.remote], sent))
  }

  /** remote_recv_cb */
  function Answered(w: World, r: Id, chunk: FromRemote, sent: Sent): World {
    if r !in w.remotes then w
    else
      var rm := w.remotes[r];
      var s := rm.server;
      if s !in w.servers then CloseRemote(w, r)
      else
        var sv := w.servers[s];
        match chunk
        case RemoteNoData => w
        case RemoteEof => CloseServer(CloseRemote(w, r), s)
        case RemoteBroken => CloseServer(CloseRemote(w, r), s)
        case Chunk(raw, c, ok) =>
          if sv.stage == Stop then w.(servers := w.servers[s := sv.(buf := Overwrite(sv.buf, raw))])
          else if !ok then CloseServer(CloseRemote(w, r), s)
          else Bind(w, s, StreamDown(sv, rm, c, sent))
  }

  /** remote_send_cb */
  function Pushed(w: World, r: Id, peer: bool, sent: Sent): World {
    if r !in w.remotes then w
    else
      var rm := w.remotes[r];
      var s := rm.server;
      if s !in w.servers then CloseRemote(w, r) else Bind(w, s, FlushUp(w.servers[s], rm, peer, sent))
  }

  /** resolv_mode */
  datatype Mode = Ipv4First | Ipv6First | AnyFirst

  predicate Prefers(mode: Mode, a: Sockaddr) {
    (mode.Ipv4First? && a.V4?) || (mode.Ipv6First? && a.V6?)
  }

  /** The i-th address is the one to take: the first of the preferred family, or else the first of all. */
  predicate Best(mode: Mode, responses: seq<Sockaddr>, i: nat)
    requires i < |responses|
  {
    if Prefers(mode, responses[i]) then forall j :: 0 <= j < i ==> !Prefers(mode, responses[j])
    else i == 0 && forall j :: 0 <= j < |responses| ==> !Prefers(mode, responses[j])
  }

  /** resolv_cb, on behalf of a query whose lookups are both answered. */
  function Resolved(w: World, q: Id, connect: Connect): World
    requires q in w.queries
  {
    var s := w.queries[q].server;
    if s !in w.servers then w
    else if w.queries[q].responses == [] then CloseServer(w, s)
    else Linked(w, s, w.servers[s], connect)
  }

  /** resolv_free_cb */
  function Freed(w: World, q: Id): World {
    if q !in w.queries then w
    else
      var s := w.queries[q].server;
      w.(servers := if s in w.servers then w.servers[s := w.servers[s].(query := NULL)] else w.servers,
         queries := w.queries - {q})
  }

  /** One of the two lookups of a query is answered. */
  function Noted(qu: Query, v4: bool, found: seq<Sockaddr>): Query {
    if v4 then qu.(v4 := false, responses := qu.responses + found)
    else qu.(v6 := false, responses := qu.responses + found)
  }

  /** dns_query_v4_cb and dns_query_v6_cb; process_client_callback runs once neither lookup is under way. */
  function Looked(w: World, q: Id, v4: bool, found: seq<Sockaddr>, connect: Connect): World {
    if q !in w.queries then w
    else
      var qu := Noted(w.queries[q], v4, found);
      var w := w.(queries := w.queries[q := qu]);
      if qu.v4 || qu.v6 then w else Freed(Resolved(w, q, connect), q).(answered := w.answered + [q])
  }

  function Step(w: World, e: Event, policy: Policy): World {
    match e
    case Accept => Welcomed(w)
    case ServerRecv(s, input, connect, sent) => Received(w, s, input, connect, sent, policy)
    case ServerSend(s, sent) => Flushed(w, s, sent)
    case ServerTimeout(s) => CloseBoth(w, s)
    case RemoteRecv(r, chunk, sent) => Answered(w, r, chunk, sent)
    case RemoteSend(r, peer, sent) => Pushed(w, r, peer, sent)
    case Dns(q, v4, found, connect) => Looked(w, q, v4, found, connect)
  }

  /** A callback runs only for a live object whose watcher is on; the ciphers do not return empty text as success. */
  predicate Enabled(w: World, e: Event) {
    match e
    case Accept => true
    case ServerRecv(s, input, _, _) =>
      s in w.servers && w.servers[s].recvOn && (input.Data? && input.d.Plain? ==> |input.d.p| > 0)
    case ServerSend(s, _) => s in w.servers && w.servers[s].sendOn
    case ServerTimeout(s) => s in w.servers
    case RemoteRecv(r, chunk, _) => r in w.remotes && w.remotes[r].recvOn && (chunk.Chunk? ==> |chunk.c| > 0)
    case RemoteSend(r, _, _) => r in w.remotes && w.remotes[r].sendOn
    case Dns(q, v4, _, _) => q in w.queries && if v4 then w.queries[q].v4 else w.queries[q].v6
  }
}
