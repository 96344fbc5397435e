/**
 The life of the objects of the TCP relay: which callbacks can run when, what a step leaves alone, when a
 query is answered, and which remotes are left behind.
 */
module RelayLife {
  import opened Bytes
  import opened TcpHeader
  import opened RelaySpec
  import opened RelayWorld
  import opened RelayProof

  /** server_recv_cb never runs in STAGE_RESOLVE, so the exit "server context error" is never reached; nor does
      server_send_cb run without a remote, or either callback of a remote on a server that is gone while it has data
      to send. */
  lemma NoContextError(w: World, e: Event)
    requires Inv(w) && Enabled(w, e)
    ensures e.ServerRecv? ==>
              w.servers[e.s].stage != Resolve && (w.servers[e.s].stage == Init ==> w.servers[e.s].remote == NULL)
    ensures e.ServerSend? ==> w.servers[e.s].remote in w.remotes && w.servers[e.s].buf.len > 0
    ensures e.RemoteSend? ==>
              w.remotes[e.r].server in w.servers && (w.remotes[e.r].connected ==> w.remotes[e.r].buf.len > 0)
  {
    match e
    case ServerRecv(s, _, _, _) => ServerFacts(w, s);
    case ServerSend(s, _) => ServerFacts(w, s);
    case RemoteSend(r, _, _) => RemoteFacts(w, r);
    case _ =>
  }

  // ---------- what a step leaves alone ----------

  /** A server in STAGE_STOP is still in it, unless it is gone. */
  predicate StaysStopped(w: World, w': World, s: Id) {
    s in w.servers && s in w'.servers && w.servers[s].stage == Stop ==> w'.servers[s].stage == Stop
  }

  /** No query is answered or freed. */
  predicate KeepsQueries(w: World, w': World) {
    w'.answered == w.answered && forall q :: q in w.queries ==> q in w'.queries
  }

  /** A remote that no server has is untouched. */
  predicate Untouched(w: World, w': World, r: Id) {
    r in w.remotes && w.remotes[r].server == NULL ==> r in w'.remotes && w'.remotes[r] == w.remotes[r]
  }

  /** All of these at once, for server t and remote r. */
  predicate Spares(w: World, w': World, t: Id, r: Id) {
    StaysStopped(w, w', t) && KeepsQueries(w, w') && Untouched(w, w', r)
  }

  lemma BindSpares(w: World, s: Id, pair: Pair, t: Id, r: Id)
    requires Inv(w) && s in w.servers && w.servers[s].remote != NULL
    requires Good(pair, w.servers[s], w.remotes[w.servers[s].remote])
    requires pair.Both? && w.servers[s].stage == Stop ==> pair.sv.stage == Stop
    ensures Spares(w, Bind(w, s, pair), t, r)
  {
    ServerFacts(w, s);
  }

  lemma CloseBothSpares(w: World, s: Id, t: Id, r: Id)
    requires Inv(w) && s in w.servers
    ensures Spares(w, CloseBoth(w, s), t, r)
  {
    ServerFacts(w, s);
  }

  lemma CloseServerSpares(w: World, s: Id, t: Id, r: Id)
    requires Inv(w) && s in w.servers
    ensures Spares(w, CloseServer(w, s), t, r)
  {
    ServerFacts(w, s);
  }

  lemma LinkedSpares(w: World, s: Id, sv: Server, connect: Connect, t: Id, r: Id)
    requires Inv(w) && s in w.servers && w.servers[s].stage != Stop
    ensures Spares(w, Linked(w, s, sv, connect), t, r)
  {
    CloseServerSpares(w, s, t, r);
  }

  lemma StartedSpares(w: World, s: Id, sv: Server, p: seq<byte>, policy: Policy, connect: Connect, t: Id, r: Id)
    requires Inv(w) && s in w.servers && w.servers[s].stage != Stop && |p| > 0
    ensures Spares(w, Started(w, s, sv, p, policy, connect), t, r)
  {
    CloseServerSpares(w, s, t, r);
    match Parse(p, policy)
    case Accepted(_, offset, query) => LinkedSpares(w, s, AfterHeader(sv, p, offset), connect, t, r);
    case _ =>
  }

  lemma StreamedSpares(w: World, s: Id, raw: seq<byte>, d: Decrypted, sent: Sent, t: Id, r: Id)
    requires Inv(w) && s in w.servers && w.servers[s].stage == Stream && w.servers[s].recvOn && (d.Plain? ==> |d.p| > 0)
    ensures w.servers[s].remote in w.remotes
    ensures Spares(w, Bind(w, s, Streamed(w.servers[s], w.remotes[w.servers[s].remote], raw, d, sent)), t, r)
  {
    ServerFacts(w, s);
    var sv, rm := w.servers[s], w.remotes[w.servers[s].remote];
    if d.Plain? {
      StreamUpKeeps(sv, rm, d.p, sent);
    }
    BindSpares(w, s, Streamed(sv, rm, raw, d, sent), t, r);
  }

  lemma HungUpSpares(w: World, s: Id, t: Id, r: Id)
    requires Inv(w) && s in w.servers
    ensures var o := if w.servers[s].stage == Stream then w.servers[s].remote else NULL;
            Spares(w, CloseServer(CloseRemote(w, o), s), t, r)
  {
    ServerFacts(w, s);
    if w.servers[s].stage == Stream {
      CloseBothSpares(w, s, t, r);
    } else {
      CloseServerSpares(w, s, t, r);
    }
  }

  lemma BegunSpares(w: World, s: Id, raw: seq<byte>, d: Decrypted, connect: Connect, policy: Policy, t: Id, r: Id)
    requires Inv(w) && s in w.servers && w.servers[s].stage == Init && (d.Plain? ==> |d.p| > 0)
    ensures Spares(w, Begun(w, s, w.servers[s], raw, d, policy, connect), t, r)
  {
    if d.Plain? {
      StartedSpares(w, s, w.servers[s], d.p, policy, connect, t, r);
    }
  }

  lemma ReceivedSpares(w: World, s: Id, input: Input, connect: Connect, sent: Sent, policy: Policy, t: Id, r: Id)
    requires Inv(w) && s in w.servers && w.servers[s].recvOn && (input.Data? && input.d.Plain? ==> |input.d.p| > 0)
    ensures Spares(w, Received(w, s, input, connect, sent, policy), t, r)
  {
    ServerFacts(w, s);
    match input
    case NoData =>
    case Eof => HungUpSpares(w, s, t, r);
    case Broken => HungUpSpares(w, s, t, r);
    case Data(raw, d) =>
      match w.servers[s].stage
      case Stop =>
      case Stream => StreamedSpares(w, s, raw, d, sent, t, r);
      case _ => BegunSpares(w, s, raw, d, connect, policy, t, r);
  }

  lemma AnsweredSpares(w: World, r: Id, chunk: FromRemote, sent: Sent, t: Id, o: Id)
    requires Inv(w) && r in w.remotes && w.remotes[r].recvOn && (chunk.Chunk? ==> |chunk.c| > 0) && r != o
    ensures Spares(w, Answered(w, r, chunk, sent), t, o)
  {
    RemoteFacts(w, r);
    var s := w.remotes[r].server;
    if s != NULL {
      CloseBothSpares(w, s, t, o);
      if chunk.Chunk? && w.servers[s].stage != Stop && chunk.ok {
        StreamDownKeeps(w.servers[s], w.remotes[r], chunk.c, sent);
        BindSpares(w, s, StreamDown(w.servers[s], w.remotes[r], chunk.c, sent), t, o);
      }
    }
  }

  /** No event but the answer of a lookup, or the callback of the remote itself, touches any of these. */
  lemma StepSpares(w: World, e: Event, policy: Policy, t: Id, r: Id)
    requires Inv(w) && Enabled(w, e) && !e.Dns? && !(e.RemoteRecv? && e.r == r)
    ensures Spares(w, Step(w, e, policy), t, r)
  {
    match e
    case Accept =>
      assert w.next !in w.servers;
    case ServerRecv(s, input, connect, sent) => ReceivedSpares(w, s, input, connect, sent, policy, t, r);
    case ServerSend(s, sent) =>
      ServerFacts(w, s);
      FlushDownKeeps(w.servers[s], w.remotes[w.servers[s].remote], sent);
      BindSpares(w, s, FlushDown(w.servers[s], w.remotes[w.servers[s].remote], sent), t, r);
    case ServerTimeout(s) => CloseBothSpares(w, s, t, r);
    case RemoteRecv(o, chunk, sent) => AnsweredSpares(w, o, chunk, sent, t, r);
    case RemoteSend(o, peer, sent) =>
      RemoteFacts(w, o);
      var s := w.remotes[o].server;
      FlushUpKeeps(w.servers[s], w.remotes[o], peer, sent);
      BindSpares(w, s, FlushUp(w.servers[s], w.remotes[o], peer, sent), t, r);
  }

  // ---------- name lookups ----------

  /** The answer to one lookup: while the other is under way nothing else changes; the second answer runs the client
      callback and frees the query. */
  lemma LookedOnce(w: World, q: Id, v4: bool, found: seq<Sockaddr>, connect: Connect)
    requires Inv(w) && Enabled(w, Dns(q, v4, found, connect))
    ensures var w' := Looked(w, q, v4, found, connect);
            if (if v4 then w.queries[q].v6 else w.queries[q].v4) then
              w'.answered == w.answered && q in w'.queries && w'.servers == w.servers && w'.remotes == w.remotes
            else
              w'.answered == w.answered + [q] && q !in w'.queries && q !in w.answered
  {
  }

  /** No other callback answers a query or frees one. */
  lemma OnlyDnsAnswers(w: World, e: Event, policy: Policy)
    requires Inv(w) && Enabled(w, e) && !e.Dns?
    ensures KeepsQueries(w, Step(w, e, policy))
  {
    StepSpares(w, e, policy, NULL, NULL);
  }

  /** Servers and remotes are as they were, except for server s, which is not stopped, and for remotes that have a
      server. */
  predicate Only(w: World, w': World, s: Id, r: Id) {
    && (forall t :: t in w'.servers && t in w.servers && t != s ==> w'.servers[t].stage == w.servers[t].stage)
    && (r in w.remotes ==> r in w'.remotes && w'.remotes[r] == w.remotes[r])
  }

  lemma LinkedOnly(w: World, s: Id, sv: Server, connect: Connect, r: Id)
    requires s in w.servers && w.servers[s].remote !in w.remotes && w.next !in w.remotes
    ensures Only(w, Linked(w, s, sv, connect), s, r)
  {
  }

  lemma FreedOnly(w: World, q: Id, s: Id, r: Id)
    requires q in w.queries ==> w.queries[q].server == s || w.queries[q].server !in w.servers
    ensures Only(w, Freed(w, q), s, r)
  {
  }

  lemma ResolvedOnly(w: World, q: Id, connect: Connect, r: Id)
    requires q in w.queries && w.next !in w.remotes
    requires w.queries[q].server in w.servers ==> w.servers[w.queries[q].server].remote !in w.remotes
    ensures Only(w, Resolved(w, q, connect), w.queries[q].server, r)
  {
    var s := w.queries[q].server;
    if s in w.servers {
      LinkedOnly(w, s, w.servers[s], connect, r);
    }
  }

  /** An answer leaves stopped servers stopped, and touches no remote that was left behind. */
  lemma LookedSpares(w: World, q: Id, v4: bool, found: seq<Sockaddr>, connect: Connect, t: Id, r: Id)
    requires Inv(w) && q in w.queries
    ensures StaysStopped(w, Looked(w, q, v4, found, connect), t) && Untouched(w, Looked(w, q, v4, found, connect), r)
  {
    var s := w.queries[q].server;
    if s != NULL {
      ServerFacts(w, s);
    }
    var qu := Noted(w.queries[q], v4, found);
    var w1 := w.(queries := w.queries[q := qu]);
    ResolvedOnly(w1, q, connect, r);
    FreedOnly(Resolved(w1, q, connect), q, s, r);
  }

  /** An answer for a server that was closed touches no server and no remote. */
  lemma LateAnswerTouchesNothing(w: World, q: Id, v4: bool, found: seq<Sockaddr>, connect: Connect)
    requires Inv(w) && Enabled(w, Dns(q, v4, found, connect)) && w.queries[q].server == NULL
    ensures var w' := Looked(w, q, v4, found, connect); w'.servers == w.servers && w'.remotes == w.remotes
  {
  }

  /** In every run a query's client callback runs at most once, and the query is gone after it. */
  lemma AnsweredAtMostOnce(trace: seq<World>, events: seq<Event>, policy: Policy, n: nat)
    requires IsRun(trace, events, policy) && n <= |events|
    ensures forall i, j :: 0 <= i < j < |trace[n].answered| ==> trace[n].answered[i] != trace[n].answered[j]
    ensures forall i :: 0 <= i < |trace[n].answered| ==> trace[n].answered[i] !in trace[n].queries
  {
    RunKeeps(trace, events, policy, n);
  }

  // ---------- a remote left behind ----------

  /** When a stopped server is closed by its client, or its socket breaks, its remote is left behind. It will be closed
      by its own callback exactly if it is still being read, which is so exactly if nothing was pending toward the
      client. */
  lemma LeftBehind(w: World, s: Id, input: Input, connect: Connect, sent: Sent, policy: Policy)
    requires Inv(w) && s in w.servers && w.servers[s].stage == Stop && w.servers[s].remote != NULL
    requires input.Eof? || input.Broken?
    ensures var w' := Step(w, ServerRecv(s, input, connect, sent), policy);
            var r := w.servers[s].remote;
            && r in w'.remotes && w'.remotes[r].server == NULL && s !in w'.servers
            && (Enabled(w', RemoteRecv(r, RemoteNoData, sent)) <==> !w.servers[s].sendOn)
            && !Enabled(w', RemoteSend(r, true, sent))
  {
    ServerFacts(w, s);
  }

  /** A remote without a server and with neither watcher on: nothing will run for it. */
  predicate Stranded(w: World, r: Id) {
    r in w.remotes && w.remotes[r].server == NULL && !w.remotes[r].recvOn && !w.remotes[r].sendOn
  }

  lemma StrandedStays(w: World, e: Event, policy: Policy, r: Id)
    requires Inv(w) && Enabled(w, e) && Stranded(w, r)
    ensures r in Step(w, e, policy).remotes && Step(w, e, policy).remotes[r] == w.remotes[r]
  {
    if e.Dns? {
      LookedSpares(w, e.q, e.v4, e.found, e.connect, NULL, r);
    } else {
      StepSpares(w, e, policy, NULL, r);
    }
  }

  /** Once stranded, a remote is never touched again: it is there, unchanged, in the rest of the run. */
  lemma {:induction false} LeftBehindForever(trace: seq<World>, events: seq<Event>, policy: Policy, m: nat, n: nat,
                                             r: Id)
    requires IsRun(trace, events, policy) && m <= n <= |events| && Stranded(trace[m], r)
    ensures r in trace[n].remotes && trace[n].remotes[r] == trace[m].remotes[r]
    decreases n
  {
    if m < n {
      LeftBehindForever(trace, events, policy, m, n - 1, r);
      RunKeeps(trace, events, policy, n - 1);
      StrandedStays(trace[n - 1], events[n - 1], policy, r);
      assert trace[n - 1 + 1] == Step(trace[n - 1], events[n - 1], policy);
    }
  }

  // ---------- exactly when a remote is stranded ----------

  /** The client of a stopped server goes, or its socket breaks, while something is still pending toward it. */
  predicate Strands(w: World, e: Event, r: Id) {
    && e.ServerRecv? && (e.input.Eof? || e.input.Broken?) && e.s in w.servers
    && w.servers[e.s].stage == Stop && w.servers[e.s].remote == r != NULL && w.servers[e.s].sendOn
  }

  /** No remote is stranded that was not stranded before. */
  predicate StrandsNone(w: World, w': World, r: Id) {
    Stranded(w', r) ==> Stranded(w, r)
  }

  lemma BindStrandsNone(w: World, s: Id, pair: Pair, r: Id)
    requires Inv(w) && s in w.servers && w.servers[s].remote != NULL
    requires Good(pair, w.servers[s], w.remotes[w.servers[s].remote])
    ensures StrandsNone(w, Bind(w, s, pair), r)
  {
    ServerFacts(w, s);
  }

  lemma CloseBothStrandsNone(w: World, s: Id, r: Id)
    requires Inv(w) && s in w.servers
    ensures StrandsNone(w, CloseBoth(w, s), r)
  {
    ServerFacts(w, s);
  }

  /** A server that has no remote leaves none behind. */
  lemma CloseAloneStrandsNone(w: World, s: Id, r: Id)
    requires s in w.servers && w.servers[s].remote !in w.remotes
    ensures StrandsNone(w, CloseServer(w, s), r)
  {
  }

  lemma LinkedStrandsNone(w: World, s: Id, sv: Server, connect: Connect, r: Id)
    requires s in w.servers && w.servers[s].remote !in w.remotes && s != NULL
    ensures StrandsNone(w, Linked(w, s, sv, connect), r)
  {
    CloseAloneStrandsNone(w, s, r);
  }

  lemma BegunStrandsNone(w: World, s: Id, raw: seq<byte>, d: Decrypted, policy: Policy, connect: Connect, r: Id)
    requires s in w.servers && w.servers[s].remote !in w.remotes && s != NULL
    ensures StrandsNone(w, Begun(w, s, w.servers[s], raw, d, policy, connect), r)
  {
    if d.Plain? && |d.p| > 0 {
      CloseAloneStrandsNone(w, s, r);
      match Parse(d.p, policy)
      case Accepted(_, offset, _) => LinkedStrandsNone(w, s, AfterHeader(w.servers[s], d.p, offset), connect, r);
      case _ =>
    }
  }

  /** The client goes: exactly a stopped server with something pending strands its remote. */
  lemma HungUpStrands(w: World, s: Id, r: Id)
    requires Inv(w) && s in w.servers && w.servers[s].recvOn && !Stranded(w, r)
    ensures var sv := w.servers[s];
            Stranded(CloseServer(CloseRemote(w, if sv.stage == Stream then sv.remote else NULL), s), r) <==>
            sv.stage == Stop && sv.remote == r != NULL && sv.sendOn
  {
    ServerFacts(w, s);
    if w.servers[s].stage == Stream {
      CloseBothStrandsNone(w, s, r);
    }
  }

  lemma DataStrandsNone(w: World, s: Id, raw: seq<byte>, d: Decrypted, connect: Connect, sent: Sent, policy: Policy,
                        r: Id)
    requires Inv(w) && s in w.servers && w.servers[s].recvOn && (d.Plain? ==> |d.p| > 0)
    ensures StrandsNone(w, Received(w, s, Data(raw, d), connect, sent, policy), r)
  {
    ServerFacts(w, s);
    var sv := w.servers[s];
    if sv.stage == Stream {
      var rm := w.remotes[sv.remote];
      if d.Plain? {
        StreamUpKeeps(sv, rm, d.p, sent);
      }
      BindStrandsNone(w, s, Streamed(sv, rm, raw, d, sent), r);
    } else if sv.stage == Init {
      BegunStrandsNone(w, s, raw, d, policy, connect, r);
    }
  }

  lemma AnsweredStrandsNone(w: World, o: Id, chunk: FromRemote, sent: Sent, r: Id)
    requires Inv(w) && o in w.remotes && w.remotes[o].recvOn && (chunk.Chunk? ==> |chunk.c| > 0)
    ensures StrandsNone(w, Answered(w, o, chunk, sent), r)
  {
    RemoteFacts(w, o);
    var s := w.remotes[o].server;
    if s != NULL {
      CloseBothStrandsNone(w, s, r);
      if chunk.Chunk? && w.servers[s].stage != Stop && chunk.ok {
        StreamDownKeeps(w.servers[s], w.remotes[o], chunk.c, sent);
        BindStrandsNone(w, s, StreamDown(w.servers[s], w.remotes[o], chunk.c, sent), r);
      }
    }
  }

  lemma LookedStrandsNone(w: World, q: Id, v4: bool, found: seq<Sockaddr>, connect: Connect, r: Id)
    requires Inv(w) && q in w.queries
    ensures StrandsNone(w, Looked(w, q, v4, found, connect), r)
  {
    var s := w.queries[q].server;
    var w1 := w.(queries := w.queries[q := Noted(w.queries[q], v4, found)]);
    if s != NULL {
      ServerFacts(w, s);
      CloseAloneStrandsNone(w1, s, r);
      LinkedStrandsNone(w1, s, w1.servers[s], connect, r);
    }
  }

  /** Of all callbacks, exactly that one strands a remote, and only the remote of that server. */
  lemma StrandedExactly(w: World, e: Event, policy: Policy, r: Id)
    requires Inv(w) && Enabled(w, e)
    ensures Stranded(Step(w, e, policy), r) <==> Stranded(w, r) || Strands(w, e, r)
  {
    if Stranded(w, r) {
      StrandedStays(w, e, policy, r);
    } else {
      StrandsExactly(w, e, policy, r);
    }
  }

  lemma StrandsExactly(w: World, e: Event, policy: Policy, r: Id)
    requires Inv(w) && Enabled(w, e) && !Stranded(w, r)
    ensures Stranded(Step(w, e, policy), r) <==> Strands(w, e, r)
  {
    match e
    case Accept =>
    case ServerRecv(s, input, connect, sent) =>
      if input.Data? {
        DataStrandsNone(w, s, input.raw, input.d, connect, sent, policy, r);
      } else {
        HungUpStrands(w, s, r);
      }
    case ServerSend(s, sent) =>
      ServerFacts(w, s);
      FlushDownKeeps(w.servers[s], w.remotes[w.servers[s].remote], sent);
      BindStrandsNone(w, s, FlushDown(w.servers[s], w.remotes[w.servers[s].remote], sent), r);
    case ServerTimeout(s) => CloseBothStrandsNone(w, s, r);
    case RemoteRecv(o, chunk, sent) => AnsweredStrandsNone(w, o, chunk, sent, r);
    case RemoteSend(o, peer, sent) =>
      RemoteFacts(w, o);
      var s := w.remotes[o].server;
      FlushUpKeeps(w.servers[s], w.remotes[o], peer, sent);
      BindStrandsNone(w, s, FlushUp(w.servers[s], w.remotes[o], peer, sent), r);
    case Dns(q, v4, found, connect) => LookedStrandsNone(w, q, v4, found, connect, r);
  }

  /** Over every run: a remote is stranded if and only if some stopped server that had it lost its client while
      something was pending toward that client. A run without such an event leaks nothing. */
  lemma {:induction false} LeaksExactly(trace: seq<World>, events: seq<Event>, policy: Policy, r: Id, n: nat)
    requires IsRun(trace, events, policy) && n <= |events|
    ensures Stranded(trace[n], r) <==> exists i :: 0 <= i < n && Strands(trace[i], events[i], r)
  {
    if n > 0 {
      LeaksExactly(trace, events, policy, r, n - 1);
      RunKeeps(trace, events, policy, n - 1);
      StrandedExactly(trace[n - 1], events[n - 1], policy, r);
      assert trace[n - 1 + 1] == Step(trace[n - 1], events[n - 1], policy);
    }
  }

  // A run that strands a remote: a client connects and sends the header of an IPv4 address, the remote answers while
  // the client takes nothing, the client then sends bytes that cannot be decrypted, and goes.

  const HEADER: seq<byte> := [1, 0, 0, 0, 0, 0, 0]

  const STRANDING: seq<Event> := [
    Accept,
    ServerRecv(1, Data(HEADER, Plain(HEADER)), Opened(0), Again),
    RemoteSend(2, true, Again),
    RemoteRecv(2, Chunk([0], [0], true), Again),
    ServerRecv(1, Data([0], Bad), Refused, Again),
    ServerRecv(1, Eof, Refused, Again)
  ]

  function Connection(sv: Server, rm: Remote): World {
    World(map[1 := sv], map[2 := rm], map[], 3, [])
  }

  const NO_LOG := Log([], [], [], [])
  const ANSWER := Log([], [], [0], [])

  const STRANDING_TRACE: seq<World> := [
    START,
    World(map[1 := NEW_SERVER], map[], map[], 2, []),
    Connection(Server(Init, Buf(HEADER, 7, 0), false, false, 2, NULL, NO_LOG), Remote(EMPTY, false, true, false, 1)),
    Connection(Server(Stream, Buf(HEADER, 7, 0), true, false, 2, NULL, NO_LOG), Remote(EMPTY, true, false, true, 1)),
    Connection(Server(Stream, Buf([0], 0, 1), true, true, 2, NULL, ANSWER), Remote(EMPTY, false, false, true, 1)),
    Connection(Server(Stop, Buf([0], 0, 1), true, true, 2, NULL, ANSWER),
      Remote(Buf([0], 0, 1), false, false, true, 1)),
    World(map[], map[2 := Remote(Buf([0], 0, 1), false, false, true, NULL)], map[], 3, [])
  ]

  /** The header is read and the connection made. */
  lemma StrandingConnects(policy: Policy)
    ensures Step(STRANDING_TRACE[1], STRANDING[1], policy) == STRANDING_TRACE[2]
  {
    var w, sv := STRANDING_TRACE[1], AfterHeader(NEW_SERVER, HEADER, 7);
    assert HEADER[7..] == [] && [] + Take(sv.buf, 0) == [];
    var linked := sv.(remote := 2);
    assert Attach(sv, 1, 2, 0) == Both(linked, Remote(EMPTY, false, true, false, 1));
    assert Parse(HEADER, policy) == Accepted(Ip4(HEADER[1..5], HEADER[5..7]), 7, false);
    assert Started(w, 1, NEW_SERVER, HEADER, policy, Opened(0)) == Linked(w, 1, sv, Opened(0));
  }

  lemma StrandingOpens(policy: Policy)
    ensures forall i :: 0 <= i < 3 ==>
              Enabled(STRANDING_TRACE[i], STRANDING[i]) &&
                STRANDING_TRACE[i + 1] == Step(STRANDING_TRACE[i], STRANDING[i], policy)
  {
    assert Step(STRANDING_TRACE[0], STRANDING[0], policy) == STRANDING_TRACE[1];
    StrandingConnects(policy);
    assert Step(STRANDING_TRACE[2], STRANDING[2], policy) == STRANDING_TRACE[3];
  }

  lemma StrandingCloses(policy: Policy)
    ensures forall i :: 3 <= i < 6 ==>
              Enabled(STRANDING_TRACE[i], STRANDING[i]) &&
                STRANDING_TRACE[i + 1] == Step(STRANDING_TRACE[i], STRANDING[i], policy)
  {
    var zero: seq<byte> := [0];
    assert [] + zero == zero;
    assert Step(STRANDING_TRACE[3], STRANDING[3], policy) == STRANDING_TRACE[4];
    assert Step(STRANDING_TRACE[4], STRANDING[4], policy) == STRANDING_TRACE[5];
    assert Step(STRANDING_TRACE[5], STRANDING[5], policy) == STRANDING_TRACE[6];
  }

  /** The leak is real: these six callbacks can run in this order, and they strand remote 2. */
  lemma StrandedIsReached(policy: Policy)
    ensures IsRun(STRANDING_TRACE, STRANDING, policy) && Stranded(STRANDING_TRACE[6], 2)
  {
    StrandingOpens(policy);
    StrandingCloses(policy);
  }

  /** STAGE_STOP is absorbing: a server in it stays in it until it is closed. */
  lemma StopIsAbsorbing(w: World, e: Event, policy: Policy, s: Id)
    requires Inv(w) && Enabled(w, e) && s in w.servers && w.servers[s].stage == Stop
    ensures s in Step(w, e, policy).servers ==> Step(w, e, policy).servers[s].stage == Stop
  {
    if e.Dns? {
      LookedSpares(w, e.q, e.v4, e.found, e.connect, s, NULL);
    } else {
      StepSpares(w, e, policy, s, NULL);
    }
  }
}
