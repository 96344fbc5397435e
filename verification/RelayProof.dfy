/**
 What holds of the TCP relay in every run: its objects point at one another consistently, and each connection relays in
 order.
 */
module RelayProof {
  import opened Bytes
  import opened TcpHeader
  import opened RelaySpec
  import opened RelayWorld

  // ---------- the invariant ----------
  // The conditions on single connections are parameters here, so that the facts about pointers do not depend on them.

  ghost predicate ServersOk(w: World, pairOk: (Server, Remote) -> bool, aloneOk: Server -> bool) {
    forall s :: s in w.servers ==>
      var sv := w.servers[s];
      if sv.remote == NULL then aloneOk(sv)
      else sv.remote in w.remotes && w.remotes[sv.remote].server == s && pairOk(sv, w.remotes[sv.remote])
  }

  /** A remote points back at the server that has it; one that was left behind has nothing to send. */
  ghost predicate RemotesOk(w: World) {
    forall r :: r in w.remotes ==>
      var s := w.remotes[r].server;
      if s == NULL then !w.remotes[r].sendOn else s in w.servers && w.servers[s].remote == r
  }

  /** server.query = q exactly when q.server = server. */
  ghost predicate QueriesOk(w: World) {
    && (forall s :: s in w.servers && w.servers[s].query != NULL ==>
          w.servers[s].query in w.queries && w.queries[w.servers[s].query].server == s)
    && forall q :: q in w.queries ==>
         var s := w.queries[q].server;
         (w.queries[q].v4 || w.queries[q].v6) && (s != NULL ==> s in w.servers && w.servers[s].query == q)
  }

  ghost predicate Numbered(w: World) {
    && w.next > 0 && (forall s :: s in w.servers ==> 0 < s < w.next) && (forall r :: r in w.remotes ==> 0 < r < w.next)
    && forall q :: q in w.queries ==> 0 < q < w.next
  }

  /** No query is answered twice, and those answered are gone. */
  ghost predicate AnsweredOnce(w: World) {
    && (forall i, j :: 0 <= i < j < |w.answered| ==> w.answered[i] != w.answered[j])
    && forall i :: 0 <= i < |w.answered| ==> w.answered[i] !in w.queries && w.answered[i] < w.next
  }

  ghost predicate Shape(w: World, pairOk: (Server, Remote) -> bool, aloneOk: Server -> bool) {
    ServersOk(w, pairOk, aloneOk) && RemotesOk(w) && QueriesOk(w) && Numbered(w) && AnsweredOnce(w)
  }

  ghost predicate Inv(w: World) {
    Shape(w, PairOk, AloneOk)
  }

  // ---------- changes to a consistent world ----------

  lemma SetPair(w: World, s: Id, sv: Server, rm: Remote, pairOk: (Server, Remote) -> bool, aloneOk: Server -> bool)
    requires Shape(w, pairOk, aloneOk) && s in w.servers && w.servers[s].remote != NULL
    requires sv.remote == w.servers[s].remote && sv.query == w.servers[s].query && rm.server == s && pairOk(sv, rm)
    ensures Shape(Bind(w, s, Both(sv, rm)), pairOk, aloneOk)
  {
  }

  lemma SetAlone(w: World, s: Id, sv: Server, pairOk: (Server, Remote) -> bool, aloneOk: Server -> bool)
    requires Shape(w, pairOk, aloneOk) && s in w.servers
    requires w.servers[s].remote == sv.remote == NULL && sv.query == w.servers[s].query && aloneOk(sv)
    ensures Shape(w.(servers := w.servers[s := sv]), pairOk, aloneOk)
  {
  }

  lemma DropBoth(w: World, s: Id, pairOk: (Server, Remote) -> bool, aloneOk: Server -> bool)
    requires Shape(w, pairOk, aloneOk) && s in w.servers
    ensures Shape(CloseBoth(w, s), pairOk, aloneOk)
  {
    var q, r := w.servers[s].query, w.servers[s].remote;
    var w' := CloseBoth(w, s);
    assert w'.servers == w.servers - {s};
    assert w'.remotes == if r == NULL then w.remotes else w.remotes - {r};
    assert w'.queries == if q == NULL then w.queries else w.queries[q := w.queries[q].(server := NULL)];
  }

  /** A server may go without its remote when the remote has nothing to send. */
  lemma DropServer(w: World, s: Id, pairOk: (Server, Remote) -> bool, aloneOk: Server -> bool)
    requires Shape(w, pairOk, aloneOk) && s in w.servers
    requires w.servers[s].remote != NULL ==> !w.remotes[w.servers[s].remote].sendOn
    ensures Shape(CloseServer(w, s), pairOk, aloneOk)
  {
  }

  lemma DropOrphan(w: World, r: Id, pairOk: (Server, Remote) -> bool, aloneOk: Server -> bool)
    requires Shape(w, pairOk, aloneOk) && r in w.remotes && w.remotes[r].server == NULL
    ensures Shape(CloseRemote(w, r), pairOk, aloneOk)
  {
  }

  lemma AddServer(w: World, pairOk: (Server, Remote) -> bool, aloneOk: Server -> bool)
    requires Shape(w, pairOk, aloneOk) && aloneOk(NEW_SERVER)
    ensures Shape(Welcomed(w), pairOk, aloneOk)
  {
  }

  /** A new remote for a server that has none and no query. */
  lemma AddRemote(w: World, s: Id, sv: Server, rm: Remote, pairOk: (Server, Remote) -> bool, aloneOk: Server -> bool)
    requires Shape(w, pairOk, aloneOk) && s in w.servers && w.servers[s].remote == NULL
    requires sv.query == w.servers[s].query && sv.remote == w.next && rm.server == s && pairOk(sv, rm)
    ensures Shape(Bind(w.(next := w.next + 1), s, Both(sv, rm)), pairOk, aloneOk)
  {
  }

  /** A new query for a server that has none. */
  lemma AddQuery(w: World, s: Id, sv: Server, pairOk: (Server, Remote) -> bool, aloneOk: Server -> bool)
    requires Shape(w, pairOk, aloneOk) && s in w.servers && w.servers[s].remote == NULL && w.servers[s].query == NULL
    requires sv.remote == NULL && sv.query == w.next && aloneOk(sv)
    ensures Shape(w.(servers := w.servers[s := sv], queries := w.queries[w.next := Query(s, true, true, [])],
            next := w.next + 1),
                  pairOk, aloneOk)
  {
  }

  /** One lookup is answered and the other is still under way. */
  lemma SetQuery(w: World, q: Id, qu: Query, pairOk: (Server, Remote) -> bool, aloneOk: Server -> bool)
    requires Shape(w, pairOk, aloneOk) && q in w.queries && qu.server == w.queries[q].server && (qu.v4 || qu.v6)
    ensures Shape(w.(queries := w.queries[q := qu]), pairOk, aloneOk)
  {
  }

  /** A query that no server waits for is freed. */
  lemma DropQuery(w: World, q: Id, pairOk: (Server, Remote) -> bool, aloneOk: Server -> bool)
    requires Shape(w, pairOk, aloneOk) && q in w.queries && w.queries[q].server == NULL
    ensures Shape(w.(queries := w.queries - {q}, answered := w.answered + [q]), pairOk, aloneOk)
  {
  }

  /** A query gives way to a new remote. */
  lemma QueryToRemote(w: World, q: Id, s: Id, sv: Server, rm: Remote, pairOk: (Server, Remote) -> bool,
                      aloneOk: Server -> bool)
    requires Shape(w, pairOk, aloneOk) && q in w.queries && w.queries[q].server == s
    requires s in w.servers && w.servers[s].remote == NULL
    requires sv.query == NULL && sv.remote == w.next && rm.server == s && pairOk(sv, rm)
    ensures Shape(w.(servers := w.servers[s := sv], remotes := w.remotes[w.next := rm], queries := w.queries - {q},
                     next := w.next + 1, answered := w.answered + [q]), pairOk, aloneOk)
  {
    var w' := w.(servers := w.servers[s := sv], remotes := w.remotes[w.next := rm], queries := w.queries - {q},
                 next := w.next + 1, answered := w.answered + [q]);
    assert QueriesOk(w') && AnsweredOnce(w');
  }

  // ---------- every callback keeps the invariant ----------

  /** What a consistent world says about one server. */
  lemma ServerFacts(w: World, s: Id)
    requires Inv(w) && s in w.servers
    ensures var sv := w.servers[s];
            if sv.remote == NULL then AloneOk(sv)
            else sv.remote in w.remotes && w.remotes[sv.remote].server == s && PairOk(sv, w.remotes[sv.remote])
    ensures NULL !in w.servers && NULL !in w.remotes && NULL !in w.queries
  {
  }

  /** What it says about one remote. */
  lemma RemoteFacts(w: World, r: Id)
    requires Inv(w) && r in w.remotes
    ensures var s := w.remotes[r].server;
            if s == NULL then !w.remotes[r].sendOn
            else s in w.servers && w.servers[s].remote == r && PairOk(w.servers[s], w.remotes[r])
    ensures NULL !in w.servers && NULL !in w.remotes
  {
    var s := w.remotes[r].server;
    if s != NULL {
      ServerFacts(w, s);
    }
  }

  lemma BindKeeps(w: World, s: Id, pair: Pair)
    requires Inv(w) && s in w.servers && w.servers[s].remote != NULL
    requires Good(pair, w.servers[s], w.remotes[w.servers[s].remote])
    ensures Inv(Bind(w, s, pair))
  {
    ServerFacts(w, s);
    if pair.Both? {
      SetPair(w, s, pair.sv, pair.rm, PairOk, AloneOk);
    } else {
      DropBoth(w, s, PairOk, AloneOk);
    }
  }

  lemma FlushedKeeps(w: World, s: Id, sent: Sent)
    requires Inv(w) && s in w.servers && w.servers[s].sendOn
    ensures Inv(Flushed(w, s, sent)) && w.servers[s].remote in w.remotes
  {
    ServerFacts(w, s);
    var sv := w.servers[s];
    FlushDownKeeps(sv, w.remotes[sv.remote], sent);
    BindKeeps(w, s, FlushDown(sv, w.remotes[sv.remote], sent));
  }

  lemma PushedKeeps(w: World, r: Id, peer: bool, sent: Sent)
    requires Inv(w) && r in w.remotes && w.remotes[r].sendOn
    ensures Inv(Pushed(w, r, peer, sent)) && w.remotes[r].server in w.servers
  {
    RemoteFacts(w, r);
    var s := w.remotes[r].server;
    FlushUpKeeps(w.servers[s], w.remotes[r], peer, sent);
    BindKeeps(w, s, FlushUp(w.servers[s], w.remotes[r], peer, sent));
  }

  /** Closing a remote and then its server is closing both. */
  lemma CloseInTurn(w: World, s: Id)
    requires Inv(w) && s in w.servers
    ensures Inv(CloseServer(CloseRemote(w, w.servers[s].remote), s))
  {
    DropBoth(w, s, PairOk, AloneOk);
  }

  lemma OverwriteKeeps(sv: Server, rm: Remote, raw: seq<byte>)
    requires PairOk(sv, rm) && sv.stage == Stop
    ensures PairOk(sv.(buf := Overwrite(sv.buf, raw)), rm)
  {
  }

  lemma AnsweredKeeps(w: World, r: Id, chunk: FromRemote, sent: Sent)
    requires Inv(w) && r in w.remotes && w.remotes[r].recvOn && (chunk.Chunk? ==> |chunk.c| > 0)
    ensures Inv(Answered(w, r, chunk, sent))
  {
    RemoteFacts(w, r);
    var rm := w.remotes[r];
    var s := rm.server;
    if s == NULL {
      DropOrphan(w, r, PairOk, AloneOk);
    } else {
      CloseInTurn(w, s);
      var sv := w.servers[s];
      if chunk.Chunk? && sv.stage == Stop {
        var sv' := sv.(buf := Overwrite(sv.buf, chunk.raw));
        OverwriteKeeps(sv, rm, chunk.raw);
        SetPair(w, s, sv', rm, PairOk, AloneOk);
        assert w.remotes[r := rm] == w.remotes;
      } else if chunk.Chunk? && chunk.ok {
        StreamDownKeeps(sv, rm, chunk.c, sent);
        BindKeeps(w, s, StreamDown(sv, rm, chunk.c, sent));
      }
    }
  }

  /** A server that waits gets its remote or is closed. */
  lemma LinkedKeeps(w: World, s: Id, sv: Server, connect: Connect)
    requires Inv(w) && s in w.servers && w.servers[s].remote == NULL && w.servers[s].query == NULL
    requires Waits(sv)
    ensures Inv(Linked(w, s, sv, connect))
  {
    match connect
    case Refused => DropServer(w, s, PairOk, AloneOk);
    case Opened(n) =>
      AttachKeeps(sv, s, w.next, n);
      var pair := Attach(sv, s, w.next, n);
      AddRemote(w, s, pair.sv, pair.rm, PairOk, AloneOk);
  }

  lemma StartedKeeps(w: World, s: Id, p: seq<byte>, policy: Policy, connect: Connect)
    requires Inv(w) && s in w.servers && w.servers[s].stage == Init && w.servers[s].recvOn && |p| > 0
    ensures Inv(Started(w, s, w.servers[s], p, policy, connect))
  {
    ServerFacts(w, s);
    var sv := w.servers[s];
    match Parse(p, policy)
    case Rejected => SetAlone(w, s, sv.(stage := Stop, buf := Buf(p, sv.buf.idx, |p|)), PairOk, AloneOk);
    case Blocked => DropServer(w, s, PairOk, AloneOk);
    case Accepted(_, offset, query) =>
      AfterHeaderWaits(sv, p, offset);
      var ready := AfterHeader(sv, p, offset);
      if !query {
        LinkedKeeps(w, s, ready, connect);
      } else {
        AddQuery(w, s, ready.(stage := Resolve, query := w.next), PairOk, AloneOk);
      }
  }

  /** server_recv_cb in STAGE_STOP only overwrites the server's buffer. */
  lemma StoppedKeeps(w: World, s: Id, raw: seq<byte>)
    requires Inv(w) && s in w.servers && w.servers[s].stage == Stop
    ensures Inv(w.(servers := w.servers[s := w.servers[s].(buf := Overwrite(w.servers[s].buf, raw))]))
  {
    ServerFacts(w, s);
    var sv := w.servers[s];
    var sv' := sv.(buf := Overwrite(sv.buf, raw));
    if sv.remote == NULL {
      SetAlone(w, s, sv', PairOk, AloneOk);
    } else {
      var rm := w.remotes[sv.remote];
      OverwriteKeeps(sv, rm, raw);
      SetPair(w, s, sv', rm, PairOk, AloneOk);
      assert w.remotes[sv.remote := rm] == w.remotes;
    }
  }

  /** server_recv_cb in STAGE_STREAM: a decryption error stops the server, an incomplete chunk changes nothing. */
  lemma StreamedKeeps(w: World, s: Id, raw: seq<byte>, d: Decrypted, sent: Sent)
    requires Inv(w) && s in w.servers && w.servers[s].stage == Stream && w.servers[s].recvOn && (d.Plain? ==> |d.p| > 0)
    ensures w.servers[s].remote in w.remotes
    ensures Inv(Bind(w, s, Streamed(w.servers[s], w.remotes[w.servers[s].remote], raw, d, sent)))
  {
    ServerFacts(w, s);
    var sv, rm := w.servers[s], w.remotes[w.servers[s].remote];
    if d.Plain? {
      StreamUpKeeps(sv, rm, d.p, sent);
    }
    BindKeeps(w, s, Streamed(sv, rm, raw, d, sent));
  }

  /** The client has gone, or its socket is broken: in STAGE_STREAM both ends are closed, in STAGE_STOP the remote is
      left behind. */
  lemma HungUpKeeps(w: World, s: Id)
    requires Inv(w) && s in w.servers && w.servers[s].recvOn
    ensures Inv(CloseServer(CloseRemote(w, if w.servers[s].stage == Stream then w.servers[s].remote else NULL), s))
  {
    ServerFacts(w, s);
    CloseInTurn(w, s);
    DropServerIf(w, s);
  }

  lemma DropServerIf(w: World, s: Id)
    requires Inv(w) && s in w.servers
    ensures (w.servers[s].remote in w.remotes ==> !w.remotes[w.servers[s].remote].sendOn) ==> Inv(CloseServer(w, s))
  {
    ServerFacts(w, s);
    if w.servers[s].remote in w.remotes ==> !w.remotes[w.servers[s].remote].sendOn {
      DropServer(w, s, PairOk, AloneOk);
    }
  }

  lemma ReceivedKeeps(w: World, s: Id, input: Input, connect: Connect, sent: Sent, policy: Policy)
    requires Inv(w) && s in w.servers && w.servers[s].recvOn && (input.Data? && input.d.Plain? ==> |input.d.p| > 0)
    ensures Inv(Received(w, s, input, connect, sent, policy))
  {
    ServerFacts(w, s);
    var sv := w.servers[s];
    match input
    case NoData =>
    case Eof => HungUpKeeps(w, s);
    case Broken => HungUpKeeps(w, s);
    case Data(raw, d) =>
      match sv.stage
      case Stop => StoppedKeeps(w, s, raw);
      case Stream => StreamedKeeps(w, s, raw, d, sent);
      case _ => BegunKeeps(w, s, raw, d, connect, policy);
  }

  /** server_recv_cb in STAGE_INIT. */
  lemma BegunKeeps(w: World, s: Id, raw: seq<byte>, d: Decrypted, connect: Connect, policy: Policy)
    requires Inv(w) && s in w.servers && w.servers[s].recvOn && (d.Plain? ==> |d.p| > 0)
    requires w.servers[s].stage == Init || w.servers[s].stage == Resolve
    ensures w.servers[s].stage == Init
    ensures Inv(Begun(w, s, w.servers[s], raw, d, policy, connect))
  {
    ServerFacts(w, s);
    var sv := w.servers[s];
    match d
    case Bad => SetAlone(w, s, sv.(stage := Stop, buf := Buf(raw, sv.buf.idx, |raw|)), PairOk, AloneOk);
    case More => SetAlone(w, s, sv.(buf := Buf(raw, sv.buf.idx, |raw|)), PairOk, AloneOk);
    case Plain(p) => StartedKeeps(w, s, p, policy, connect);
  }

  /** The answer to both lookups, for a server that still waits. */
  lemma ResolvedKeeps(w: World, q: Id, s: Id, n: nat)
    requires Inv(w) && q in w.queries && w.queries[q].server == s && s in w.servers
    ensures w.servers[s].query == q
    ensures Inv(Freed(Linked(w, s, w.servers[s], Opened(n)), q).(answered := w.answered + [q]))
  {
    ServerFacts(w, s);
    var sv := w.servers[s];
    assert AloneOk(sv) && sv.stage == Resolve;
    var pair, pair' := Attach(sv, s, w.next, n), Attach(sv.(query := NULL), s, w.next, n);
    assert pair'.sv == pair.sv.(query := NULL) && pair'.rm == pair.rm;
    AttachKeeps(sv.(query := NULL), s, w.next, n);
    QueryToRemote(w, q, s, pair'.sv, pair'.rm, PairOk, AloneOk);
    var w' := Linked(w, s, sv, Opened(n));
    assert w'.servers[s := pair'.sv] == w.servers[s := pair'.sv];
  }

  /** A failed answer: the server is closed and the query freed. */
  lemma UnresolvedKeeps(w: World, q: Id, s: Id)
    requires Inv(w) && q in w.queries && w.queries[q].server == s && s in w.servers
    ensures Inv(Freed(CloseServer(w, s), q).(answered := w.answered + [q]))
  {
    ServerFacts(w, s);
    DropServer(w, s, PairOk, AloneOk);
    var w' := CloseServer(w, s);
    DropQuery(w', q, PairOk, AloneOk);
  }

  /** Once the query is freed, only the server and the addresses it had matter. */
  lemma SameOnceFreed(w: World, q: Id, a: Query, b: Query, connect: Connect)
    requires a.server == b.server && a.responses == b.responses
    requires q in w.queries && Inv(w) && w.queries[q].server == a.server
    ensures Freed(Resolved(w.(queries := w.queries[q := a]), q, connect), q) ==
            Freed(Resolved(w.(queries := w.queries[q := b]), q, connect), q)
  {
    var wa, wb := w.(queries := w.queries[q := a]), w.(queries := w.queries[q := b]);
    assert wa.queries - {q} == wb.queries - {q};
    if a.server in w.servers {
      assert w.servers[a.server].query == q;
      var none := a.(server := NULL);
      assert wa.queries[q := none] - {q} == wb.queries[q := b.(server := NULL)] - {q};
    }
  }

  /** The client callback of a query, and its release, once both lookups are answered. */
  lemma DoneKeeps(w: World, q: Id, connect: Connect)
    requires Inv(w) && q in w.queries
    ensures Inv(Freed(Resolved(w, q, connect), q).(answered := w.answered + [q]))
  {
    var s := w.queries[q].server;
    if s == NULL {
      DropQuery(w, q, PairOk, AloneOk);
    } else {
      UnresolvedKeeps(w, q, s);
      if connect.Opened? {
        ResolvedKeeps(w, q, s, connect.n);
      }
    }
  }

  lemma LookedKeeps(w: World, q: Id, v4: bool, found: seq<Sockaddr>, connect: Connect)
    requires Inv(w) && q in w.queries
    ensures Inv(Looked(w, q, v4, found, connect))
  {
    var qu := Noted(w.queries[q], v4, found);
    if qu.v4 || qu.v6 {
      SetQuery(w, q, qu, PairOk, AloneOk);
    } else {
      var live := qu.(v4 := true);
      SetQuery(w, q, live, PairOk, AloneOk);
      DoneKeeps(w.(queries := w.queries[q := live]), q, connect);
      SameOnceFreed(w, q, qu, live, connect);
    }
  }

  /** Every callback that may run keeps the relay consistent. */
  lemma StepKeeps(w: World, e: Event, policy: Policy)
    requires Inv(w) && Enabled(w, e)
    ensures Inv(Step(w, e, policy))
  {
    match e
    case Accept => AddServer(w, PairOk, AloneOk);
    case ServerRecv(s, input, connect, sent) => ReceivedKeeps(w, s, input, connect, sent, policy);
    case ServerSend(s, sent) => FlushedKeeps(w, s, sent);
    case ServerTimeout(s) => DropBoth(w, s, PairOk, AloneOk);
    case RemoteRecv(r, chunk, sent) => AnsweredKeeps(w, r, chunk, sent);
    case RemoteSend(r, peer, sent) => PushedKeeps(w, r, peer, sent);
    case Dns(q, v4, found, connect) => LookedKeeps(w, q, v4, found, connect);
  }

  // ---------- over every run ----------

  const START := World(map[], map[], map[], 1, [])

  /** The worlds that a run goes through, when each callback that runs may run. */
  ghost predicate IsRun(trace: seq<World>, events: seq<Event>, policy: Policy) {
    && |trace| == |events| + 1 && trace[0] == START
    && forall i :: 0 <= i < |events| ==>
      Enabled(trace[i], events[i]) && trace[i + 1] == Step(trace[i], events[i], policy)
  }

  lemma {:induction false} RunKeeps(trace: seq<World>, events: seq<Event>, policy: Policy, n: nat)
    requires IsRun(trace, events, policy) && n <= |events|
    ensures Inv(trace[n])
  {
    if n > 0 {
      RunKeeps(trace, events, policy, n - 1);
      StepKeeps(trace[n - 1], events[n - 1], policy);
      assert trace[n - 1 + 1] == Step(trace[n - 1], events[n - 1], policy);
    }
  }

  /** In every run, whatever was decrypted after the header has been sent to the remote, in order, except for what is
      still pending; until the server stops the same holds of the encrypted bytes toward the client. Once streaming,
      a direction has bytes pending exactly when its source is not read and its sink is waited for, so they are never
      overwritten. */
  lemma RelaysInOrder(trace: seq<World>, events: seq<Event>, policy: Policy, n: nat, s: Id)
    requires IsRun(trace, events, policy) && n <= |events|
    requires s in trace[n].servers && trace[n].servers[s].remote != NULL
    ensures trace[n].servers[s].remote in trace[n].remotes
    ensures var sv, rm := trace[n].servers[s], trace[n].remotes[trace[n].servers[s].remote];
            && sv.log.upSent + UpPending(rm) == sv.log.up
            && (sv.stage != Stop ==> sv.log.downSent + DownPending(sv) == sv.log.down)
            && (sv.stage == Stream ==> (UpPending(rm) != [] <==> rm.sendOn) && (rm.sendOn <==> !sv.recvOn))
            && (sv.stage == Stream ==> (DownPending(sv) != [] <==> sv.sendOn) && (sv.sendOn <==> !rm.recvOn))
  {
    RunKeeps(trace, events, policy, n);
    ServerFacts(trace[n], s);
  }

  /** A server in STAGE_STREAM has a live remote that points back at it; a server and a query, and a server and a
      remote, point at each other or not at all. */
  lemma PointersAgree(trace: seq<World>, events: seq<Event>, policy: Policy, n: nat)
    requires IsRun(trace, events, policy) && n <= |events|
    ensures var w := trace[n];
            && (forall s :: s in w.servers && w.servers[s].stage == Stream ==> w.servers[s].remote in w.remotes)
            && (forall s :: s in w.servers && w.servers[s].remote != NULL ==>
                  w.servers[s].remote in w.remotes && w.remotes[w.servers[s].remote].server == s)
            && (forall r :: r in w.remotes && w.remotes[r].server != NULL ==>
                  w.remotes[r].server in w.servers && w.servers[w.remotes[r].server].remote == r)
            && (forall s :: s in w.servers && w.servers[s].query != NULL ==>
                  w.servers[s].query in w.queries && w.queries[w.servers[s].query].server == s)
            && (forall q :: q in w.queries && w.queries[q].server != NULL ==>
                  w.queries[q].server in w.servers && w.servers[w.queries[q].server].query == q)
  {
    RunKeeps(trace, events, policy, n);
    var w := trace[n];
    forall s | s in w.servers
      ensures w.servers[s].stage == Stream ==> w.servers[s].remote in w.remotes
    {
      ServerFacts(w, s);
    }
  }
}
