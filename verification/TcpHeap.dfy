/**
 The live objects of src/server.c and what they stand for: together they mirror a world of the specification, and
 taking one out, changing it and putting it back keeps this. Closing follows the pointers and frees objects that
 nothing points at.
 */
module TcpHeap {
  import opened Bytes
  import opened Hiding
  import opened RelaySpec
  import opened RelayWorld
  import opened RelayProof
  import opened TcpObjects

  /** The live objects, by number. */
  datatype Heap = Heap(servers: map<Id, ServerObj>, remotes: map<Id, RemoteObj>, queries: map<Id, QueryObj>)

  ghost predicate ServerLive(h: Heap, p: ServerObj?) {
    p == null || (p.id in h.servers && h.servers[p.id] == p)
  }

  ghost predicate RemoteLive(h: Heap, p: RemoteObj?) {
    p == null || (p.id in h.remotes && h.remotes[p.id] == p)
  }

  ghost predicate QueryLive(h: Heap, p: QueryObj?) {
    p == null || (p.id in h.queries && h.queries[p.id] == p)
  }

  ghost predicate Named(h: Heap) {
    && NULL !in h.servers && NULL !in h.remotes && NULL !in h.queries
    && (forall s :: s in h.servers ==> h.servers[s].id == s) && (forall r :: r in h.remotes ==> h.remotes[r].id == r)
    && forall q :: q in h.queries ==> h.queries[q].id == q
  }

  // ---------- objects and their specification ----------

  ghost predicate ServerMirrors(h: Heap, o: ServerObj, sv: Server)
    reads o
  {
    AbsServer(o) == sv && RemoteLive(h, o.remote) && QueryLive(h, o.query)
  }

  ghost predicate RemoteMirrors(h: Heap, o: RemoteObj, rm: Remote)
    reads o
  {
    AbsRemote(o) == rm && ServerLive(h, o.server)
  }

  ghost predicate QueryMirrors(h: Heap, o: QueryObj, qu: Query)
    reads o
  {
    AbsQuery(o) == qu && ServerLive(h, o.server)
  }

  /** The live servers are those of the specification, apart from some that are being changed. */
  ghost predicate Servers(h: Heap, servers: map<Id, Server>, but: set<ServerObj>)
    reads h.servers.Values - but
  {
    forall k {:trigger InServers(k)} :: InServers(k) ==>
      && h.servers.Keys == servers.Keys
      && forall s :: s in h.servers && h.servers[s] !in but ==> ServerMirrors(h, h.servers[s], servers[s])
  }

  ghost predicate Remotes(h: Heap, remotes: map<Id, Remote>, but: set<RemoteObj>)
    reads h.remotes.Values - but
  {
    forall k {:trigger InRemotes(k)} :: InRemotes(k) ==>
      && h.remotes.Keys == remotes.Keys
      && forall r :: r in h.remotes && h.remotes[r] !in but ==> RemoteMirrors(h, h.remotes[r], remotes[r])
  }

  ghost predicate Queries(h: Heap, queries: map<Id, Query>, but: set<QueryObj>)
    reads h.queries.Values - but
  {
    forall k {:trigger InQueries(k)} :: InQueries(k) ==>
      && h.queries.Keys == queries.Keys
      && forall q :: q in h.queries && h.queries[q] !in but ==> QueryMirrors(h, h.queries[q], queries[q])
  }

  ghost predicate Mirrors(h: Heap, w: World)
    reads h.servers.Values, h.remotes.Values, h.queries.Values
  {
    Named(h) && Servers(h, w.servers, {}) && Remotes(h, w.remotes, {}) && Queries(h, w.queries, {})
  }

  lemma NoNull(h: Heap, w: World)
    requires Mirrors(h, w)
    ensures NULL !in w.servers && NULL !in w.remotes && NULL !in w.queries
    ensures h.servers.Keys == w.servers.Keys && h.remotes.Keys == w.remotes.Keys && h.queries.Keys == w.queries.Keys
  {
    assert InServers(0) && InRemotes(0) && InQueries(0);
  }

  lemma TakeServer(h: Heap, servers: map<Id, Server>, o: ServerObj)
    requires Named(h) && Servers(h, servers, {}) && ServerLive(h, o)
    ensures Servers(h, servers, {o}) && o.id in servers && ServerMirrors(h, o, servers[o.id])
  {
    assert InServers(0);
  }

  lemma PutServer(h: Heap, servers: map<Id, Server>, o: ServerObj, sv: Server)
    requires Named(h) && Servers(h, servers, {o}) && ServerLive(h, o) && ServerMirrors(h, o, sv)
    ensures Servers(h, servers[o.id := sv], {})
  {
    assert InServers(0);
  }

  lemma TakeRemote(h: Heap, remotes: map<Id, Remote>, o: RemoteObj)
    requires Named(h) && Remotes(h, remotes, {}) && RemoteLive(h, o)
    ensures Remotes(h, remotes, {o}) && o.id in remotes && RemoteMirrors(h, o, remotes[o.id])
  {
    assert InRemotes(0);
  }

  lemma PutRemote(h: Heap, remotes: map<Id, Remote>, o: RemoteObj, rm: Remote)
    requires Named(h) && Remotes(h, remotes, {o}) && RemoteLive(h, o) && RemoteMirrors(h, o, rm)
    ensures Remotes(h, remotes[o.id := rm], {})
  {
    assert InRemotes(0);
  }

  lemma TakeQuery(h: Heap, queries: map<Id, Query>, o: QueryObj)
    requires Named(h) && Queries(h, queries, {}) && QueryLive(h, o)
    ensures Queries(h, queries, {o}) && o.id in queries && QueryMirrors(h, o, queries[o.id])
  {
    assert InQueries(0);
  }

  lemma PutQuery(h: Heap, queries: map<Id, Query>, o: QueryObj, qu: Query)
    requires Named(h) && Queries(h, queries, {o}) && QueryLive(h, o) && QueryMirrors(h, o, qu)
    ensures Queries(h, queries[o.id := qu], {})
  {
    assert InQueries(0);
  }

  // ---------- closing ----------

  /** Servers, remotes and queries point at each other or not at all. */
  ghost predicate Links(w: World) {
    forall k {:trigger InLinks(k)} :: InLinks(k) ==>
      && (forall s :: s in w.servers && w.servers[s].remote != NULL ==>
            w.servers[s].remote in w.remotes && w.remotes[w.servers[s].remote].server == s)
      && (forall r :: r in w.remotes && w.remotes[r].server != NULL ==>
            w.remotes[r].server in w.servers && w.servers[w.remotes[r].server].remote == r)
      && (forall s :: s in w.servers && w.servers[s].query != NULL ==>
            w.servers[s].query in w.queries && w.queries[w.servers[s].query].server == s)
      && (forall q :: q in w.queries && w.queries[q].server != NULL ==>
            w.queries[q].server in w.servers && w.servers[w.queries[q].server].query == q)
  }

  lemma InvLinks(w: World)
    requires Inv(w)
    ensures Links(w)
  {
  }

  function WithoutRemote(h: Heap, r: Id): Heap {
    h.(remotes := h.remotes - {r})
  }

  /** A remote that no server points at can go. */
  lemma ForgetRemote(h: Heap, w: World, r: Id)
    requires Mirrors(h, w) && forall s :: s in w.servers ==> w.servers[s].remote != r
    ensures Mirrors(WithoutRemote(h, r), w.(remotes := w.remotes - {r}))
  {
    assert InServers(0) && InRemotes(0) && InQueries(0);
    var h' := WithoutRemote(h, r);
    forall s | s in h.servers
      ensures ServerMirrors(h', h.servers[s], w.servers[s])
    {
      assert ServerMirrors(h, h.servers[s], w.servers[s]);
    }
    forall x | x in h'.remotes
      ensures RemoteMirrors(h', h'.remotes[x], w.remotes[x])
    {
      assert RemoteMirrors(h, h.remotes[x], w.remotes[x]);
    }
    forall q | q in h.queries
      ensures QueryMirrors(h', h.queries[q], w.queries[q])
    {
      assert QueryMirrors(h, h.queries[q], w.queries[q]);
    }
  }

  /** server->remote = NULL */
  method DropRemotePointer(ghost h: Heap, ghost w: World, server: ServerObj)
    requires Mirrors(h, w) && ServerLive(h, server)
    modifies server`remote
    ensures server.id in w.servers
    ensures Mirrors(h, w.(servers := w.servers[server.id := w.servers[server.id].(remote := NULL)]))
  {
    TakeServer(h, w.servers, server);
    server.remote := null;
    PutServer(h, w.servers, server, w.servers[server.id].(remote := NULL));
  }

  lemma CloseRemoteLinks(w: World, r: Id)
    requires Links(w) && r in w.remotes && NULL !in w.servers && NULL !in w.remotes && NULL !in w.queries
    ensures Links(CloseRemote(w, r))
    ensures forall s :: s in w.servers && s != w.remotes[r].server ==> w.servers[s].remote != r
  {
    assert InLinks(0);
  }

  /** No live object points at a freed one. */
  lemma NobodyHasRemote(h: Heap, w: World, remote: RemoteObj)
    requires Mirrors(h, w) && remote.id !in h.remotes
    ensures forall s :: s in h.servers ==> h.servers[s].remote != remote
  {
    assert InServers(0);
  }

  lemma NobodyHasServer(h: Heap, w: World, server: ServerObj)
    requires Mirrors(h, w) && server.id !in h.servers
    ensures forall r :: r in h.remotes ==> h.remotes[r].server != server
    ensures forall q :: q in h.queries ==> h.queries[q].server != server
  {
    assert InRemotes(0) && InQueries(0);
  }

  /** close_and_free_remote */
  method CloseAndFreeRemote(ghost h: Heap, ghost w: World, remote: RemoteObj) returns (ghost h': Heap, ghost w': World)
    requires Mirrors(h, w) && Links(w) && RemoteLive(h, remote)
    modifies h.servers.Values`remote
    ensures h' == WithoutRemote(h, remote.id) && w' == CloseRemote(w, remote.id) && Mirrors(h', w') && Links(w')
    ensures forall s :: s in h'.servers ==> h'.servers[s].remote != remote
  {
    TakeRemote(h, w.remotes, remote);
    NoNull(h, w);
    CloseRemoteLinks(w, remote.id);
    ghost var mid := w;
    if remote.server != null {
      DropRemotePointer(h, w, remote.server);
      mid := w.(servers := w.servers[remote.server.id := w.servers[remote.server.id].(remote := NULL)]);
    }
    ForgetRemote(h, mid, remote.id);
    h', w' := WithoutRemote(h, remote.id), CloseRemote(w, remote.id);
    NobodyHasRemote(h', w', remote);
  }

  function WithoutServer(h: Heap, s: Id): Heap {
    h.(servers := h.servers - {s})
  }

  /** A server that nothing points at can go. */
  lemma ForgetServer(h: Heap, w: World, s: Id)
    requires Mirrors(h, w) && (forall r :: r in w.remotes ==> w.remotes[r].server != s)
    requires forall q :: q in w.queries ==> w.queries[q].server != s
    ensures Mirrors(WithoutServer(h, s), w.(servers := w.servers - {s}))
  {
    assert InServers(0) && InRemotes(0) && InQueries(0);
    var h' := WithoutServer(h, s);
    forall x | x in h'.servers
      ensures ServerMirrors(h', h'.servers[x], w.servers[x])
    {
      assert ServerMirrors(h, h.servers[x], w.servers[x]);
    }
    forall r | r in h.remotes
      ensures RemoteMirrors(h', h.remotes[r], w.remotes[r])
    {
      assert RemoteMirrors(h, h.remotes[r], w.remotes[r]);
    }
    forall q | q in h.queries
      ensures QueryMirrors(h', h.queries[q], w.queries[q])
    {
      assert QueryMirrors(h, h.queries[q], w.queries[q]);
    }
  }

  /** server->remote->server = NULL */
  method DropServerPointer(ghost h: Heap, ghost w: World, remote: RemoteObj)
    requires Mirrors(h, w) && RemoteLive(h, remote)
    modifies remote`server
    ensures remote.id in w.remotes
    ensures Mirrors(h, w.(remotes := w.remotes[remote.id := w.remotes[remote.id].(server := NULL)]))
  {
    TakeRemote(h, w.remotes, remote);
    remote.server := null;
    PutRemote(h, w.remotes, remote, w.remotes[remote.id].(server := NULL));
  }

  /** server->query->server = NULL */
  method DropQueryServer(ghost h: Heap, ghost w: World, query: QueryObj)
    requires Mirrors(h, w) && QueryLive(h, query)
    modifies query`server
    ensures query.id in w.queries
    ensures Mirrors(h, w.(queries := w.queries[query.id := w.queries[query.id].(server := NULL)]))
  {
    TakeQuery(h, w.queries, query);
    query.server := null;
    PutQuery(h, w.queries, query, w.queries[query.id].(server := NULL));
  }

  lemma CloseServerLinks(w: World, s: Id)
    requires Links(w) && s in w.servers && NULL !in w.servers && NULL !in w.remotes && NULL !in w.queries
    ensures Links(CloseServer(w, s))
    ensures forall r :: r in w.remotes && r != w.servers[s].remote ==> w.remotes[r].server != s
    ensures forall q :: q in w.queries && q != w.servers[s].query ==> w.queries[q].server != s
  {
    assert InLinks(0);
  }

  /** close_and_free_server */
  method CloseAndFreeServer(ghost h: Heap, ghost w: World, server: ServerObj) returns (ghost h': Heap, ghost w': World)
    requires Mirrors(h, w) && Links(w) && ServerLive(h, server)
    modifies h.remotes.Values`server, h.queries.Values`server
    ensures h' == WithoutServer(h, server.id) && w' == CloseServer(w, server.id) && Mirrors(h', w') && Links(w')
    ensures forall r :: r in h'.remotes ==> h'.remotes[r].server != server
    ensures (forall q :: q in h'.queries ==> h'.queries[q].server != server) && h'.servers.Values <= h.servers.Values
  {
    TakeServer(h, w.servers, server);
    NoNull(h, w);
    CloseServerLinks(w, server.id);
    ghost var mid := w;
    if server.query != null {
      DropQueryServer(h, w, server.query);
      mid := w.(queries := w.queries[server.query.id := w.queries[server.query.id].(server := NULL)]);
    }
    if server.remote != null {
      DropServerPointer(h, mid, server.remote);
      mid := mid.(remotes := mid.remotes[server.remote.id := mid.remotes[server.remote.id].(server := NULL)]);
    }
    ForgetServer(h, mid, server.id);
    h', w' := WithoutServer(h, server.id), CloseServer(w, server.id);
    NobodyHasServer(h', w', server);
  }

  /** close_and_free_remote and close_and_free_server, as the callbacks call them in turn. */
  method ClosePair(ghost h: Heap, ghost w: World, server: ServerObj, remote: RemoteObj?)
    returns (ghost h': Heap, ghost w': World)
    requires Mirrors(h, w) && Links(w) && ServerLive(h, server) && RemoteLive(h, remote)
    modifies h.servers.Values`remote, h.remotes.Values`server, h.queries.Values`server
    ensures w' == CloseServer(CloseRemote(w, RemoteId(remote)), server.id) && Mirrors(h', w')
  {
    NoNull(h, w);
    h', w' := h, w;
    if remote != null {
      h', w' := CloseAndFreeRemote(h, w, remote);
    }
    h', w' := CloseAndFreeServer(h', w', server);
  }

  // ---------- a server and its remote ----------

  /** Everything but one server and one remote mirrors the specification. */
  ghost predicate Apart(h: Heap, w: World, server: ServerObj, remote: RemoteObj)
    reads h.servers.Values - {server}, h.remotes.Values - {remote}, h.queries.Values
  {
    && Named(h) && Servers(h, w.servers, {server}) && Remotes(h, w.remotes, {remote}) && Queries(h, w.queries, {})
    && ServerLive(h, server) && RemoteLive(h, remote) && server.id in w.servers && remote.id in w.remotes
  }

  ghost predicate Paired(server: ServerObj, remote: RemoteObj)
    reads server, remote
  {
    server.remote == remote && server.query == null && remote.server == server
  }

  lemma TakePair(h: Heap, w: World, server: ServerObj, remote: RemoteObj)
    requires Mirrors(h, w) && ServerLive(h, server) && RemoteLive(h, remote)
    ensures Apart(h, w, server, remote)
    ensures AbsServer(server) == w.servers[server.id] && AbsRemote(remote) == w.remotes[remote.id]
  {
    TakeServer(h, w.servers, server);
    TakeRemote(h, w.remotes, remote);
  }

  lemma PutPair(h: Heap, w: World, server: ServerObj, remote: RemoteObj)
    requires Apart(h, w, server, remote) && Paired(server, remote)
    ensures Mirrors(h, Bind(w, server.id, Both(AbsServer(server), AbsRemote(remote))))
  {
    PutServer(h, w.servers, server, AbsServer(server));
    PutRemote(h, w.remotes, remote, AbsRemote(remote));
  }

  /** A server and its remote are found from either end. */
  lemma PairOf(h: Heap, w: World, server: ServerObj)
    requires Mirrors(h, w) && Inv(w) && ServerLive(h, server) && server.remote != null
    ensures server.id in w.servers && server.remote.id in w.remotes
    ensures RemoteLive(h, server.remote) && Paired(server, server.remote)
    ensures AbsServer(server) == w.servers[server.id] && AbsRemote(server.remote) == w.remotes[server.remote.id]
    ensures PairOk(AbsServer(server), AbsRemote(server.remote))
  {
    TakeServer(h, w.servers, server);
    TakeRemote(h, w.remotes, server.remote);
    ServerFacts(w, server.id);
  }

  lemma RemotePair(h: Heap, w: World, remote: RemoteObj)
    requires Mirrors(h, w) && Inv(w) && RemoteLive(h, remote)
    ensures remote.id in w.remotes && AbsRemote(remote) == w.remotes[remote.id]
    ensures remote.server == null <==> w.remotes[remote.id].server == NULL
    ensures remote.server != null ==> ServerLive(h, remote.server) && remote.server.remote == remote
  {
    TakeRemote(h, w.remotes, remote);
    RemoteFacts(w, remote.id);
    if remote.server != null {
      TakeServer(h, w.servers, remote.server);
    }
  }

  /** The end of a callback on a pair, which has changed it in place or wants it closed. */
  method Settle(ghost h: Heap, ghost w: World, server: ServerObj, remote: RemoteObj, closed: bool, ghost pair: Pair)
    returns (ghost h': Heap, ghost w': World)
    requires Links(w) && Apart(h, w, server, remote) && Paired(server, remote)
    requires w.servers[server.id].remote == remote.id
    requires pair == if closed then Closed else Both(AbsServer(server), AbsRemote(remote))
    requires closed ==> AbsServer(server) == w.servers[server.id] && AbsRemote(remote) == w.remotes[remote.id]
    modifies h.servers.Values`remote, h.remotes.Values`server, h.queries.Values`server
    ensures w' == Bind(w, server.id, pair) && Mirrors(h', w')
  {
    PutPair(h, w, server, remote);
    ghost var after := Bind(w, server.id, Both(AbsServer(server), AbsRemote(remote)));
    h', w' := h, after;
    if closed {
      assert after.servers == w.servers && after.remotes == w.remotes;
      h', w' := ClosePair(h, w, server, remote);
    }
  }

  /** A live pair that is taken out of the heap to be changed. */
  ghost predicate Taken(h: Heap, w: World, server: ServerObj, remote: RemoteObj)
    reads h.servers.Values, h.remotes.Values, h.queries.Values, server, remote
  {
    && Links(w) && Apart(h, w, server, remote) && Paired(server, remote) && w.servers[server.id].remote == remote.id
    && AbsServer(server) == w.servers[server.id] && AbsRemote(remote) == w.remotes[remote.id]
  }

  lemma TakenFrom(h: Heap, w: World, server: ServerObj)
    requires Mirrors(h, w) && Inv(w) && ServerLive(h, server) && server.remote != null
    ensures Taken(h, w, server, server.remote) && PairOk(AbsServer(server), AbsRemote(server.remote))
  {
    InvLinks(w);
    PairOf(h, w, server);
    TakePair(h, w, server, server.remote);
  }

  // ---------- new objects ----------

  function WithServer(h: Heap, s: Id, o: ServerObj): Heap {
    h.(servers := h.servers[s := o])
  }

  function WithRemote(h: Heap, r: Id, o: RemoteObj): Heap {
    h.(remotes := h.remotes[r := o])
  }

  function WithQuery(h: Heap, q: Id, o: QueryObj): Heap {
    h.(queries := h.queries[q := o])
  }

  /** More objects change nothing about those that are there. */
  lemma ServersStay(h: Heap, h': Heap, servers: map<Id, Server>, but: set<ServerObj>)
    requires Servers(h, servers, but) && h'.servers == h.servers
    requires forall r :: r in h.remotes ==> r in h'.remotes && h'.remotes[r] == h.remotes[r]
    requires forall q :: q in h.queries ==> q in h'.queries && h'.queries[q] == h.queries[q]
    ensures Servers(h', servers, but)
  {
    assert InServers(0);
    forall s | s in h.servers && h.servers[s] !in but
      ensures ServerMirrors(h', h.servers[s], servers[s])
    {
      assert ServerMirrors(h, h.servers[s], servers[s]);
    }
  }

  lemma RemotesStay(h: Heap, h': Heap, remotes: map<Id, Remote>)
    requires Remotes(h, remotes, {}) && h'.remotes == h.remotes
    requires forall s :: s in h.servers ==> s in h'.servers && h'.servers[s] == h.servers[s]
    ensures Remotes(h', remotes, {})
  {
    assert InRemotes(0);
    forall r | r in h.remotes
      ensures RemoteMirrors(h', h.remotes[r], remotes[r])
    {
      assert RemoteMirrors(h, h.remotes[r], remotes[r]);
    }
  }

  lemma QueriesStay(h: Heap, h': Heap, queries: map<Id, Query>)
    requires Queries(h, queries, {}) && h'.queries == h.queries
    requires forall s :: s in h.servers ==> s in h'.servers && h'.servers[s] == h.servers[s]
    ensures Queries(h', queries, {})
  {
    assert InQueries(0);
    forall q | q in h.queries
      ensures QueryMirrors(h', h.queries[q], queries[q])
    {
      assert QueryMirrors(h, h.queries[q], queries[q]);
    }
  }

  lemma ServersMore(h: Heap, servers: map<Id, Server>, o: ServerObj)
    requires Servers(h, servers, {}) && o.id !in h.servers && o.remote == null && o.query == null
    ensures Servers(WithServer(h, o.id, o), servers[o.id := AbsServer(o)], {})
  {
    assert InServers(0);
    forall s | s in h.servers
      ensures ServerMirrors(WithServer(h, o.id, o), h.servers[s], servers[s])
    {
      assert ServerMirrors(h, h.servers[s], servers[s]);
    }
  }

  lemma RemotesMore(h: Heap, remotes: map<Id, Remote>, o: RemoteObj)
    requires Remotes(h, remotes, {}) && o.id !in h.remotes && ServerLive(h, o.server)
    ensures Remotes(WithRemote(h, o.id, o), remotes[o.id := AbsRemote(o)], {})
  {
    assert InRemotes(0);
    forall r | r in h.remotes
      ensures RemoteMirrors(WithRemote(h, o.id, o), h.remotes[r], remotes[r])
    {
      assert RemoteMirrors(h, h.remotes[r], remotes[r]);
    }
  }

  lemma QueriesMore(h: Heap, queries: map<Id, Query>, o: QueryObj)
    requires Queries(h, queries, {}) && o.id !in h.queries && ServerLive(h, o.server)
    ensures Queries(WithQuery(h, o.id, o), queries[o.id := AbsQuery(o)], {})
  {
    assert InQueries(0);
    forall q | q in h.queries
      ensures QueryMirrors(WithQuery(h, o.id, o), h.queries[q], queries[q])
    {
      assert QueryMirrors(h, h.queries[q], queries[q]);
    }
  }

  lemma NewServer(h: Heap, w: World, o: ServerObj)
    requires Mirrors(h, w) && o.id != NULL && o.id !in h.servers && o.remote == null && o.query == null
    ensures Mirrors(WithServer(h, o.id, o), w.(servers := w.servers[o.id := AbsServer(o)]))
  {
    var h' := WithServer(h, o.id, o);
    ServersMore(h, w.servers, o);
    RemotesStay(h, h', w.remotes);
    QueriesStay(h, h', w.queries);
  }

  lemma NewRemote(h: Heap, w: World, server: ServerObj, o: RemoteObj)
    requires Named(h) && Servers(h, w.servers, {server}) && Remotes(h, w.remotes, {}) && Queries(h, w.queries, {})
    requires o.id != NULL && o.id !in h.remotes && ServerLive(h, o.server)
    ensures var h' := WithRemote(h, o.id, o);
            && Named(h') && Servers(h', w.servers, {server}) && Queries(h', w.queries, {})
            && Remotes(h', w.remotes[o.id := AbsRemote(o)], {})
  {
    var h' := WithRemote(h, o.id, o);
    ServersStay(h, h', w.servers, {server});
    RemotesMore(h, w.remotes, o);
    QueriesStay(h, h', w.queries);
  }

  lemma NewQuery(h: Heap, w: World, server: ServerObj, o: QueryObj)
    requires Named(h) && Servers(h, w.servers, {server}) && Remotes(h, w.remotes, {}) && Queries(h, w.queries, {})
    requires o.id != NULL && o.id !in h.queries && ServerLive(h, o.server)
    ensures var h' := WithQuery(h, o.id, o);
            && Named(h') && Servers(h', w.servers, {server}) && Remotes(h', w.remotes, {})
            && Queries(h', w.queries[o.id := AbsQuery(o)], {})
  {
    var h' := WithQuery(h, o.id, o);
    ServersStay(h, h', w.servers, {server});
    RemotesStay(h, h', w.remotes);
    QueriesMore(h, w.queries, o);
  }

  function WithoutQuery(h: Heap, q: Id): Heap {
    h.(queries := h.queries - {q})
  }

  /** A query that no server points at can go. */
  lemma ForgetQuery(h: Heap, w: World, q: Id)
    requires Mirrors(h, w) && forall s :: s in w.servers ==> w.servers[s].query != q
    ensures Mirrors(WithoutQuery(h, q), w.(queries := w.queries - {q}))
  {
    assert InServers(0) && InRemotes(0) && InQueries(0);
    var h' := WithoutQuery(h, q);
    forall s | s in h.servers
      ensures ServerMirrors(h', h.servers[s], w.servers[s])
    {
      assert ServerMirrors(h, h.servers[s], w.servers[s]);
    }
    forall r | r in h.remotes
      ensures RemoteMirrors(h', h.remotes[r], w.remotes[r])
    {
      assert RemoteMirrors(h, h.remotes[r], w.remotes[r]);
    }
    forall x | x in h'.queries
      ensures QueryMirrors(h', h'.queries[x], w.queries[x])
    {
      assert QueryMirrors(h, h.queries[x], w.queries[x]);
    }
  }

  /** A server whose buffer is in order, waiting for a remote. */
  ghost predicate Ready(sv: Server) {
    Fits(sv.buf) && sv.remote == NULL
  }

  /** Everything but one server mirrors the specification. */
  ghost predicate OneOut(h: Heap, w: World, server: ServerObj)
    reads h.servers.Values - {server}, h.remotes.Values, h.queries.Values
  {
    && Named(h) && Servers(h, w.servers, {server}) && Remotes(h, w.remotes, {}) && Queries(h, w.queries, {})
    && ServerLive(h, server) && server.id in w.servers
  }

  lemma TakeOne(h: Heap, w: World, server: ServerObj)
    requires Mirrors(h, w) && ServerLive(h, server)
    ensures OneOut(h, w, server) && ServerMirrors(h, server, w.servers[server.id])
  {
    TakeServer(h, w.servers, server);
  }

  lemma PutOne(h: Heap, w: World, server: ServerObj)
    requires OneOut(h, w, server) && RemoteLive(h, server.remote) && QueryLive(h, server.query)
    ensures Mirrors(h, w.(servers := w.servers[server.id := AbsServer(server)]))
  {
    PutServer(h, w.servers, server, AbsServer(server));
  }

  lemma PutLinked(h: Heap, w: World, server: ServerObj, remote: RemoteObj)
    requires OneOut(h, w, server) && QueryLive(h, server.query) && server.remote == remote && remote.server == server
    requires remote.id != NULL && remote.id !in h.remotes
    ensures Mirrors(WithRemote(h, remote.id, remote), Bind(w, server.id, Both(AbsServer(server), AbsRemote(remote))))
  {
    NewRemote(h, w, server, remote);
    PutServer(WithRemote(h, remote.id, remote), w.servers, server, AbsServer(server));
  }
}
