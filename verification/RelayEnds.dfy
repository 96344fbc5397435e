/**
 When connections of the TCP relay begin, end and stop, and how much each callback sends: conditions on the state and
 the event before the callback, each proved to be exact.
 */
module RelayEnds {
  import opened Bytes
  import opened TcpHeader
  import opened RelaySpec
  import opened RelayWorld
  import opened RelayProof
  import opened RelayCodec
  import opened Lifetimes

  // ---------- servers ----------

  /** Data that ends a connection: the remote cannot be sent to, the name is blocked, or the remote cannot be
      connected to. */
  predicate DataEnds(sv: Server, d: Decrypted, connect: Connect, sent: Sent, policy: Policy) {
    && d.Plain?
    && match sv.stage
       case Stream => sent.Fail?
       case Init =>
         |d.p| > 0 && (Parse(d.p, policy).Blocked?
                       || (Parse(d.p, policy).Accepted? && !Parse(d.p, policy).query && connect.Refused?))
       case _ => false
  }

  /** The second answer to a query is this one. */
  predicate AnswersLast(qu: Query, v4: bool) {
    if v4 then !qu.v6 else !qu.v4
  }

  /** A callback ends the connection of server s. */
  predicate Ends(w: World, e: Event, policy: Policy, s: Id)
    requires s in w.servers
  {
    match e
    case Accept => false
    case ServerRecv(t, input, connect, sent) =>
      t == s && (input.Eof? || input.Broken? || (input.Data? && DataEnds(w.servers[s], input.d, connect, sent, policy)))
    case ServerSend(t, sent) => t == s && sent.Fail?
    case ServerTimeout(t) => t == s
    case RemoteRecv(r, chunk, sent) =>
      && r in w.remotes && w.remotes[r].server == s
      && (chunk.RemoteEof? || chunk.RemoteBroken?
          || (chunk.Chunk? && w.servers[s].stage != Stop && (!chunk.ok || sent.Fail?)))
    case RemoteSend(r, peer, sent) =>
      && r in w.remotes && w.remotes[r].server == s
      && if !w.remotes[r].connected && !peer then true
         else w.remotes[r].buf.len > 0 && sent.Fail?
    case Dns(q, v4, found, connect) =>
      && q in w.queries && w.queries[q].server == s && AnswersLast(w.queries[q], v4)
      && (w.queries[q].responses + found == [] || connect.Refused?)
  }

  lemma BindEnds(w: World, s: Id, pair: Pair)
    requires Inv(w) && s in w.servers
    ensures s !in Bind(w, s, pair).servers <==> pair.Closed?
  {
    ServerFacts(w, s);
  }

  lemma BegunEnds(w: World, s: Id, raw: seq<byte>, d: Decrypted, connect: Connect, sent: Sent, policy: Policy)
    requires s in w.servers && w.servers[s].stage == Init
    ensures s !in Begun(w, s, w.servers[s], raw, d, policy, connect).servers <==>
            DataEnds(w.servers[s], d, connect, sent, policy)
  {
  }

  lemma ReceivedEnds(w: World, s: Id, input: Input, connect: Connect, sent: Sent, policy: Policy)
    requires Inv(w) && s in w.servers && w.servers[s].recvOn
    ensures s !in Received(w, s, input, connect, sent, policy).servers <==>
            input.Eof? || input.Broken? || (input.Data? && DataEnds(w.servers[s], input.d, connect, sent, policy))
  {
    ServerFacts(w, s);
    var sv := w.servers[s];
    if input.Data? && sv.stage == Stream {
      BindEnds(w, s, Streamed(sv, w.remotes[sv.remote], input.raw, input.d, sent));
    } else if input.Data? && sv.stage == Init {
      BegunEnds(w, s, input.raw, input.d, connect, sent, policy);
    }
  }

  lemma AnsweredEnds(w: World, r: Id, chunk: FromRemote, sent: Sent, s: Id)
    requires Inv(w) && r in w.remotes && w.remotes[r].server == s && s in w.servers
    ensures s !in Answered(w, r, chunk, sent).servers <==>
            || chunk.RemoteEof? || chunk.RemoteBroken?
            || (chunk.Chunk? && w.servers[s].stage != Stop && (!chunk.ok || sent.Fail?))
  {
    RemoteFacts(w, r);
    if chunk.Chunk? {
      BindEnds(w, s, StreamDown(w.servers[s], w.remotes[r], chunk.c, sent));
    }
  }

  lemma LookedEnds(w: World, q: Id, v4: bool, found: seq<Sockaddr>, connect: Connect, s: Id)
    requires Inv(w) && q in w.queries && w.queries[q].server == s && s in w.servers
    ensures s !in Looked(w, q, v4, found, connect).servers <==>
            AnswersLast(w.queries[q], v4) && (w.queries[q].responses + found == [] || connect.Refused?)
  {
  }

  /** Of all callbacks exactly these end a connection. */
  lemma EndsExactly(w: World, e: Event, policy: Policy, s: Id)
    requires Inv(w) && Enabled(w, e) && s in w.servers
    ensures s !in Step(w, e, policy).servers <==> Ends(w, e, policy, s)
  {
    StepOnly(w, e, policy);
    if s == Actor(w, e) {
      ServerFacts(w, s);
      match e
      case Accept =>
      case ServerRecv(_, input, connect, sent) => ReceivedEnds(w, s, input, connect, sent, policy);
      case ServerSend(_, sent) => BindEnds(w, s, FlushDown(w.servers[s], w.remotes[w.servers[s].remote], sent));
      case ServerTimeout(_) =>
      case RemoteRecv(r, chunk, sent) => AnsweredEnds(w, r, chunk, sent, s);
      case RemoteSend(r, peer, sent) =>
        RemoteFacts(w, r);
        BindEnds(w, s, FlushUp(w.servers[s], w.remotes[r], peer, sent));
      case Dns(q, v4, found, connect) => LookedEnds(w, q, v4, found, connect, s);
    }
  }

  // ---------- stopping ----------

  /** A callback stops server s: what it received cannot be decrypted, or has a malformed header. */
  predicate Stops(w: World, e: Event, policy: Policy, s: Id)
    requires s in w.servers
  {
    && IsData(e, s) && (w.servers[s].stage == Init || w.servers[s].stage == Stream)
    && (e.input.d.Bad?
        || (w.servers[s].stage == Init && e.input.d.Plain? && |e.input.d.p| > 0 &&
          Parse(e.input.d.p, policy).Rejected?))
  }

  lemma DataStops(w: World, s: Id, raw: seq<byte>, d: Decrypted, connect: Connect, sent: Sent, policy: Policy)
    requires Inv(w) && s in w.servers && w.servers[s].recvOn && w.servers[s].stage != Stop && (d.Plain? ==> |d.p| > 0)
    ensures var w' := Received(w, s, Data(raw, d), connect, sent, policy);
            s in w'.servers ==>
              (w'.servers[s].stage == Stop <==>
               d.Bad? || (w.servers[s].stage == Init && d.Plain? && Parse(d.p, policy).Rejected?))
  {
    ServerFacts(w, s);
  }

  /** Of all callbacks exactly these stop a server that is not stopped yet. */
  lemma StopsExactly(w: World, e: Event, policy: Policy, s: Id)
    requires Inv(w) && Enabled(w, e) && s in w.servers && w.servers[s].stage != Stop && s in Step(w, e, policy).servers
    ensures Step(w, e, policy).servers[s].stage == Stop <==> Stops(w, e, policy, s)
  {
    if IsData(e, s) {
      ServerFacts(w, s);
      DataStops(w, s, e.input.raw, e.input.d, e.connect, e.sent, policy);
    } else {
      StepSame(w, e, policy, s);
    }
  }

  // ---------- remotes ----------

  /** A header or the last answer of a lookup leads to a connection, which gets the next number. */
  predicate OpensRemote(w: World, e: Event, policy: Policy) {
    match e
    case ServerRecv(s, input, connect, _) =>
      && s in w.servers && w.servers[s].stage == Init && input.Data? && input.d.Plain? && |input.d.p| > 0
      && Parse(input.d.p, policy).Accepted? && !Parse(input.d.p, policy).query && connect.Opened?
    case Dns(q, v4, found, connect) =>
      && q in w.queries && w.queries[q].server in w.servers && AnswersLast(w.queries[q], v4)
      && w.queries[q].responses + found != [] && connect.Opened?
    case _ => false
  }

  /** A remote is closed: with its server, unless that is stopped and its client goes; or by its own callback once
      its server is gone. */
  predicate RemoteEnds(w: World, e: Event, policy: Policy, r: Id)
    requires r in w.remotes && (w.remotes[r].server != NULL ==> w.remotes[r].server in w.servers)
  {
    var s := w.remotes[r].server;
    if s == NULL then e.RemoteRecv? && e.r == r
    else Ends(w, e, policy, s) && !(e.ServerRecv? && w.servers[s].stage == Stop)
  }

  lemma BindRemotes(w: World, s: Id, pair: Pair, r: Id)
    requires Inv(w) && s in w.servers && w.servers[s].remote != NULL
    requires Good(pair, w.servers[s], w.remotes[w.servers[s].remote])
    ensures r in Bind(w, s, pair).remotes <==> r in w.remotes && !(pair.Closed? && r == w.servers[s].remote)
  {
    ServerFacts(w, s);
  }

  lemma LinkedRemotes(w: World, s: Id, sv: Server, connect: Connect, r: Id)
    requires s in w.servers && w.servers[s].remote !in w.remotes
    ensures r in Linked(w, s, sv, connect).remotes <==> r in w.remotes || (connect.Opened? && r == w.next)
  {
  }

  lemma BegunRemotes(w: World, s: Id, raw: seq<byte>, d: Decrypted, connect: Connect, policy: Policy, r: Id)
    requires s in w.servers && w.servers[s].remote !in w.remotes
    ensures r in Begun(w, s, w.servers[s], raw, d, policy, connect).remotes <==>
            || r in w.remotes
            || (r == w.next && d.Plain? && |d.p| > 0 && Parse(d.p, policy).Accepted? && !Parse(d.p, policy).query
                && connect.Opened?)
  {
    if d.Plain? && |d.p| > 0 && Parse(d.p, policy).Accepted? {
      LinkedRemotes(w, s, AfterHeader(w.servers[s], d.p, Parse(d.p, policy).offset), connect, r);
    }
  }

  /** Of all callbacks exactly these open and close a remote. */
  predicate RemotesExact(w: World, e: Event, policy: Policy, r: Id)
    requires forall r :: r in w.remotes && w.remotes[r].server != NULL ==> w.remotes[r].server in w.servers
  {
    r in Step(w, e, policy).remotes <==>
    (r in w.remotes && !RemoteEnds(w, e, policy, r)) || (OpensRemote(w, e, policy) && r == w.next)
  }

  lemma DataRemotes(w: World, e: Event, policy: Policy, r: Id)
    requires Inv(w) && Enabled(w, e) && e.ServerRecv? && e.input.Data?
    ensures RemotesExact(w, e, policy, r)
  {
    var s, d := e.s, e.input.d;
    ServerFacts(w, s);
    var sv := w.servers[s];
    if r in w.remotes {
      RemoteFacts(w, r);
    }
    if sv.stage == Stream {
      var rm := w.remotes[sv.remote];
      if d.Plain? {
        StreamUpKeeps(sv, rm, d.p, e.sent);
      }
      BindRemotes(w, s, Streamed(sv, rm, e.input.raw, d, e.sent), r);
    } else if sv.stage == Init {
      BegunRemotes(w, s, e.input.raw, d, e.connect, policy, r);
    }
  }

  lemma HungUpRemotes(w: World, e: Event, policy: Policy, r: Id)
    requires Inv(w) && Enabled(w, e) && e.ServerRecv? && !e.input.Data?
    ensures RemotesExact(w, e, policy, r)
  {
    ServerFacts(w, e.s);
    if r in w.remotes {
      RemoteFacts(w, r);
    }
  }

  lemma AnsweredRemotes(w: World, e: Event, policy: Policy, r: Id)
    requires Inv(w) && Enabled(w, e) && e.RemoteRecv?
    ensures RemotesExact(w, e, policy, r)
  {
    RemoteFacts(w, e.r);
    if r in w.remotes {
      RemoteFacts(w, r);
    }
    var s := w.remotes[e.r].server;
    if s != NULL && e.chunk.Chunk? && w.servers[s].stage != Stop && e.chunk.ok {
      StreamDownKeeps(w.servers[s], w.remotes[e.r], e.chunk.c, e.sent);
      BindRemotes(w, s, StreamDown(w.servers[s], w.remotes[e.r], e.chunk.c, e.sent), r);
    }
  }

  lemma LookedRemotes(w: World, e: Event, policy: Policy, r: Id)
    requires Inv(w) && Enabled(w, e) && e.Dns?
    ensures RemotesExact(w, e, policy, r)
  {
    var s := w.queries[e.q].server;
    var w1 := w.(queries := w.queries[e.q := Noted(w.queries[e.q], e.v4, e.found)]);
    if s != NULL {
      ServerFacts(w, s);
      LinkedRemotes(w1, s, w1.servers[s], e.connect, r);
    }
    if r in w.remotes {
      RemoteFacts(w, r);
    }
  }

  lemma FlushedRemotes(w: World, e: Event, policy: Policy, r: Id)
    requires Inv(w) && Enabled(w, e) && e.ServerSend?
    ensures RemotesExact(w, e, policy, r)
  {
    if r in w.remotes {
      RemoteFacts(w, r);
    }
    ServerFacts(w, e.s);
    var sv := w.servers[e.s];
    FlushDownKeeps(sv, w.remotes[sv.remote], e.sent);
    BindRemotes(w, e.s, FlushDown(sv, w.remotes[sv.remote], e.sent), r);
  }

  lemma PushedRemotes(w: World, e: Event, policy: Policy, r: Id)
    requires Inv(w) && Enabled(w, e) && e.RemoteSend?
    ensures RemotesExact(w, e, policy, r)
  {
    if r in w.remotes {
      RemoteFacts(w, r);
    }
    RemoteFacts(w, e.r);
    var s := w.remotes[e.r].server;
    FlushUpKeeps(w.servers[s], w.remotes[e.r], e.peer, e.sent);
    BindRemotes(w, s, FlushUp(w.servers[s], w.remotes[e.r], e.peer, e.sent), r);
  }

  lemma TimeoutRemotes(w: World, e: Event, policy: Policy, r: Id)
    requires Inv(w) && Enabled(w, e) && e.ServerTimeout?
    ensures RemotesExact(w, e, policy, r)
  {
    ServerFacts(w, e.s);
    if r in w.remotes {
      RemoteFacts(w, r);
    }
  }

  lemma RemotesExactly(w: World, e: Event, policy: Policy, r: Id)
    requires Inv(w) && Enabled(w, e)
    ensures RemotesExact(w, e, policy, r)
  {
    match e
    case Accept =>
      if r in w.remotes {
        RemoteFacts(w, r);
      }
    case ServerRecv(_, input, _, _) =>
      if input.Data? {
        DataRemotes(w, e, policy, r);
      } else {
        HungUpRemotes(w, e, policy, r);
      }
    case ServerSend(_, _) => FlushedRemotes(w, e, policy, r);
    case ServerTimeout(_) => TimeoutRemotes(w, e, policy, r);
    case RemoteRecv(_, _, _) => AnsweredRemotes(w, e, policy, r);
    case RemoteSend(_, _, _) => PushedRemotes(w, e, policy, r);
    case Dns(_, _, _, _) => LookedRemotes(w, e, policy, r);
  }

  // ---------- over every run ----------

  ghost predicate ServerOpensAt(trace: seq<World>, events: seq<Event>, s: Id, i: nat)
    requires i < |events| && i < |trace|
  {
    events[i].Accept? && s == trace[i].next
  }

  ghost predicate ServerEndsAt(trace: seq<World>, events: seq<Event>, policy: Policy, s: Id, i: nat)
    requires i < |events| && i < |trace|
  {
    s in trace[i].servers && Ends(trace[i], events[i], policy, s)
  }

  lemma RunStepServers(trace: seq<World>, events: seq<Event>, policy: Policy, s: Id, i: nat)
    requires IsRun(trace, events, policy) && i < |events|
    ensures s in trace[i + 1].servers <==>
            || ServerOpensAt(trace, events, s, i)
            || (s in trace[i].servers && !ServerEndsAt(trace, events, policy, s, i))
  {
    RunKeeps(trace, events, policy, i);
    var w, e := trace[i], events[i];
    assert trace[i + 1] == Step(w, e, policy);
    if s in w.servers {
      EndsExactly(w, e, policy, s);
    } else if s in Step(w, e, policy).servers {
      AcceptedOnly(w, e, policy, s);
    }
  }

  lemma AcceptedOnly(w: World, e: Event, policy: Policy, s: Id)
    requires Inv(w) && Enabled(w, e) && s !in w.servers && s in Step(w, e, policy).servers
    ensures e.Accept? && s == w.next
  {
    OpenedByAccept(w, e, policy, s);
    StepOnly(w, e, policy);
  }

  /** In every run a connection is there if and only if it was accepted and nothing has ended it since. */
  lemma ConnectedExactly(trace: seq<World>, events: seq<Event>, policy: Policy, s: Id, n: nat)
    requires IsRun(trace, events, policy) && n <= |events|
    ensures s in trace[n].servers <==>
            exists i :: 0 <= i < n && ServerOpensAt(trace, events, s, i)
                        && forall j :: i < j < n ==> !ServerEndsAt(trace, events, policy, s, j)
  {
    var live, opens, ends := ServersFollow(trace, events, policy, s);
    LivesExactly(live, opens, ends, n);
    ServersTold(trace, events, policy, s, n, opens, ends);
  }

  lemma ServersFollow(trace: seq<World>, events: seq<Event>, policy: Policy, s: Id)
    returns (live: seq<bool>, opens: seq<bool>, ends: seq<bool>)
    requires IsRun(trace, events, policy)
    ensures Follows(live, opens, ends) && |opens| == |events|
    ensures forall i :: 0 <= i < |trace| ==> live[i] == (s in trace[i].servers)
    ensures forall i :: 0 <= i < |events| ==> opens[i] == ServerOpensAt(trace, events, s, i)
    ensures forall i :: 0 <= i < |events| ==> ends[i] == ServerEndsAt(trace, events, policy, s, i)
  {
    live := seq(|trace|, i requires 0 <= i < |trace| => s in trace[i].servers);
    opens := seq(|events|, i requires 0 <= i < |events| && |events| < |trace| =>
                             ServerOpensAt(trace, events, s, i));
    ends := seq(|events|, i requires 0 <= i < |events| && |events| < |trace| =>
                            ServerEndsAt(trace, events, policy, s, i));
    forall i | 0 <= i < |events|
      ensures live[i + 1] <==> opens[i] || (live[i] && !ends[i])
    {
      RunStepServers(trace, events, policy, s, i);
    }
  }

  lemma ServersTold(trace: seq<World>, events: seq<Event>, policy: Policy, s: Id, n: nat, opens: seq<bool>,
                    ends: seq<bool>)
    requires n <= |events| == |opens| == |ends| < |trace|
    requires forall i :: 0 <= i < |events| ==> opens[i] == ServerOpensAt(trace, events, s, i)
    requires forall i :: 0 <= i < |events| ==> ends[i] == ServerEndsAt(trace, events, policy, s, i)
    ensures (exists i :: 0 <= i < n && opens[i] && forall j :: i < j < n ==> !ends[j]) <==>
            (exists i :: 0 <= i < n && ServerOpensAt(trace, events, s, i)
                         && forall j :: i < j < n ==> !ServerEndsAt(trace, events, policy, s, j))
  {
    if i :| 0 <= i < n && opens[i] && forall j :: i < j < n ==> !ends[j] {
      assert ServerOpensAt(trace, events, s, i);
      assert forall j :: i < j < n ==> ends[j] == ServerEndsAt(trace, events, policy, s, j);
    }
    if i :| 0 <= i < n && ServerOpensAt(trace, events, s, i)
            && forall j :: i < j < n ==> !ServerEndsAt(trace, events, policy, s, j) {
      assert opens[i] && forall j :: i < j < n ==> ends[j] == ServerEndsAt(trace, events, policy, s, j);
    }
  }

  ghost predicate RemoteOpensAt(trace: seq<World>, events: seq<Event>, policy: Policy, r: Id, i: nat)
    requires i < |events| && i < |trace|
  {
    OpensRemote(trace[i], events[i], policy) && r == trace[i].next
  }

  ghost predicate RemoteEndsAt(trace: seq<World>, events: seq<Event>, policy: Policy, r: Id, i: nat)
    requires i < |events| && i < |trace|
  {
    && r in trace[i].remotes
    && (trace[i].remotes[r].server != NULL ==> trace[i].remotes[r].server in trace[i].servers)
    && RemoteEnds(trace[i], events[i], policy, r)
  }

  lemma RunStepRemotes(trace: seq<World>, events: seq<Event>, policy: Policy, r: Id, i: nat)
    requires IsRun(trace, events, policy) && i < |events|
    ensures r in trace[i + 1].remotes <==>
            || RemoteOpensAt(trace, events, policy, r, i)
            || (r in trace[i].remotes && !RemoteEndsAt(trace, events, policy, r, i))
  {
    RunKeeps(trace, events, policy, i);
    RemotesExactly(trace[i], events[i], policy, r);
    assert trace[i + 1] == Step(trace[i], events[i], policy);
  }

  /** The same for remotes. */
  lemma RemoteExactly(trace: seq<World>, events: seq<Event>, policy: Policy, r: Id, n: nat)
    requires IsRun(trace, events, policy) && n <= |events|
    ensures r in trace[n].remotes <==>
            exists i :: 0 <= i < n && RemoteOpensAt(trace, events, policy, r, i)
                        && forall j :: i < j < n ==> !RemoteEndsAt(trace, events, policy, r, j)
  {
    var live, opens, ends := RemotesFollow(trace, events, policy, r);
    LivesExactly(live, opens, ends, n);
    RemotesTold(trace, events, policy, r, n, opens, ends);
  }

  lemma RemotesFollow(trace: seq<World>, events: seq<Event>, policy: Policy, r: Id)
    returns (live: seq<bool>, opens: seq<bool>, ends: seq<bool>)
    requires IsRun(trace, events, policy)
    ensures Follows(live, opens, ends) && |opens| == |events|
    ensures forall i :: 0 <= i < |trace| ==> live[i] == (r in trace[i].remotes)
    ensures forall i :: 0 <= i < |events| ==> opens[i] == RemoteOpensAt(trace, events, policy, r, i)
    ensures forall i :: 0 <= i < |events| ==> ends[i] == RemoteEndsAt(trace, events, policy, r, i)
  {
    live := seq(|trace|, i requires 0 <= i < |trace| => r in trace[i].remotes);
    opens := seq(|events|, i requires 0 <= i < |events| && |events| < |trace| =>
                             RemoteOpensAt(trace, events, policy, r, i));
    ends := seq(|events|, i requires 0 <= i < |events| && |events| < |trace| =>
                            RemoteEndsAt(trace, events, policy, r, i));
    forall i | 0 <= i < |events|
      ensures live[i + 1] <==> opens[i] || (live[i] && !ends[i])
    {
      RunStepRemotes(trace, events, policy, r, i);
    }
  }

  lemma RemotesTold(trace: seq<World>, events: seq<Event>, policy: Policy, r: Id, n: nat, opens: seq<bool>,
                    ends: seq<bool>)
    requires n <= |events| == |opens| == |ends| < |trace|
    requires forall i :: 0 <= i < |events| ==> opens[i] == RemoteOpensAt(trace, events, policy, r, i)
    requires forall i :: 0 <= i < |events| ==> ends[i] == RemoteEndsAt(trace, events, policy, r, i)
    ensures (exists i :: 0 <= i < n && opens[i] && forall j :: i < j < n ==> !ends[j]) <==>
            (exists i :: 0 <= i < n && RemoteOpensAt(trace, events, policy, r, i)
                         && forall j :: i < j < n ==> !RemoteEndsAt(trace, events, policy, r, j))
  {
    if i :| 0 <= i < n && opens[i] && forall j :: i < j < n ==> !ends[j] {
      assert RemoteOpensAt(trace, events, policy, r, i);
      assert forall j :: i < j < n ==> ends[j] == RemoteEndsAt(trace, events, policy, r, j);
    }
    if i :| 0 <= i < n && RemoteOpensAt(trace, events, policy, r, i)
            && forall j :: i < j < n ==> !RemoteEndsAt(trace, events, policy, r, j) {
      assert opens[i] && forall j :: i < j < n ==> ends[j] == RemoteEndsAt(trace, events, policy, r, j);
    }
  }
}
