/**
 How many bytes each callback of the TCP relay hands to a socket: exactly as many as that socket took.
 */
module RelayCounts {
  import opened Bytes
  import opened TcpHeader
  import opened RelaySpec
  import opened RelayWorld
  import opened RelayProof
  import opened RelayCodec
  import opened RelayEnds

  /** How many of len bytes a send took. */
  function Taken(sent: Sent, len: nat): nat {
    if sent.Sent? then Min(sent.n, len) else 0
  }

  /** How many bytes toward the remote of server s a callback sends. */
  function UpTaken(w: World, e: Event, policy: Policy, s: Id): nat
    requires s in w.servers
  {
    match e
    case ServerRecv(t, input, connect, sent) =>
      if t == s && input.Data? && input.d.Plain? then DataTaken(w.servers[s], input.d.p, connect, sent, policy) else 0
    case RemoteSend(r, _, sent) =>
      if r in w.remotes && w.remotes[r].server == s then Taken(sent, w.remotes[r].buf.len) else 0
    case Dns(q, v4, found, connect) =>
      if q in w.queries && w.queries[q].server == s && AnswersLast(w.queries[q], v4) && connect.Opened? then
        Min(connect.n, w.servers[s].buf.len)
      else 0
    case _ => 0
  }

  /** The same for data: what is decrypted is sent on, or, with fast open, what follows the header. */
  function DataTaken(sv: Server, p: seq<byte>, connect: Connect, sent: Sent, policy: Policy): nat {
    if sv.stage == Stream then Taken(sent, |p|)
    else if sv.stage == Init && |p| > 0 && OpensWith(p, connect, policy) then
      Min(connect.n, |p| - Parse(p, policy).offset)
    else 0
  }

  predicate OpensWith(p: seq<byte>, connect: Connect, policy: Policy)
    requires |p| > 0
  {
    Parse(p, policy).Accepted? && !Parse(p, policy).query && connect.Opened?
  }

  /** How many bytes toward its client. */
  function DownTaken(w: World, e: Event, s: Id): nat
    requires s in w.servers
  {
    match e
    case ServerSend(t, sent) => if t == s then Taken(sent, w.servers[s].buf.len) else 0
    case RemoteRecv(r, chunk, sent) =>
      if r in w.remotes && w.remotes[r].server == s && chunk.Chunk? && chunk.ok && w.servers[s].stage != Stop then
        Taken(sent, |chunk.c|)
      else 0
    case _ => 0
  }

  /** The logs of what was sent have grown by so much. */
  predicate Grew(a: Server, b: Server, up: nat, down: nat) {
    |b.log.upSent| == |a.log.upSent| + up && |b.log.downSent| == |a.log.downSent| + down
  }

  lemma StreamUpTakes(sv: Server, rm: Remote, p: seq<byte>, sent: Sent)
    ensures var pair := StreamUp(sv, rm, p, sent); pair.Both? ==> Grew(sv, pair.sv, Taken(sent, |p|), 0)
  {
  }

  lemma FlushUpTakes(sv: Server, rm: Remote, peer: bool, sent: Sent)
    requires Fits(rm.buf)
    ensures var pair := FlushUp(sv, rm, peer, sent); pair.Both? ==> Grew(sv, pair.sv, Taken(sent, rm.buf.len), 0)
  {
  }

  lemma StreamDownTakes(sv: Server, rm: Remote, c: seq<byte>, sent: Sent)
    ensures var pair := StreamDown(sv, rm, c, sent); pair.Both? ==> Grew(sv, pair.sv, 0, Taken(sent, |c|))
  {
  }

  lemma FlushDownTakes(sv: Server, rm: Remote, sent: Sent)
    requires Fits(sv.buf)
    ensures var pair := FlushDown(sv, rm, sent); pair.Both? ==> Grew(sv, pair.sv, 0, Taken(sent, sv.buf.len))
  {
  }

  lemma AttachTakes(sv: Server, s: Id, r: Id, n: nat)
    requires Fits(sv.buf)
    ensures Grew(sv, Attach(sv, s, r, n).sv, Min(n, sv.buf.len), 0)
  {
  }

  lemma BegunTakes(w: World, s: Id, raw: seq<byte>, d: Decrypted, connect: Connect, sent: Sent, policy: Policy)
    requires s in w.servers && w.servers[s].stage == Init
    ensures var w' := Begun(w, s, w.servers[s], raw, d, policy, connect);
            s in w'.servers ==>
              Grew(w.servers[s], w'.servers[s],
                   if d.Plain? then DataTaken(w.servers[s], d.p, connect, sent, policy) else 0, 0)
  {
    if d.Plain? && |d.p| > 0 && OpensWith(d.p, connect, policy) {
      AttachTakes(AfterHeader(w.servers[s], d.p, Parse(d.p, policy).offset), s, w.next, connect.n);
    }
  }

  lemma StreamedTakes(sv: Server, rm: Remote, raw: seq<byte>, d: Decrypted, connect: Connect, sent: Sent,
                      policy: Policy)
    requires sv.stage == Stream
    ensures var pair := Streamed(sv, rm, raw, d, sent);
            pair.Both? ==> Grew(sv, pair.sv, if d.Plain? then DataTaken(sv, d.p, connect, sent, policy) else 0, 0)
  {
    if d.Plain? {
      StreamUpTakes(sv, rm, d.p, sent);
    }
  }

  lemma ReceivedTakes(w: World, s: Id, input: Input, connect: Connect, sent: Sent, policy: Policy)
    requires Inv(w) && s in w.servers && w.servers[s].recvOn
    ensures var w' := Received(w, s, input, connect, sent, policy);
            s in w'.servers ==>
              Grew(w.servers[s], w'.servers[s],
                   if input.Data? && input.d.Plain? then DataTaken(w.servers[s], input.d.p, connect, sent, policy)
                     else 0,
                   0)
  {
    ServerFacts(w, s);
    var sv := w.servers[s];
    if input.Data? && sv.stage == Stream {
      StreamedTakes(sv, w.remotes[sv.remote], input.raw, input.d, connect, sent, policy);
      BindTakes(w, s, Streamed(sv, w.remotes[sv.remote], input.raw, input.d, sent));
    } else if input.Data? && sv.stage == Init {
      BegunTakes(w, s, input.raw, input.d, connect, sent, policy);
    }
  }

  lemma BindTakes(w: World, s: Id, pair: Pair)
    requires s in w.servers
    ensures var w' := Bind(w, s, pair); s in w'.servers && pair.Both? ==> w'.servers[s] == pair.sv
    ensures pair.Closed? ==> s !in Bind(w, s, pair).servers
  {
  }

  lemma LookedTakes(w: World, q: Id, v4: bool, found: seq<Sockaddr>, connect: Connect, s: Id, policy: Policy)
    requires Inv(w) && q in w.queries && w.queries[q].server == s && s in w.servers
    ensures var w' := Looked(w, q, v4, found, connect);
            s in w'.servers ==> Grew(w.servers[s], w'.servers[s], UpTaken(w, Dns(q, v4, found, connect), policy, s), 0)
  {
    ServerFacts(w, s);
    if connect.Opened? {
      AttachTakes(w.servers[s], s, w.next, connect.n);
    }
    LookedEnds(w, q, v4, found, connect, s);
  }

  /** The two callbacks of a remote. */
  lemma RemoteTakes(w: World, e: Event, policy: Policy, s: Id)
    requires Inv(w) && Enabled(w, e) && s in w.servers && s in Step(w, e, policy).servers
    requires (e.RemoteRecv? || e.RemoteSend?) && w.remotes[e.r].server == s
    ensures Grew(w.servers[s], Step(w, e, policy).servers[s], UpTaken(w, e, policy, s), DownTaken(w, e, s))
  {
    RemoteFacts(w, e.r);
    var sv, rm := w.servers[s], w.remotes[e.r];
    if e.RemoteSend? {
      FlushUpTakes(sv, rm, e.peer, e.sent);
      BindTakes(w, s, FlushUp(sv, rm, e.peer, e.sent));
    } else if e.chunk.Chunk? {
      StreamDownTakes(sv, rm, e.chunk.c, e.sent);
      BindTakes(w, s, StreamDown(sv, rm, e.chunk.c, e.sent));
    }
  }

  /** Every callback hands exactly so many bytes on, and counts them as sent. */
  lemma SendsExactly(w: World, e: Event, policy: Policy, s: Id)
    requires Inv(w) && Enabled(w, e) && s in w.servers && s in Step(w, e, policy).servers
    ensures Grew(w.servers[s], Step(w, e, policy).servers[s], UpTaken(w, e, policy, s), DownTaken(w, e, s))
  {
    StepOnly(w, e, policy);
    if s == Actor(w, e) {
      ServerFacts(w, s);
      var sv := w.servers[s];
      match e
      case Accept =>
      case ServerRecv(_, input, connect, sent) => ReceivedTakes(w, s, input, connect, sent, policy);
      case ServerSend(_, sent) =>
        FlushDownTakes(sv, w.remotes[sv.remote], sent);
        BindTakes(w, s, FlushDown(sv, w.remotes[sv.remote], sent));
      case ServerTimeout(_) =>
      case RemoteRecv(_, _, _) => RemoteTakes(w, e, policy, s);
      case RemoteSend(_, _, _) => RemoteTakes(w, e, policy, s);
      case Dns(q, v4, found, connect) => LookedTakes(w, q, v4, found, connect, s, policy);
    }
  }
}
