/**
 The TCP relay together with the AEAD codec: what a client encrypts is what the remote gets, whatever the network does
 to the fragments and however the callbacks of all connections interleave.
 */
module RelayCodec {
  import opened Bytes
  import opened TcpHeader
  import opened RelaySpec
  import opened RelayWorld
  import opened RelayProof
  import S = AeadSpec
  import A = AeadStream
  import Socks5

  // ---------- a callback concerns one server ----------

  /** The server that a callback is about. */
  function Actor(w: World, e: Event): Id {
    match e
    case Accept => w.next
    case ServerRecv(s, _, _, _) => s
    case ServerSend(s, _) => s
    case ServerTimeout(s) => s
    case RemoteRecv(r, _, _) => if r in w.remotes then w.remotes[r].server else NULL
    case RemoteSend(r, _, _) => if r in w.remotes then w.remotes[r].server else NULL
    case Dns(q, _, _, _) => if q in w.queries then w.queries[q].server else NULL
  }

  /** No server but t is changed, opened or closed. */
  ghost predicate OnlyServer(w: World, w': World, t: Id) {
    && w'.next >= w.next
    && forall x :: x != t ==>
         (x in w'.servers <==> x in w.servers) && (x in w.servers ==> w'.servers[x] == w.servers[x])
  }

  lemma BindOnly(w: World, s: Id, pair: Pair)
    requires Inv(w) && s in w.servers
    ensures OnlyServer(w, Bind(w, s, pair), s)
  {
    ServerFacts(w, s);
  }

  lemma LinkedOnly(w: World, s: Id, sv: Server, connect: Connect)
    ensures OnlyServer(w, Linked(w, s, sv, connect), s)
  {
  }

  lemma StartedOnly(w: World, s: Id, sv: Server, p: seq<byte>, policy: Policy, connect: Connect)
    requires |p| > 0
    ensures OnlyServer(w, Started(w, s, sv, p, policy, connect), s)
  {
    match Parse(p, policy)
    case Accepted(_, offset, _) => LinkedOnly(w, s, AfterHeader(sv, p, offset), connect);
    case _ =>
  }

  lemma BegunOnly(w: World, s: Id, sv: Server, raw: seq<byte>, d: Decrypted, policy: Policy, connect: Connect)
    ensures OnlyServer(w, Begun(w, s, sv, raw, d, policy, connect), s)
  {
    if d.Plain? && |d.p| > 0 {
      StartedOnly(w, s, sv, d.p, policy, connect);
    }
  }

  lemma ReceivedOnly(w: World, s: Id, input: Input, connect: Connect, sent: Sent, policy: Policy)
    requires Inv(w) && s in w.servers
    ensures OnlyServer(w, Received(w, s, input, connect, sent, policy), s)
  {
    ServerFacts(w, s);
    if input.Data? {
      var sv := w.servers[s];
      BegunOnly(w, s, sv, input.raw, input.d, policy, connect);
      if sv.remote in w.remotes {
        BindOnly(w, s, Streamed(sv, w.remotes[sv.remote], input.raw, input.d, sent));
      }
    }
  }

  lemma AnsweredOnly(w: World, r: Id, chunk: FromRemote, sent: Sent)
    requires Inv(w) && r in w.remotes
    ensures OnlyServer(w, Answered(w, r, chunk, sent), w.remotes[r].server)
  {
    RemoteFacts(w, r);
    var s := w.remotes[r].server;
    if s in w.servers && chunk.Chunk? {
      BindOnly(w, s, StreamDown(w.servers[s], w.remotes[r], chunk.c, sent));
    }
  }

  lemma ResolvedOnly(w: World, q: Id, connect: Connect)
    requires q in w.queries
    ensures OnlyServer(w, Resolved(w, q, connect), w.queries[q].server)
  {
    var s := w.queries[q].server;
    if s in w.servers {
      LinkedOnly(w, s, w.servers[s], connect);
    }
  }

  lemma FreedOnly(w: World, q: Id, s: Id)
    requires q in w.queries ==> w.queries[q].server == s || w.queries[q].server !in w.servers
    ensures OnlyServer(w, Freed(w, q), s)
  {
  }

  lemma LookedOnly(w: World, q: Id, v4: bool, found: seq<Sockaddr>, connect: Connect)
    requires Inv(w) && q in w.queries
    ensures OnlyServer(w, Looked(w, q, v4, found, connect), w.queries[q].server)
  {
    var s := w.queries[q].server;
    var w1 := w.(queries := w.queries[q := Noted(w.queries[q], v4, found)]);
    ResolvedOnly(w1, q, connect);
    FreedOnly(Resolved(w1, q, connect), q, s);
  }

  lemma StepOnly(w: World, e: Event, policy: Policy)
    requires Inv(w) && Enabled(w, e)
    ensures OnlyServer(w, Step(w, e, policy), Actor(w, e))
  {
    match e
    case Accept =>
    case ServerRecv(s, input, connect, sent) => ReceivedOnly(w, s, input, connect, sent, policy);
    case ServerSend(s, sent) =>
      ServerFacts(w, s);
      BindOnly(w, s, FlushDown(w.servers[s], w.remotes[w.servers[s].remote], sent));
    case ServerTimeout(s) => BindOnly(w, s, Closed);
    case RemoteRecv(r, chunk, sent) => AnsweredOnly(w, r, chunk, sent);
    case RemoteSend(r, peer, sent) =>
      RemoteFacts(w, r);
      var s := w.remotes[r].server;
      BindOnly(w, s, FlushUp(w.servers[s], w.remotes[r], peer, sent));
    case Dns(q, v4, found, connect) => LookedOnly(w, q, v4, found, connect);
  }

  // ---------- what a server was given ----------

  /** A server that has no header yet. */
  predicate Unread(sv: Server) {
    sv.stage == Init && sv.remote == NULL
  }

  /** Nothing was added to the client's payload. */
  predicate SameUp(a: Server, b: Server) {
    b.log.up == a.log.up && (Unread(b) <==> Unread(a)) && (a.stage != Stop ==> b.stage != Stop)
  }

  predicate IsData(e: Event, s: Id) {
    e.ServerRecv? && e.s == s && e.input.Data?
  }

  lemma FlushedSame(sv: Server, rm: Remote, peer: bool, c: seq<byte>, sent: Sent)
    requires sv.remote != NULL
    ensures FlushUp(sv, rm, peer, sent).Both? ==> SameUp(sv, FlushUp(sv, rm, peer, sent).sv)
    ensures FlushDown(sv, rm, sent).Both? ==> SameUp(sv, FlushDown(sv, rm, sent).sv)
    ensures StreamDown(sv, rm, c, sent).Both? ==> SameUp(sv, StreamDown(sv, rm, c, sent).sv)
  {
  }

  /** The server, if it is still there, was given nothing. */
  predicate Same(w: World, w': World, s: Id) {
    s in w.servers && s in w'.servers ==> SameUp(w.servers[s], w'.servers[s])
  }

  lemma BindSame(w: World, s: Id, pair: Pair)
    requires s in w.servers && (pair.Both? ==> SameUp(w.servers[s], pair.sv))
    ensures Same(w, Bind(w, s, pair), s)
  {
  }

  lemma AnsweredSame(w: World, r: Id, chunk: FromRemote, sent: Sent)
    requires Inv(w) && r in w.remotes
    ensures Same(w, Answered(w, r, chunk, sent), w.remotes[r].server)
  {
    RemoteFacts(w, r);
    var s := w.remotes[r].server;
    if s in w.servers && chunk.Chunk? {
      FlushedSame(w.servers[s], w.remotes[r], true, chunk.c, sent);
      BindSame(w, s, StreamDown(w.servers[s], w.remotes[r], chunk.c, sent));
    }
  }

  lemma ResolvedSame(w: World, q: Id, connect: Connect)
    requires q in w.queries && w.next != NULL
    requires var s := w.queries[q].server; s in w.servers ==> w.servers[s].stage == Resolve
    ensures Same(w, Resolved(w, q, connect), w.queries[q].server)
  {
  }

  lemma LookedSame(w: World, q: Id, v4: bool, found: seq<Sockaddr>, connect: Connect)
    requires Inv(w) && q in w.queries
    ensures Same(w, Looked(w, q, v4, found, connect), w.queries[q].server)
  {
    var s := w.queries[q].server;
    if s in w.servers {
      ServerFacts(w, s);
    }
    var w1 := w.(queries := w.queries[q := Noted(w.queries[q], v4, found)]);
    ResolvedSame(w1, q, connect);
  }

  /** Only data from its client gives a server anything. */
  lemma StepSame(w: World, e: Event, policy: Policy, s: Id)
    requires Inv(w) && Enabled(w, e) && !IsData(e, s)
    ensures Same(w, Step(w, e, policy), s)
  {
    StepOnly(w, e, policy);
    if s == Actor(w, e) && s in w.servers {
      ServerFacts(w, s);
      match e
      case Accept =>
      case ServerRecv(_, input, connect, sent) =>
      case ServerSend(_, sent) =>
        FlushedSame(w.servers[s], w.remotes[w.servers[s].remote], true, [], sent);
        BindSame(w, s, FlushDown(w.servers[s], w.remotes[w.servers[s].remote], sent));
      case ServerTimeout(_) =>
      case RemoteRecv(r, chunk, sent) => AnsweredSame(w, r, chunk, sent);
      case RemoteSend(r, peer, sent) =>
        RemoteFacts(w, r);
        FlushedSame(w.servers[s], w.remotes[r], peer, [], sent);
        BindSame(w, s, FlushUp(w.servers[s], w.remotes[r], peer, sent));
      case Dns(q, v4, found, connect) => LookedSame(w, q, v4, found, connect);
    }
  }

  // ---------- data ----------

  /** The header is accepted, whatever follows it. */
  ghost predicate Accepts(policy: Policy, head: seq<byte>) {
    |head| > 0 && forall rest ::
      var h := Parse(head + rest, policy); h.Accepted? && h.offset == |head|
  }

  /** The server has the payload of everything that it was given, that is, all of it but the header. */
  predicate Has(sv: Server, given: seq<byte>, head: seq<byte>) {
    && sv.stage != Stop
    && if given == [] then Unread(sv) else !Unread(sv) && |head| <= |given| && sv.log.up == given[|head|..]
  }

  lemma AttachHas(sv: Server, s: Id, r: Id, n: nat, given: seq<byte>, head: seq<byte>)
    requires sv.stage != Stop && given != [] && |head| <= |given| && sv.log.up == given[|head|..] && r != NULL
    ensures Has(Attach(sv, s, r, n).sv, given, head)
  {
  }

  lemma StartedHas(w: World, s: Id, p: seq<byte>, policy: Policy, connect: Connect, head: seq<byte>)
    requires Inv(w) && s in w.servers && w.servers[s].stage == Init && head <= p && Accepts(policy, head)
    ensures var w' := Started(w, s, w.servers[s], p, policy, connect); s in w'.servers ==> Has(w'.servers[s], p, head)
  {
    assert p == head + p[|head|..];
    var h := Parse(head + p[|head|..], policy);
    var sv := AfterHeader(w.servers[s], p, |head|);
    if !h.query && connect.Opened? {
      AttachHas(sv, s, w.next, connect.n, p, head);
    }
  }

  lemma StreamedHas(w: World, s: Id, p: seq<byte>, sent: Sent, given: seq<byte>, head: seq<byte>)
    requires s in w.servers && w.servers[s].remote in w.remotes && w.servers[s].stage == Stream && given != []
    requires Has(w.servers[s], given, head)
    ensures var w' := Bind(w, s, StreamUp(w.servers[s], w.remotes[w.servers[s].remote], p, sent));
            s in w'.servers ==> Has(w'.servers[s], given + p, head)
  {
    assert (given + p)[|head|..] == given[|head|..] + p;
  }

  /** Data that can be decrypted adds to what the server has. */
  lemma DataHas(w: World, e: Event, policy: Policy, given: seq<byte>, head: seq<byte>)
    requires Inv(w) && Enabled(w, e) && e.ServerRecv? && e.input.Data? && !e.input.d.Bad?
    requires Accepts(policy, head) && Has(w.servers[e.s], given, head)
    requires e.input.d.Plain? && given == [] ==> head <= e.input.d.p
    ensures var w' := Step(w, e, policy);
            e.s in w'.servers ==> Has(w'.servers[e.s], given + Text(e.input.d), head)
  {
    ServerFacts(w, e.s);
    assert given + [] == given && [] + Text(e.input.d) == Text(e.input.d);
    if e.input.d.Plain? {
      if w.servers[e.s].stage == Init {
        StartedHas(w, e.s, e.input.d.p, policy, e.connect, head);
      } else {
        StreamedHas(w, e.s, e.input.d.p, e.sent, given, head);
      }
    }
  }

  function Text(d: Decrypted): seq<byte> {
    if d.Plain? then d.p else []
  }

  // ---------- over every run ----------

  /** What the first n events gave to server s. */
  function Given(events: seq<Event>, s: Id, n: nat): seq<byte>
    requires n <= |events|
  {
    if n == 0 then []
    else if IsData(events[n - 1], s) then Given(events, s, n - 1) + Text(events[n - 1].input.d)
    else Given(events, s, n - 1)
  }

  /** Nothing fails to decrypt, and the header is in the first text. */
  ghost predicate Clean(events: seq<Event>, s: Id, head: seq<byte>, n: nat)
    requires n <= |events|
  {
    forall i :: 0 <= i < n ==> CleanAt(events, s, head, i)
  }

  ghost predicate CleanAt(events: seq<Event>, s: Id, head: seq<byte>, i: nat)
    requires i < |events|
  {
    IsData(events[i], s) ==>
      !events[i].input.d.Bad? && (events[i].input.d.Plain? && Given(events, s, i) == [] ==> head <= events[i].input.d.p)
  }

  lemma OpenedByAccept(w: World, e: Event, policy: Policy, s: Id)
    requires Inv(w) && Enabled(w, e) && s !in w.servers && s in Step(w, e, policy).servers
    ensures s == w.next && Step(w, e, policy).servers[s] == NEW_SERVER
  {
    StepKeeps(w, e, policy);
    StepOnly(w, e, policy);
  }

  /** One step of a run. */
  lemma StepHas(w: World, e: Event, policy: Policy, s: Id, given: seq<byte>, head: seq<byte>)
    requires Inv(w) && Enabled(w, e) && Accepts(policy, head) && (given != [] ==> s < w.next)
    requires s in w.servers ==> Has(w.servers[s], given, head)
    requires IsData(e, s) ==> !e.input.d.Bad? && (e.input.d.Plain? && given == [] ==> head <= e.input.d.p)
    ensures var w' := Step(w, e, policy);
            var given' := if IsData(e, s) then given + Text(e.input.d) else given;
            (s in w'.servers ==> Has(w'.servers[s], given', head)) && (given' != [] ==> s < w'.next)
  {
    StepOnly(w, e, policy);
    if IsData(e, s) {
      DataHas(w, e, policy, given, head);
    } else if s in w.servers {
      StepSame(w, e, policy, s);
    } else if s in Step(w, e, policy).servers {
      OpenedByAccept(w, e, policy, s);
    }
  }

  lemma {:induction false} RunHas(trace: seq<World>, events: seq<Event>, policy: Policy, s: Id, head: seq<byte>, n: nat)
    requires IsRun(trace, events, policy) && n <= |events| && Accepts(policy, head) && Clean(events, s, head, n)
    ensures s in trace[n].servers ==> Has(trace[n].servers[s], Given(events, s, n), head)
    ensures Given(events, s, n) != [] ==> s < trace[n].next
  {
    if n > 0 {
      assert CleanAt(events, s, head, n - 1);
      RunHas(trace, events, policy, s, head, n - 1);
      RunKeeps(trace, events, policy, n - 1);
      StepHas(trace[n - 1], events[n - 1], policy, s, Given(events, s, n - 1), head);
      assert trace[n - 1 + 1] == Step(trace[n - 1], events[n - 1], policy);
    }
  }

  // ---------- the codec ----------

  /** The fragments that arrived for server s in the first n events. */
  function Arrived(events: seq<Event>, s: Id, n: nat): seq<seq<byte>>
    requires n <= |events|
  {
    if n == 0 then []
    else if IsData(events[n - 1], s) then Arrived(events, s, n - 1) + [events[n - 1].input.raw]
    else Arrived(events, s, n - 1)
  }

  /** What a call of aead_decrypt says to its caller. */
  function Outcome(d: A.Received): Decrypted {
    match d.status
    case OK => Plain(d.output)
    case NeedMore => More
    case Error => Bad
  }

  /** The i-th event, if it is data for server s, brings a fragment that its AEAD context decrypts. */
  ghost predicate Deciphered(c: S.Cipher, events: seq<Event>, s: Id, i: nat)
    requires c.Lawful() && i < |events|
  {
    IsData(events[i], s) ==>
      && events[i].input.raw != []
      && events[i].input.d == Outcome(A.Receive(c, A.Feed(c, Arrived(events, s, i)).state, events[i].input.raw, false))
  }

  ghost predicate Deciphers(c: S.Cipher, events: seq<Event>, s: Id, n: nat)
    requires c.Lawful() && n <= |events|
  {
    forall i :: 0 <= i < n ==> Deciphered(c, events, s, i)
  }

  lemma FeedMore(c: S.Cipher, fragments: seq<seq<byte>>, raw: seq<byte>)
    requires c.Lawful()
    ensures A.Feed(c, fragments + [raw]) == A.FeedOne(c, A.Feed(c, fragments), raw)
    ensures Flatten(fragments + [raw]) == Flatten(fragments) + raw
  {
    var all := fragments + [raw];
    assert all[..|all| - 1] == fragments && all[|all| - 1] == raw;
  }

  /** One more fragment. */
  lemma FedText(c: S.Cipher, f: A.Fed, raw: seq<byte>, d: Decrypted)
    requires c.Lawful() && raw != [] && d == Outcome(A.Receive(c, f.state, raw, false)) && !A.FeedOne(c, f, raw).failed
    ensures !f.failed && !d.Bad? && A.FeedOne(c, f, raw).output == f.output + Text(d)
  {
    A.ReceiveProgress(c, f.state, raw, false);
  }

  /** What the context has come to after the first n events. */
  ghost function FedBy(c: S.Cipher, events: seq<Event>, s: Id, n: nat): A.Fed
    requires c.Lawful() && n <= |events|
  {
    A.Feed(c, Arrived(events, s, n))
  }

  lemma FedStep(c: S.Cipher, events: seq<Event>, s: Id, i: nat)
    requires c.Lawful() && i < |events| && Deciphered(c, events, s, i) && !FedBy(c, events, s, i + 1).failed
    ensures !FedBy(c, events, s, i).failed && (IsData(events[i], s) ==> !events[i].input.d.Bad?)
    ensures FedBy(c, events, s, i + 1).output ==
            FedBy(c, events, s, i).output + if IsData(events[i], s) then Text(events[i].input.d) else []
  {
    if IsData(events[i], s) {
      FeedMore(c, Arrived(events, s, i), events[i].input.raw);
      FedText(c, FedBy(c, events, s, i), events[i].input.raw, events[i].input.d);
    } else {
      assert FedBy(c, events, s, i).output + [] == FedBy(c, events, s, i).output;
    }
  }

  /** As long as the context has not failed, the server was given what the context delivered. */
  lemma {:induction false} GivenIsFed(c: S.Cipher, events: seq<Event>, s: Id, n: nat)
    requires c.Lawful() && n <= |events| && Deciphers(c, events, s, n) && !FedBy(c, events, s, n).failed
    ensures Given(events, s, n) == FedBy(c, events, s, n).output
  {
    if n > 0 {
      FedStep(c, events, s, n - 1);
      GivenIsFed(c, events, s, n - 1);
    }
  }

  lemma {:induction false} NeverBad(c: S.Cipher, events: seq<Event>, s: Id, i: nat, n: nat)
    requires c.Lawful() && i < n <= |events| && Deciphers(c, events, s, n) && !FedBy(c, events, s, n).failed
    ensures IsData(events[i], s) ==> !events[i].input.d.Bad?
    decreases n
  {
    FedStep(c, events, s, n - 1);
    if i < n - 1 {
      NeverBad(c, events, s, i, n - 1);
    }
  }

  lemma {:induction false} ArrivedGrows(c: S.Cipher, events: seq<Event>, s: Id, m: nat, n: nat)
    requires c.Lawful() && m <= n <= |events|
    ensures Flatten(Arrived(events, s, m)) <= Flatten(Arrived(events, s, n))
    decreases n
  {
    if m < n {
      ArrivedGrows(c, events, s, m, n - 1);
      if IsData(events[n - 1], s) {
        FeedMore(c, Arrived(events, s, n - 1), events[n - 1].input.raw);
      }
    }
  }

  ghost predicate NoneEmpty(fragments: seq<seq<byte>>) {
    forall i :: 0 <= i < |fragments| ==> fragments[i] != []
  }

  lemma {:induction false} ArrivedNotEmpty(c: S.Cipher, events: seq<Event>, s: Id, n: nat)
    requires c.Lawful() && n <= |events| && Deciphers(c, events, s, n)
    ensures NoneEmpty(Arrived(events, s, n))
  {
    if n > 0 {
      ArrivedNotEmpty(c, events, s, n - 1);
      assert Deciphered(c, events, s, n - 1);
      var before, all := Arrived(events, s, n - 1), Arrived(events, s, n);
      if IsData(events[n - 1], s) {
        var raw := events[n - 1].input.raw;
        assert all == before + [raw] && |raw| > 0;
        assert forall i :: 0 <= i < |all| ==> all[i] == if i < |before| then before[i] else raw;
      }
    }
  }

  /** The chunks that have arrived. */
  lemma Delivered(c: S.Cipher, salt: seq<byte>, ps: seq<seq<byte>>, fragments: seq<seq<byte>>)
    returns (k: nat, tail: seq<byte>)
    requires c.Lawful() && |salt| == c.saltLen && S.AllFit(ps)
    requires NoneEmpty(fragments) && Flatten(fragments) <= A.Wire(c, salt, ps)
    ensures k <= |ps| && !A.Feed(c, fragments).failed && A.Feed(c, fragments).output == Flatten(ps[..k])
    ensures if |Flatten(fragments)| <= c.saltLen then k == 0
            else S.Cut(c, c.subkey(salt), 0, ps, k, tail) && Flatten(fragments) == A.Wire(c, salt, ps[..k]) + tail
  {
    if |Flatten(fragments)| <= c.saltLen {
      A.BeforeSalt(c, fragments);
      k, tail := 0, [];
    } else {
      k, tail := A.CodecCorrect(c, salt, ps, fragments);
    }
  }

  lemma FirstIsFirst(ps: seq<seq<byte>>, k: nat)
    requires k <= |ps|
    ensures if k == 0 then Flatten(ps[..k]) == [] else ps[0] <= Flatten(ps[..k])
  {
    if k > 0 {
      assert ps[..k] == [ps[0]] + ps[1..k];
      FlattenCons(ps[0], ps[1..k]);
    }
  }

  /** The first text that is delivered starts with the first payload. */
  lemma FirstText(c: S.Cipher, salt: seq<byte>, ps: seq<seq<byte>>, events: seq<Event>, s: Id, i: nat)
    requires c.Lawful() && |salt| == c.saltLen && S.AllFit(ps) && ps != []
    requires i < |events| && Deciphers(c, events, s, i + 1) && IsData(events[i], s) && events[i].input.d.Plain?
    requires Flatten(Arrived(events, s, i + 1)) <= A.Wire(c, salt, ps) && Given(events, s, i) == []
    ensures ps[0] <= events[i].input.d.p
  {
    var p := events[i].input.d.p;
    ArrivedNotEmpty(c, events, s, i + 1);
    var k, _ := Delivered(c, salt, ps, Arrived(events, s, i + 1));
    GivenIsFed(c, events, s, i + 1);
    assert Given(events, s, i + 1) == [] + p == p;
    assert Deciphered(c, events, s, i);
    A.ReceiveProgress(c, A.Feed(c, Arrived(events, s, i)).state, events[i].input.raw, false);
    FirstIsFirst(ps, k);
  }

  lemma SentNeverFails(c: S.Cipher, salt: seq<byte>, ps: seq<seq<byte>>, events: seq<Event>, s: Id, n: nat)
    requires c.Lawful() && |salt| == c.saltLen && S.AllFit(ps)
    requires n <= |events| && Deciphers(c, events, s, n)
    requires Flatten(Arrived(events, s, n)) <= A.Wire(c, salt, ps)
    ensures !FedBy(c, events, s, n).failed
  {
    ArrivedNotEmpty(c, events, s, n);
    var _, _ := Delivered(c, salt, ps, Arrived(events, s, n));
  }

  /** A sent stream whose first chunk starts with the header decrypts cleanly, however it is cut. */
  lemma SentIsClean(c: S.Cipher, salt: seq<byte>, ps: seq<seq<byte>>, events: seq<Event>, s: Id, head: seq<byte>,
                    n: nat)
    requires c.Lawful() && |salt| == c.saltLen && S.AllFit(ps) && ps != [] && head <= ps[0]
    requires n <= |events| && Deciphers(c, events, s, n)
    requires Flatten(Arrived(events, s, n)) <= A.Wire(c, salt, ps)
    ensures Clean(events, s, head, n)
  {
    SentNeverFails(c, salt, ps, events, s, n);
    forall i | 0 <= i < n
      ensures CleanAt(events, s, head, i)
    {
      NeverBad(c, events, s, i, n);
      if IsData(events[i], s) && events[i].input.d.Plain? && Given(events, s, i) == [] {
        ArrivedGrows(c, events, s, i + 1, n);
        FirstText(c, salt, ps, events, s, i);
      }
    }
  }

  /** From end to end: in every run, for a connection whose client has sent the payloads ps, the first of them
      starting with a header that the server accepts, let k be the number of chunks that have arrived whole. What was
      sent to the remote, followed by what waits to be sent, is exactly the first k payloads without the header.
      Neither the fragments, nor partial sends, nor the name lookup, nor the other connections make a difference; and
      the server never stops. */
  lemma EndToEnd(c: S.Cipher, salt: seq<byte>, ps: seq<seq<byte>>, head: seq<byte>,
                 trace: seq<World>, events: seq<Event>, policy: Policy, s: Id, n: nat)
    returns (k: nat, tail: seq<byte>)
    requires c.Lawful() && |salt| == c.saltLen && S.AllFit(ps) && ps != [] && head <= ps[0] && Accepts(policy, head)
    requires IsRun(trace, events, policy) && n <= |events| && s in trace[n].servers && Deciphers(c, events, s, n)
    requires Flatten(Arrived(events, s, n)) <= A.Wire(c, salt, ps)
    ensures k <= |ps|
    ensures var arrived := Flatten(Arrived(events, s, n));
            if |arrived| <= c.saltLen then k == 0
            else S.Cut(c, c.subkey(salt), 0, ps, k, tail) && arrived == A.Wire(c, salt, ps[..k]) + tail
    ensures var sv := trace[n].servers[s];
            && sv.stage != Stop
            && (k == 0 <==> Unread(sv))
            && (k > 0 ==> |head| <= |Flatten(ps[..k])|)
            && (k > 0 && sv.remote == NULL ==> Slice(sv.buf) == Flatten(ps[..k])[|head|..])
            && (k > 0 && sv.remote != NULL ==>
                  sv.remote in trace[n].remotes
                  && sv.log.upSent + UpPending(trace[n].remotes[sv.remote]) == Flatten(ps[..k])[|head|..])
  {
    ArrivedNotEmpty(c, events, s, n);
    k, tail := Delivered(c, salt, ps, Arrived(events, s, n));
    GivenIsFed(c, events, s, n);
    SentIsClean(c, salt, ps, events, s, head, n);
    RunHas(trace, events, policy, s, head, n);
    RunKeeps(trace, events, policy, n);
    ServerFacts(trace[n], s);
    FirstIsFirst(ps, k);
  }

  /** The header that ss-local makes of a request is accepted, unless the name is blocked or malformed. */
  lemma AddressAccepted(t: Target, policy: Policy)
    requires Socks5.WellFormed(t)
    requires t.Domain? ==> !policy.isBlocked(t.name) && (policy.isLiteral(t.name) || policy.isValid(t.name))
    ensures Accepts(policy, Socks5.Address(t))
  {
    var head := Socks5.Address(t);
    forall rest
      ensures var h := Parse(head + rest, policy); h.Accepted? && h.offset == |head|
    {
      Socks5.HeaderUnderstood(t, rest, policy);
    }
  }
}
