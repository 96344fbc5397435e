/**
 The way back, from the remote to the client: exactly when its bytes arrive in order, and what a client that decrypts
 them gets.
 */
module RelayDown {
  import opened Bytes
  import opened TcpHeader
  import opened RelaySpec
  import opened RelayWorld
  import opened RelayProof
  import opened RelayLife
  import opened RelayCodec
  import S = AeadSpec
  import A = AeadStream

  // ---------- exactly when the order is kept ----------

  /** What was sent to the client, followed by what waits to be sent, is what was encrypted for it. */
  predicate DownOk(sv: Server) {
    sv.log.downSent + DownPending(sv) == sv.log.down
  }

  /** A stopped server receives into the buffer from which it still has to send, and changes what is to be sent. */
  predicate Corrupts(w: World, e: Event, s: Id) {
    && IsData(e, s) && s in w.servers && w.servers[s].stage == Stop && w.servers[s].sendOn
    && Slice(Overwrite(w.servers[s].buf, e.input.raw)) != Slice(w.servers[s].buf)
  }

  /** A server that has not stopped keeps the order. */
  lemma RunningIsOk(w: World, s: Id)
    requires Inv(w) && s in w.servers && w.servers[s].stage != Stop
    ensures DownOk(w.servers[s])
  {
    ServerFacts(w, s);
  }

  lemma FlushDownOk(sv: Server, rm: Remote, sent: Sent)
    requires sv.sendOn && Fits(sv.buf) && DownOk(sv)
    ensures var pair := FlushDown(sv, rm, sent); pair.Both? ==> DownOk(pair.sv)
  {
    if sent.Sent? && sent.n < sv.buf.len {
      PartSent(sv.log.downSent, sv.buf, sent.n, sv.log.down);
    } else {
      assert sv.log.down + [] == sv.log.down;
    }
  }

  /** Data for a stopped server. */
  lemma StoppedDataDown(w: World, e: Event, policy: Policy, s: Id)
    requires Inv(w) && Enabled(w, e) && IsData(e, s) && w.servers[s].stage == Stop && DownOk(w.servers[s])
    ensures var w' := Step(w, e, policy); s in w'.servers && (DownOk(w'.servers[s]) <==> !Corrupts(w, e, s))
  {
    var sv := w.servers[s];
    var sv' := sv.(buf := Overwrite(sv.buf, e.input.raw));
    assert Step(w, e, policy).servers[s] == sv';
    if sv.sendOn && DownOk(sv') {
      assert sv.log.downSent + Slice(sv.buf) == sv.log.downSent + Slice(sv'.buf);
      SameSuffix(sv.log.downSent, Slice(sv.buf), Slice(sv'.buf));
    }
  }

  lemma SameSuffix(a: seq<byte>, b: seq<byte>, c: seq<byte>)
    requires a + b == a + c
    ensures b == c
  {
    assert b == (a + b)[|a|..] == (a + c)[|a|..] == c;
  }

  lemma StoppedAnswerDown(w: World, r: Id, chunk: FromRemote, sent: Sent, s: Id)
    requires Inv(w) && r in w.remotes && w.remotes[r].recvOn && w.remotes[r].server == s && s in w.servers
    requires w.servers[s].stage == Stop && DownOk(w.servers[s])
    ensures var w' := Answered(w, r, chunk, sent); s in w'.servers ==> DownOk(w'.servers[s])
  {
    RemoteFacts(w, r);
  }

  /** One callback of a server that has stopped. */
  lemma StoppedDown(w: World, e: Event, policy: Policy, s: Id)
    requires Inv(w) && Enabled(w, e) && s in w.servers && w.servers[s].stage == Stop && DownOk(w.servers[s])
    ensures var w' := Step(w, e, policy); s in w'.servers ==> (DownOk(w'.servers[s]) <==> !Corrupts(w, e, s))
  {
    StepOnly(w, e, policy);
    if IsData(e, s) {
      StoppedDataDown(w, e, policy, s);
    } else if s == Actor(w, e) {
      ServerFacts(w, s);
      match e
      case ServerSend(_, sent) => FlushDownOk(w.servers[s], w.remotes[w.servers[s].remote], sent);
      case RemoteRecv(r, chunk, sent) => StoppedAnswerDown(w, r, chunk, sent, s);
      case RemoteSend(r, _, _) => RemoteFacts(w, r);
      case _ =>
    }
  }

  /** Data that stops a server leaves what it has to send alone. */
  lemma StoppingDown(w: World, s: Id, raw: seq<byte>, d: Decrypted, connect: Connect, sent: Sent, policy: Policy)
    requires Inv(w) && s in w.servers && w.servers[s].recvOn && w.servers[s].stage != Stop && (d.Plain? ==> |d.p| > 0)
    ensures var w' := Received(w, s, Data(raw, d), connect, sent, policy);
            s in w'.servers && w'.servers[s].stage == Stop ==> DownOk(w'.servers[s])
  {
    ServerFacts(w, s);
    RunningIsOk(w, s);
  }

  lemma RunningDown(w: World, e: Event, policy: Policy, s: Id)
    requires Inv(w) && Enabled(w, e) && s in Step(w, e, policy).servers
    requires s in w.servers ==> w.servers[s].stage != Stop
    ensures DownOk(Step(w, e, policy).servers[s])
  {
    StepKeeps(w, e, policy);
    if s !in w.servers {
      OpenedByAccept(w, e, policy, s);
    } else if IsData(e, s) {
      StoppingDown(w, s, e.input.raw, e.input.d, e.connect, e.sent, policy);
    } else {
      StepSame(w, e, policy, s);
    }
    if Step(w, e, policy).servers[s].stage != Stop {
      RunningIsOk(Step(w, e, policy), s);
    }
  }

  /** Of all callbacks, exactly a corrupting one breaks the order. */
  lemma StepDown(w: World, e: Event, policy: Policy, s: Id)
    requires Inv(w) && Enabled(w, e) && s in Step(w, e, policy).servers && (s in w.servers ==> DownOk(w.servers[s]))
    ensures DownOk(Step(w, e, policy).servers[s]) <==> !Corrupts(w, e, s)
  {
    StepKeeps(w, e, policy);
    if s in w.servers && w.servers[s].stage == Stop {
      StoppedDown(w, e, policy, s);
    } else {
      RunningDown(w, e, policy, s);
    }
  }

  ghost predicate OkAt(trace: seq<World>, s: Id, i: nat)
    requires i < |trace|
  {
    s in trace[i].servers ==> DownOk(trace[i].servers[s])
  }

  ghost predicate CorruptsAt(trace: seq<World>, events: seq<Event>, s: Id, i: nat)
    requires i < |trace| && i < |events|
  {
    Corrupts(trace[i], events[i], s)
  }

  lemma RunStepDown(trace: seq<World>, events: seq<Event>, policy: Policy, s: Id, i: nat)
    requires IsRun(trace, events, policy) && i < |events| && OkAt(trace, s, i)
    ensures OkAt(trace, s, i + 1) <==> !CorruptsAt(trace, events, s, i)
  {
    RunKeeps(trace, events, policy, i);
    var w, e := trace[i], events[i];
    assert trace[i + 1] == Step(w, e, policy);
    CorruptedStays(w, e, policy, s);
    if s in Step(w, e, policy).servers {
      StepDown(w, e, policy, s);
    }
  }

  /** If exactly corruption ends the order, it is there throughout exactly without corruption. */
  lemma {:induction false} Throughout(trace: seq<World>, events: seq<Event>, s: Id, n: nat)
    requires n <= |events| && |trace| == |events| + 1 && OkAt(trace, s, 0)
    requires forall i :: 0 <= i < n && OkAt(trace, s, i) ==>
             (OkAt(trace, s, i + 1) <==> !CorruptsAt(trace, events, s, i))
    ensures (forall i :: 0 <= i <= n ==> OkAt(trace, s, i)) <==>
            (forall i :: 0 <= i < n ==> !CorruptsAt(trace, events, s, i))
  {
    if n > 0 {
      Throughout(trace, events, s, n - 1);
      assert OkAt(trace, s, n - 1) ==> (OkAt(trace, s, n - 1 + 1) <==> !CorruptsAt(trace, events, s, n - 1));
    }
  }

  /** Throughout a run the order toward a client is kept, if and only if no data comes in that corrupts what its stopped
      server still has to send. */
  lemma DownExactly(trace: seq<World>, events: seq<Event>, policy: Policy, s: Id, n: nat)
    requires IsRun(trace, events, policy) && n <= |events|
    ensures (forall i :: 0 <= i <= n ==> OkAt(trace, s, i)) <==>
            (forall i :: 0 <= i < n ==> !CorruptsAt(trace, events, s, i))
  {
    forall i | 0 <= i < n && OkAt(trace, s, i)
      ensures OkAt(trace, s, i + 1) <==> !CorruptsAt(trace, events, s, i)
    {
      RunStepDown(trace, events, policy, s, i);
    }
    Throughout(trace, events, s, n);
  }

  /** A corrupting callback does not close the server. */
  lemma CorruptedStays(w: World, e: Event, policy: Policy, s: Id)
    ensures Corrupts(w, e, s) ==> s in Step(w, e, policy).servers
  {
  }

  // A run that corrupts: as for a remote left behind, but the client sends one more byte before it goes.

  const CORRUPTING: seq<Event> := STRANDING[..5] + [ServerRecv(1, Data([1], Bad), Refused, Again)]

  const CORRUPTING_TRACE: seq<World> := STRANDING_TRACE[..6] +
    [Connection(Server(Stop, Buf([1], 0, 1), true, true, 2, NULL, ANSWER),
                Remote(Buf([0], 0, 1), false, false, true, 1))]

  /** These six callbacks can run in this order; the client is then sent 1 where the remote's answer was 0. */
  lemma CorruptionIsReached(policy: Policy)
    ensures IsRun(CORRUPTING_TRACE, CORRUPTING, policy) && Corrupts(CORRUPTING_TRACE[5], CORRUPTING[5], 1)
    ensures var sv := CORRUPTING_TRACE[6].servers[1];
            sv.log.down == [0] && sv.log.downSent == [] && DownPending(sv) == [1]
  {
    StrandedIsReached(policy);
    assert forall i :: 0 <= i <= 5 ==> CORRUPTING_TRACE[i] == STRANDING_TRACE[i];
    assert forall i :: 0 <= i < 5 ==> CORRUPTING[i] == STRANDING[i];
    var zero: seq<byte>, one: seq<byte> := [0], [1];
    assert one + zero[1..] == one;
    assert Overwrite(Buf(zero, 0, 1), one) == Buf(one, 0, 1);
    assert Slice(Buf(zero, 0, 1)) == zero && Slice(Buf(one, 0, 1)) == one && zero[0] != one[0];
    assert Step(CORRUPTING_TRACE[5], CORRUPTING[5], policy) == CORRUPTING_TRACE[6];
  }

  // ---------- what was encrypted for a client ----------

  /** The remote of a running server has sent something, and it was encrypted. */
  predicate IsAnswer(w: World, e: Event, s: Id) {
    && e.RemoteRecv? && e.chunk.Chunk? && e.chunk.ok && e.r in w.remotes && w.remotes[e.r].server == s
    && s in w.servers && w.servers[s].stage != Stop
  }

  lemma PairsKeepDown(sv: Server, rm: Remote, raw: seq<byte>, d: Decrypted, peer: bool, sent: Sent)
    ensures Streamed(sv, rm, raw, d, sent).Both? ==> Streamed(sv, rm, raw, d, sent).sv.log.down == sv.log.down
    ensures FlushUp(sv, rm, peer, sent).Both? ==> FlushUp(sv, rm, peer, sent).sv.log.down == sv.log.down
    ensures FlushDown(sv, rm, sent).Both? ==> FlushDown(sv, rm, sent).sv.log.down == sv.log.down
  {
  }

  /** The server, if it is still there, has the same answers. */
  predicate SameDown(w: World, w': World, s: Id) {
    s in w.servers && s in w'.servers ==> w'.servers[s].log.down == w.servers[s].log.down
  }

  lemma StartedSameDown(w: World, s: Id, p: seq<byte>, policy: Policy, connect: Connect)
    requires s in w.servers && |p| > 0
    ensures SameDown(w, Started(w, s, w.servers[s], p, policy, connect), s)
  {
  }

  lemma BegunSameDown(w: World, s: Id, raw: seq<byte>, d: Decrypted, policy: Policy, connect: Connect)
    requires s in w.servers
    ensures SameDown(w, Begun(w, s, w.servers[s], raw, d, policy, connect), s)
  {
    if d.Plain? && |d.p| > 0 {
      StartedSameDown(w, s, d.p, policy, connect);
    }
  }

  lemma BindSameDown(w: World, s: Id, pair: Pair)
    requires s in w.servers && (pair.Both? ==> pair.sv.log.down == w.servers[s].log.down)
    ensures SameDown(w, Bind(w, s, pair), s)
  {
  }

  lemma ReceivedSameDown(w: World, s: Id, input: Input, connect: Connect, sent: Sent, policy: Policy)
    requires Inv(w) && s in w.servers
    ensures SameDown(w, Received(w, s, input, connect, sent, policy), s)
  {
    ServerFacts(w, s);
    var sv := w.servers[s];
    if input.Data? {
      if sv.remote in w.remotes {
        PairsKeepDown(sv, w.remotes[sv.remote], input.raw, input.d, true, sent);
        BindSameDown(w, s, Streamed(sv, w.remotes[sv.remote], input.raw, input.d, sent));
      }
      BegunSameDown(w, s, input.raw, input.d, policy, connect);
    }
  }

  lemma LookedSameDown(w: World, q: Id, v4: bool, found: seq<Sockaddr>, connect: Connect)
    requires Inv(w) && q in w.queries
    ensures SameDown(w, Looked(w, q, v4, found, connect), w.queries[q].server)
  {
    var w1 := w.(queries := w.queries[q := Noted(w.queries[q], v4, found)]);
    ResolvedSameDown(w1, q, connect);
  }

  lemma ResolvedSameDown(w: World, q: Id, connect: Connect)
    requires q in w.queries
    ensures SameDown(w, Resolved(w, q, connect), w.queries[q].server)
  {
  }

  lemma AnsweredDown(w: World, r: Id, chunk: FromRemote, sent: Sent, s: Id)
    requires Inv(w) && r in w.remotes && w.remotes[r].server == s && s in w.servers
    ensures var w' := Answered(w, r, chunk, sent);
            s in w'.servers ==>
              w'.servers[s].log.down == w.servers[s].log.down
                + if chunk.Chunk? && chunk.ok && w.servers[s].stage != Stop then chunk.c else []
  {
    RemoteFacts(w, r);
    assert w.servers[s].log.down + [] == w.servers[s].log.down;
  }

  /** Only an answer of its remote adds to what a server has for its client. */
  lemma StepAnswers(w: World, e: Event, policy: Policy, s: Id)
    requires Inv(w) && Enabled(w, e) && s in w.servers
    ensures var w' := Step(w, e, policy);
            s in w'.servers ==>
              w'.servers[s].log.down == w.servers[s].log.down + if IsAnswer(w, e, s) then e.chunk.c else []
  {
    StepOnly(w, e, policy);
    assert w.servers[s].log.down + [] == w.servers[s].log.down;
    if s == Actor(w, e) {
      ServerFacts(w, s);
      var sv := w.servers[s];
      match e
      case Accept =>
      case ServerRecv(_, input, connect, sent) => ReceivedSameDown(w, s, input, connect, sent, policy);
      case ServerSend(_, sent) => PairsKeepDown(sv, w.remotes[sv.remote], [], More, true, sent);
      case ServerTimeout(_) =>
      case RemoteRecv(r, chunk, sent) => AnsweredDown(w, r, chunk, sent, s);
      case RemoteSend(r, peer, sent) =>
        RemoteFacts(w, r);
        PairsKeepDown(sv, w.remotes[r], [], More, peer, sent);
      case Dns(q, v4, found, connect) => LookedSameDown(w, q, v4, found, connect);
    }
  }

  /** What the remote of server s sent in the first n events, answer by answer. */
  ghost function Answers(trace: seq<World>, events: seq<Event>, s: Id, n: nat): seq<seq<byte>>
    requires n <= |events| <= |trace|
  {
    if n == 0 then []
    else if IsAnswer(trace[n - 1], events[n - 1], s) then
      Answers(trace, events, s, n - 1) + [events[n - 1].chunk.raw]
    else Answers(trace, events, s, n - 1)
  }

  /** What was encrypted for its client. */
  ghost function Ciphertext(trace: seq<World>, events: seq<Event>, s: Id, n: nat): seq<byte>
    requires n <= |events| <= |trace|
  {
    if n == 0 then []
    else if IsAnswer(trace[n - 1], events[n - 1], s) then
      Ciphertext(trace, events, s, n - 1) + events[n - 1].chunk.c
    else Ciphertext(trace, events, s, n - 1)
  }

  lemma {:induction false} RunAnswers(trace: seq<World>, events: seq<Event>, policy: Policy, s: Id, n: nat)
    requires IsRun(trace, events, policy) && n <= |events|
    ensures s in trace[n].servers ==> trace[n].servers[s].log.down == Ciphertext(trace, events, s, n)
    ensures Ciphertext(trace, events, s, n) != [] ==> s < trace[n].next
  {
    if n > 0 {
      var w, e := trace[n - 1], events[n - 1];
      RunAnswers(trace, events, policy, s, n - 1);
      RunKeeps(trace, events, policy, n - 1);
      StepOnly(w, e, policy);
      assert trace[n - 1 + 1] == Step(w, e, policy);
      if s in w.servers {
        StepAnswers(w, e, policy, s);
      } else if s in trace[n].servers {
        OpenedByAccept(w, e, policy, s);
      }
    }
  }

  // ---------- the codec ----------

  /** The n-th event, if it is an answer for server s, fits a chunk and is encrypted by the server's AEAD context. */
  ghost predicate Enciphered(c: S.Cipher, salt: seq<byte>, trace: seq<World>, events: seq<Event>, s: Id, i: nat)
    requires i < |events| <= |trace|
  {
    IsAnswer(trace[i], events[i], s) ==>
      && S.Fits(events[i].chunk.raw) && S.AllFit(Answers(trace, events, s, i))
      && events[i].chunk.c ==
         A.Send(c, A.SendAll(c, salt, Answers(trace, events, s, i)).next, events[i].chunk.raw).bytes
  }

  ghost predicate Enciphers(c: S.Cipher, salt: seq<byte>, trace: seq<World>, events: seq<Event>, s: Id, n: nat)
    requires n <= |events| <= |trace|
  {
    forall i :: 0 <= i < n ==> Enciphered(c, salt, trace, events, s, i)
  }

  lemma SendMore(c: S.Cipher, salt: seq<byte>, ps: seq<seq<byte>>, p: seq<byte>)
    requires S.AllFit(ps) && S.Fits(p)
    ensures S.AllFit(ps + [p])
    ensures A.SendAll(c, salt, ps + [p]).bytes ==
            A.SendAll(c, salt, ps).bytes + A.Send(c, A.SendAll(c, salt, ps).next, p).bytes
  {
    var all := ps + [p];
    assert all[..|all| - 1] == ps && all[|all| - 1] == p;
  }

  /** What is encrypted so far is what the context has sent. */
  ghost predicate SentSoFar(c: S.Cipher, salt: seq<byte>, trace: seq<World>, events: seq<Event>, s: Id, n: nat)
    requires n <= |events| <= |trace|
  {
    && S.AllFit(Answers(trace, events, s, n))
    && Ciphertext(trace, events, s, n) == A.SendAll(c, salt, Answers(trace, events, s, n)).bytes
  }

  lemma SentStep(c: S.Cipher, salt: seq<byte>, trace: seq<World>, events: seq<Event>, s: Id, i: nat)
    requires i < |events| <= |trace| && Enciphered(c, salt, trace, events, s, i)
    requires SentSoFar(c, salt, trace, events, s, i)
    ensures SentSoFar(c, salt, trace, events, s, i + 1)
  {
    if IsAnswer(trace[i], events[i], s) {
      SendMore(c, salt, Answers(trace, events, s, i), events[i].chunk.raw);
    }
  }

  lemma {:induction false} CiphertextIsSent(c: S.Cipher, salt: seq<byte>, trace: seq<World>, events: seq<Event>, s: Id,
                                            n: nat)
    requires n <= |events| <= |trace| && Enciphers(c, salt, trace, events, s, n)
    ensures SentSoFar(c, salt, trace, events, s, n)
  {
    if n > 0 {
      CiphertextIsSent(c, salt, trace, events, s, n - 1);
      SentStep(c, salt, trace, events, s, n - 1);
    }
  }

  lemma SentIsWirePrefix(c: S.Cipher, salt: seq<byte>, ps: seq<seq<byte>>)
    requires S.AllFit(ps)
    ensures A.SendAll(c, salt, ps).bytes == if ps == [] then [] else A.Wire(c, salt, ps)
    ensures A.SendAll(c, salt, ps).bytes <= A.Wire(c, salt, ps)
  {
    if ps != [] {
      A.SendAllIsWire(c, salt, ps);
    }
  }

  /** From end to end on the way back: in every run without a corrupting event, what was sent to the client, followed
      by what waits to be sent, is the salt and one chunk for every answer of the remote. A client that has received
      any part of what was sent, in any fragments, has decrypted exactly the answers whose chunks have arrived whole. */
  lemma BackToClient(c: S.Cipher, salt: seq<byte>, trace: seq<World>, events: seq<Event>, policy: Policy, s: Id, n: nat,
                     fragments: seq<seq<byte>>)
    returns (k: nat, tail: seq<byte>)
    requires c.Lawful() && |salt| == c.saltLen
    requires IsRun(trace, events, policy) && n <= |events| && s in trace[n].servers
    requires Enciphers(c, salt, trace, events, s, n) && forall i :: 0 <= i < n ==> !CorruptsAt(trace, events, s, i)
    requires NoneEmpty(fragments) && Flatten(fragments) <= trace[n].servers[s].log.downSent
    ensures S.AllFit(Answers(trace, events, s, n)) && k <= |Answers(trace, events, s, n)|
    ensures var sv, answers := trace[n].servers[s], Answers(trace, events, s, n);
            && sv.log.downSent + DownPending(sv) == (if answers == [] then [] else A.Wire(c, salt, answers))
            && !A.Feed(c, fragments).failed && A.Feed(c, fragments).output == Flatten(answers[..k])
            && if |Flatten(fragments)| <= c.saltLen then k == 0
               else S.Cut(c, c.subkey(salt), 0, answers, k, tail)
                    && Flatten(fragments) == A.Wire(c, salt, answers[..k]) + tail
  {
    var sv, answers := trace[n].servers[s], Answers(trace, events, s, n);
    RunAnswers(trace, events, policy, s, n);
    DownExactly(trace, events, policy, s, n);
    CiphertextIsSent(c, salt, trace, events, s, n);
    SentIsWirePrefix(c, salt, answers);
    assert OkAt(trace, s, n);
    assert sv.log.downSent <= sv.log.downSent + DownPending(sv);
    k, tail := Delivered(c, salt, answers, fragments);
  }
}
