/**
 One connection of the TCP relay, on values: a server object (the client's side) and the remote object
 it is paired with, and what the callbacks of src/server.c do to them. Each watcher is on or off; what recv, send,
 connect and the cipher return comes from outside.
 */
module RelaySpec {
  import opened Bytes

  /** Objects are named by numbers, as pointers are; 0 is NULL. */
  type Id = nat
  const NULL: Id := 0

  datatype Stage = Init | Resolve | Stream | Stop

  /** buffer_t: the bytes to be sent are data[idx..idx + len]. */
  datatype Buf = Buf(data: seq<byte>, idx: nat, len: nat)

  const EMPTY := Buf([], 0, 0)

  predicate Fits(b: Buf) {
    b.idx + b.len <= |b.data|
  }

  function Slice(b: Buf): seq<byte> {
    if Fits(b) then b.data[b.idx..b.idx + b.len] else []
  }

  /** recv writes over the front of a buffer. */
  function Overwrite(b: Buf, raw: seq<byte>): Buf {
    b.(data := raw + if |raw| <= |b.data| then b.data[|raw|..] else [])
  }

  /** What has passed through a connection, which the source does not keep: the client's payload after the header and
      how much of it was sent on, and the encrypted bytes for the client and how much of them was sent. */
  datatype Log = Log(up: seq<byte>, upSent: seq<byte>, down: seq<byte>, downSent: seq<byte>)

  datatype Server = Server(stage: Stage, buf: Buf, recvOn: bool, sendOn: bool, remote: Id, query: Id, log: Log)

  datatype Remote = Remote(buf: Buf, recvOn: bool, sendOn: bool, connected: bool, server: Id)

  datatype Decrypted = Bad | More | Plain(p: seq<byte>)

  datatype Input = Eof | NoData | Broken | Data(raw: seq<byte>, d: Decrypted)

  datatype Sent = Sent(n: nat) | Again | Fail

  /** connect_to_remote; with fast open, n bytes have already been sent. */
  datatype Connect = Refused | Opened(n: nat)

  /** What becomes of a pair. */
  datatype Pair = Both(sv: Server, rm: Remote) | Closed

  // ---------- toward the remote ----------

  /** server_recv_cb in STAGE_STREAM once p is decrypted: it is sent from the front of the remote's buffer. */
  function StreamUp(sv: Server, rm: Remote, p: seq<byte>, sent: Sent): Pair {
    var sv := sv.(log := sv.log.(up := sv.log.up + p));
    var buf := Buf(p, rm.buf.idx, |p|);
    match sent
    case Fail => Closed
    case Again => Both(sv.(recvOn := false), rm.(buf := buf.(idx := 0), sendOn := true))
    case Sent(n) =>
      if n < |p| then
        Both(sv.(recvOn := false, log := sv.log.(upSent := sv.log.upSent + p[..n])),
             rm.(buf := buf.(len := |p| - n, idx := n), sendOn := true))
      else
        Both(sv.(log := sv.log.(upSent := sv.log.upSent + p)), rm.(buf := buf))
  }

  /** server_recv_cb in STAGE_STREAM: a decryption error stops the server, an incomplete chunk only fills the
      remote's buffer. */
  function Streamed(sv: Server, rm: Remote, raw: seq<byte>, d: Decrypted, sent: Sent): Pair {
    match d
    case Bad => Both(sv.(stage := Stop), rm.(buf := Buf(raw, rm.buf.idx, |raw|)))
    case More => Both(sv, rm.(buf := Buf(raw, rm.buf.idx, |raw|)))
    case Plain(p) => StreamUp(sv, rm, p, sent)
  }

  /** remote_send_cb: peer says whether getpeername succeeds when the connection was not known to be made. */
  function FlushUp(sv: Server, rm: Remote, peer: bool, sent: Sent): Pair {
    if !rm.connected && !peer then Closed
    else if !rm.connected && rm.buf.len == 0 then
      Both(sv.(stage := Stream, recvOn := true), rm.(connected := true, sendOn := false, recvOn := true))
    else
      SendUp(sv, rm.(connected := true), sent)
  }

  /** The second half of remote_send_cb. */
  function SendUp(sv: Server, rm: Remote, sent: Sent): Pair {
    if rm.buf.len == 0 then Closed
    else match sent
      case Fail => Closed
      case Again => Both(sv, rm)
      case Sent(n) =>
        if n < rm.buf.len then
          Both(sv.(log := sv.log.(upSent := sv.log.upSent + Take(rm.buf, n))),
               rm.(buf := rm.buf.(len := rm.buf.len - n, idx := rm.buf.idx + n)))
        else
          Both(sv.(stage := Stream, recvOn := true, log := sv.log.(upSent := sv.log.upSent + Slice(rm.buf))),
               rm.(buf := rm.buf.(len := 0, idx := 0), sendOn := false,
                   recvOn := if sv.stage == Stream then rm.recvOn else true))
  }

  /** The first n bytes to be sent. */
  function Take(b: Buf, n: nat): seq<byte> {
    if Fits(b) && n <= b.len then b.data[b.idx..b.idx + n] else []
  }

  // ---------- toward the client ----------

  /** remote_recv_cb once c is encrypted: it is sent from the front of the server's buffer. */
  function StreamDown(sv: Server, rm: Remote, c: seq<byte>, sent: Sent): Pair {
    var sv := sv.(log := sv.log.(down := sv.log.down + c));
    var buf := Buf(c, sv.buf.idx, |c|);
    match sent
    case Fail => Closed
    case Again => Both(sv.(buf := buf.(idx := 0), sendOn := true), rm.(recvOn := false))
    case Sent(n) =>
      if n < |c| then
        Both(sv.(buf := buf.(len := |c| - n, idx := n), sendOn := true,
          log := sv.log.(downSent := sv.log.downSent + c[..n])),
             rm.(recvOn := false))
      else
        Both(sv.(buf := buf, log := sv.log.(downSent := sv.log.downSent + c)), rm)
  }

  /** server_send_cb */
  function FlushDown(sv: Server, rm: Remote, sent: Sent): Pair {
    if sv.buf.len == 0 then Closed
    else match sent
      case Fail => Closed
      case Again => Both(sv, rm)
      case Sent(n) =>
        if n < sv.buf.len then
          Both(sv.(buf := sv.buf.(len := sv.buf.len - n, idx := sv.buf.idx + n),
                   log := sv.log.(downSent := sv.log.downSent + Take(sv.buf, n))), rm)
        else
          Both(sv.(buf := sv.buf.(len := 0, idx := 0), sendOn := false,
            log := sv.log.(downSent := sv.log.downSent + Slice(sv.buf))),
               rm.(recvOn := true))
  }

  // ---------- the start of a connection ----------

  /** The server's buffer after the header is read. */
  function AfterHeader(sv: Server, p: seq<byte>, offset: nat): Server
    requires offset <= |p|
  {
    sv.(buf := Buf(p, offset, |p| - offset), recvOn := false, log := sv.log.(up := p[offset..]))
  }

  /** Linking a new remote: what the server's buffer still holds moves to it. */
  function Attach(sv: Server, s: Id, r: Id, n: nat): Pair {
    var n := if n <= sv.buf.len then n else sv.buf.len;
    var buf := sv.buf.(idx := sv.buf.idx + n, len := sv.buf.len - n);
    var sv := sv.(remote := r, log := sv.log.(upSent := sv.log.upSent + Take(sv.buf, n)));
    if buf.len > 0 then
      Both(sv.(buf := buf.(idx := 0, len := 0)), Remote(Buf(Slice(buf), 0, buf.len), false, true, false, s))
    else
      Both(sv.(buf := buf), Remote(EMPTY, false, true, false, s))
  }

  // ---------- invariants ----------

  /** What a direction still has to send. */
  function UpPending(rm: Remote): seq<byte> {
    if rm.sendOn then Slice(rm.buf) else []
  }

  function DownPending(sv: Server): seq<byte> {
    if sv.sendOn then Slice(sv.buf) else []
  }

  /** The watchers of a pair agree with its stage. */
  predicate Watched(sv: Server, rm: Remote) {
    match sv.stage
    case Stream => rm.connected && sv.recvOn == !rm.sendOn && rm.recvOn == !sv.sendOn
    case Stop => rm.connected && sv.recvOn && !rm.sendOn && rm.recvOn == !sv.sendOn
    case _ => !sv.recvOn && !sv.sendOn && rm.sendOn && !rm.recvOn && sv.log.down == [] && sv.log.downSent == []
  }

  predicate Buffered(sv: Server, rm: Remote) {
    && (rm.sendOn ==> Fits(rm.buf) && (rm.connected ==> rm.buf.len > 0))
    && (sv.sendOn ==> Fits(sv.buf) && sv.buf.len > 0)
  }

  /** Nothing is lost, repeated or reordered on the way to the remote. */
  predicate UpFifo(sv: Server, rm: Remote) {
    sv.log.upSent + UpPending(rm) == sv.log.up
  }

  /** The same toward the client, until the server stops. */
  predicate DownFifo(sv: Server) {
    sv.stage != Stop ==> sv.log.downSent + DownPending(sv) == sv.log.down
  }

  predicate PairOk(sv: Server, rm: Remote) {
    sv.query == NULL && Watched(sv, rm) && Buffered(sv, rm) && UpFifo(sv, rm) && DownFifo(sv)
  }

  /** A server without a remote. */
  predicate AloneOk(sv: Server) {
    && !sv.sendOn && sv.log.upSent == [] && sv.log.down == [] && sv.log.downSent == []
    && match sv.stage
       case Init => sv.recvOn && sv.query == NULL && sv.log.up == []
       case Resolve => !sv.recvOn && sv.query != NULL && Fits(sv.buf) && Slice(sv.buf) == sv.log.up
       case Stop => sv.recvOn && sv.query == NULL
       case Stream => false
  }

  /** The pair is closed, or sound and linked as before. */
  predicate Good(pair: Pair, sv: Server, rm: Remote) {
    pair.Both? ==>
      PairOk(pair.sv, pair.rm) && pair.sv.remote == sv.remote && pair.sv.query == sv.query &&
        pair.rm.server == rm.server
  }

  /** Sending the first n bytes of a buffer moves them from what is pending to what is sent. */
  lemma PartSent(done: seq<byte>, b: Buf, n: nat, all: seq<byte>)
    requires Fits(b) && n <= b.len && done + Slice(b) == all
    ensures done + Take(b, n) + Slice(b.(len := b.len - n, idx := b.idx + n)) == all
    ensures Take(b, b.len) == Slice(b)
  {
    var rest := b.(len := b.len - n, idx := b.idx + n);
    assert Slice(b) == Take(b, n) + Slice(rest);
  }

  /** The same for bytes that have just arrived, with nothing pending before them. */
  lemma PartNew(done: seq<byte>, c: seq<byte>, n: nat)
    requires n <= |c|
    ensures done + c[..n] + Slice(Buf(c, n, |c| - n)) == done + c
    ensures Slice(Buf(c, 0, |c|)) == c
  {
    assert c == c[..n] + c[n..];
  }

  lemma StreamUpKeeps(sv: Server, rm: Remote, p: seq<byte>, sent: Sent)
    requires PairOk(sv, rm) && sv.stage == Stream && sv.recvOn && |p| > 0
    ensures Good(StreamUp(sv, rm, p, sent), sv, rm)
  {
    assert sv.log.upSent == sv.log.up;
    PartNew(sv.log.up, p, if sent.Sent? && sent.n < |p| then sent.n else 0);
  }

  lemma SendUpPart(sv: Server, rm: Remote, n: nat)
    requires PairOk(sv, rm) && rm.sendOn && rm.connected && n < rm.buf.len
    ensures Good(SendUp(sv, rm, Sent(n)), sv, rm)
  {
    PartSent(sv.log.upSent, rm.buf, n, sv.log.up);
    var pair := SendUp(sv, rm, Sent(n));
    assert UpFifo(pair.sv, pair.rm) && Buffered(pair.sv, pair.rm) && Watched(pair.sv, pair.rm);
  }

  lemma SendUpAll(sv: Server, rm: Remote, n: nat)
    requires PairOk(sv, rm) && rm.sendOn && rm.connected && n >= rm.buf.len
    ensures Good(SendUp(sv, rm, Sent(n)), sv, rm)
  {
    assert sv.log.upSent + Slice(rm.buf) + [] == sv.log.up;
  }

  lemma SendUpKeeps(sv: Server, rm: Remote, sent: Sent)
    requires PairOk(sv, rm) && rm.sendOn && rm.connected
    ensures Good(SendUp(sv, rm, sent), sv, rm)
  {
    match sent
    case Sent(n) =>
      if n < rm.buf.len {
        SendUpPart(sv, rm, n);
      } else {
        SendUpAll(sv, rm, n);
      }
    case _ =>
  }

  lemma FlushUpKeeps(sv: Server, rm: Remote, peer: bool, sent: Sent)
    requires PairOk(sv, rm) && rm.sendOn
    ensures Good(FlushUp(sv, rm, peer, sent), sv, rm)
  {
    if rm.buf.len == 0 {
      assert Slice(rm.buf) == [] && sv.log.upSent == sv.log.up;
    } else {
      SendUpKeeps(sv, rm.(connected := true), sent);
    }
  }

  lemma StreamDownKeeps(sv: Server, rm: Remote, c: seq<byte>, sent: Sent)
    requires PairOk(sv, rm) && sv.stage == Stream && rm.recvOn && |c| > 0
    ensures Good(StreamDown(sv, rm, c, sent), sv, rm)
  {
    assert sv.log.downSent == sv.log.down;
    PartNew(sv.log.down, c, if sent.Sent? && sent.n < |c| then sent.n else 0);
  }

  lemma FlushDownPart(sv: Server, rm: Remote, n: nat)
    requires PairOk(sv, rm) && sv.sendOn && n < sv.buf.len
    ensures Good(FlushDown(sv, rm, Sent(n)), sv, rm)
  {
    if sv.stage != Stop {
      PartSent(sv.log.downSent, sv.buf, n, sv.log.down);
    }
  }

  lemma FlushDownAll(sv: Server, rm: Remote, n: nat)
    requires PairOk(sv, rm) && sv.sendOn && n >= sv.buf.len
    ensures Good(FlushDown(sv, rm, Sent(n)), sv, rm)
  {
    if sv.stage != Stop {
      assert sv.log.downSent + Slice(sv.buf) + [] == sv.log.down;
    }
  }

  lemma FlushDownKeeps(sv: Server, rm: Remote, sent: Sent)
    requires PairOk(sv, rm) && sv.sendOn
    ensures Good(FlushDown(sv, rm, sent), sv, rm)
  {
    match sent
    case Sent(n) =>
      if n < sv.buf.len {
        FlushDownPart(sv, rm, n);
      } else {
        FlushDownAll(sv, rm, n);
      }
    case _ =>
  }

  /** A server that waits for a remote: its buffer holds the whole payload so far. */
  predicate Waits(sv: Server) {
    && !sv.recvOn && !sv.sendOn && sv.query == NULL && (sv.stage == Init || sv.stage == Resolve)
    && Fits(sv.buf) && Slice(sv.buf) == sv.log.up && sv.log.upSent == [] && sv.log.down == [] && sv.log.downSent == []
  }

  lemma AfterHeaderWaits(sv: Server, p: seq<byte>, offset: nat)
    requires AloneOk(sv) && sv.stage == Init && offset <= |p|
    ensures Waits(AfterHeader(sv, p, offset))
  {
  }

  lemma SliceMoved(b: Buf)
    requires Fits(b)
    ensures Slice(Buf(Slice(b), 0, b.len)) == Slice(b) && (b.len == 0 ==> Slice(b) == Slice(EMPTY))
  {
  }

  lemma AttachKeeps(sv: Server, s: Id, r: Id, n: nat)
    requires Waits(sv)
    ensures var pair := Attach(sv, s, r, n);
            pair.Both? && PairOk(pair.sv, pair.rm) && pair.sv.remote == r && pair.sv.query == NULL &&
              pair.rm.server == s
  {
    var m := if n <= sv.buf.len then n else sv.buf.len;
    PartSent(sv.log.upSent, sv.buf, m, sv.log.up);
    var buf := sv.buf.(idx := sv.buf.idx + m, len := sv.buf.len - m);
    SliceMoved(buf);
    var pair := Attach(sv, s, r, n);
    assert UpPending(pair.rm) == Slice(buf);
  }
}
