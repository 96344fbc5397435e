/**
 Any number of connections and packets share one ping-pong filter. Whatever the interleaving, two of
 them carrying the same salt are both accepted only if at least `entries` additions separate them.
 */
module SaltReplay {
  import opened Bytes
  import opened Bloom
  import opened AeadSpec
  import opened AeadStream
  import PP = PingPongBloom

  /** The method, the filter sizes, and entries = n / 2. */
  datatype Config = Config(cipher: Cipher, params: Params, entries: nat) {
    ghost predicate Valid() {
      cipher.Lawful() && params.bits > 0 && entries > 0
    }
  }

  datatype Peer = Tcp(id: nat) | Packet(number: nat)

  /** A salt accepted from a peer, as the at-th addition to the filter. */
  datatype Accept = Accept(peer: Peer, salt: seq<byte>, at: nat)

  datatype World = World(
    receivers: map<nat, Receiver>,
    packets: nat,
    window: PP.Window<seq<byte>>,
    log: seq<Accept>)
  {
    /** Record a salt accepted from a peer. */
    function Record(entries: nat, peer: Peer, salt: seq<byte>): World {
      this.(window := PP.Next(entries, window, salt), log := log + [Accept(peer, salt, |window.All()|)])
    }

    function ReceiverOf(id: nat): Receiver {
      if id in receivers then receivers[id] else FRESH
    }
  }

  datatype Event =
    | Feed(id: nat, fragment: seq<byte>)   // bytes for a TCP context
    | Datagram(bytes: seq<byte>)           // a UDP packet
    | Emit(salt: seq<byte>)                // one of our own encryptions records its salt

  /** After an error the callers never use a context again. */
  function Kept(receivers: map<nat, Receiver>, id: nat, d: Received): map<nat, Receiver> {
    if d.status.Error? then receivers - {id} else receivers[id := d.next]
  }

  ghost function Step(cfg: Config, w: World, e: Event): World
    requires cfg.Valid()
  {
    match e
    case Feed(id, fragment) =>
      var r := w.ReceiverOf(id);
      var salt := SaltSeen(cfg.cipher, r, fragment);
      var d := Receive(cfg.cipher, r, fragment, PP.Reports(cfg.params, w.window, salt));
      var w' := w.(receivers := Kept(w.receivers, id, d));
      if d.recorded then w'.Record(cfg.entries, Tcp(id), salt) else w'
    case Datagram(bytes) =>
      var salt := if |bytes| < cfg.cipher.saltLen then [] else bytes[..cfg.cipher.saltLen];
      var plain := OpenPacket(cfg.cipher, bytes, PP.Reports(cfg.params, w.window, salt));
      var w' := w.(packets := w.packets + 1);
      if plain.Some? then w'.Record(cfg.entries, Packet(w.packets), salt) else w'
    case Emit(salt) =>
      w.(window := PP.Next(cfg.entries, w.window, salt))
  }

  ghost function Run(cfg: Config, events: seq<Event>): World
    requires cfg.Valid()
  {
    if events == [] then World(map[], 0, PP.Window([], [], []), [])
    else Step(cfg, Run(cfg, events[..|events| - 1]), events[|events| - 1])
  }

  /** Equal salts are far apart in the additions. */
  ghost predicate Apart(entries: nat, log: seq<Accept>) {
    forall i, j :: 0 <= i < j < |log| && log[i].salt == log[j].salt ==> log[j].at - log[i].at > entries
  }

  /** Every acceptance is the addition it says it is. */
  ghost predicate Logged(log: seq<Accept>, all: seq<seq<byte>>) {
    forall i :: 0 <= i < |log| ==> log[i].at < |all| && all[log[i].at] == log[i].salt
  }

  /** A context that has delivered anything has its salt in the log. */
  ghost predicate Accounted(receivers: map<nat, Receiver>, log: seq<Accept>) {
    forall id :: id in receivers && receivers[id].init == 2 ==>
      exists i :: 0 <= i < |log| && log[i].peer == Tcp(id) && log[i].salt == receivers[id].salt
  }

  ghost predicate Inv(cfg: Config, w: World) {
    && w.window.Sized(cfg.entries)
    && Logged(w.log, w.window.All())
    && Apart(cfg.entries, w.log)
    && Accounted(w.receivers, w.log)
  }

  /** Recording a salt the filter does not report keeps equal salts apart. */
  lemma RecordKeeps(cfg: Config, w: World, peer: Peer, salt: seq<byte>)
    requires cfg.Valid()
    requires w.window.Sized(cfg.entries) && Logged(w.log, w.window.All()) && Apart(cfg.entries, w.log)
    requires !PP.Reports(cfg.params, w.window, salt)
    ensures var w' := w.Record(cfg.entries, peer, salt);
            w'.window.Sized(cfg.entries) && Logged(w'.log, w'.window.All()) && Apart(cfg.entries, w'.log)
  {
    var all := w.window.All();
    var log := w.log + [Accept(peer, salt, |all|)];
    assert PP.Next(cfg.entries, w.window, salt).All() == all + [salt];
    forall i, j | 0 <= i < j < |log| && log[i].salt == log[j].salt
      ensures log[j].at - log[i].at > cfg.entries
    {
      if j == |w.log| && |all| - log[i].at <= cfg.entries {
        PP.RecentReported(cfg.params, cfg.entries, w.window, log[i].at);
        assert false;
      }
    }
  }

  lemma AccountedMore(receivers: map<nat, Receiver>, log: seq<Accept>, a: Accept)
    requires Accounted(receivers, log)
    ensures Accounted(receivers, log + [a])
  {
    forall id | id in receivers && receivers[id].init == 2
      ensures exists i :: 0 <= i < |log + [a]| && (log + [a])[i].peer == Tcp(id)
                          && (log + [a])[i].salt == receivers[id].salt
    {
      var i :| 0 <= i < |log| && log[i].peer == Tcp(id) && log[i].salt == receivers[id].salt;
      assert (log + [a])[i] == log[i];
    }
  }

  /** What one call of aead_decrypt can do to the recording state of a context. */
  lemma ReceiveRecords(c: Cipher, r: Receiver, fragment: seq<byte>, reported: bool)
    requires c.Lawful()
    ensures var d := Receive(c, r, fragment, reported);
            && (d.recorded ==> !reported && d.next.init == 2 && d.next.salt == SaltSeen(c, r, fragment))
            && (!d.recorded && d.next.init == 2 ==> r.init != 0 && r.init != 1 && d.next.salt == r.salt)
  {
  }

  lemma StepKeeps(cfg: Config, w: World, e: Event)
    requires cfg.Valid() && Inv(cfg, w)
    requires forall id :: id in w.receivers ==> w.receivers[id].init <= 2
    ensures Inv(cfg, Step(cfg, w, e))
    ensures forall id :: id in Step(cfg, w, e).receivers ==> Step(cfg, w, e).receivers[id].init <= 2
  {
    match e
    case Feed(id, fragment) =>
      FeedKeeps(cfg, w, id, fragment);
    case Datagram(bytes) =>
      var salt := if |bytes| < cfg.cipher.saltLen then [] else bytes[..cfg.cipher.saltLen];
      if !PP.Reports(cfg.params, w.window, salt) {
        RecordKeeps(cfg, w, Packet(w.packets), salt);
        AccountedMore(w.receivers, w.log, Accept(Packet(w.packets), salt, |w.window.All()|));
      }
    case Emit(salt) =>
      assert PP.Next(cfg.entries, w.window, salt).All() == w.window.All() + [salt];
  }

  lemma FeedKeeps(cfg: Config, w: World, id: nat, fragment: seq<byte>)
    requires cfg.Valid() && Inv(cfg, w)
    requires forall id :: id in w.receivers ==> w.receivers[id].init <= 2
    ensures Inv(cfg, Step(cfg, w, Feed(id, fragment)))
    ensures var w' := Step(cfg, w, Feed(id, fragment));
            forall id :: id in w'.receivers ==> w'.receivers[id].init <= 2
  {
    var r := w.ReceiverOf(id);
    var salt := SaltSeen(cfg.cipher, r, fragment);
    var reported := PP.Reports(cfg.params, w.window, salt);
    ReceiveRecords(cfg.cipher, r, fragment, reported);
    var d := Receive(cfg.cipher, r, fragment, reported);
    var receivers := Kept(w.receivers, id, d);
    if d.recorded {
      RecordKeeps(cfg, w, Tcp(id), salt);
      var a := Accept(Tcp(id), salt, |w.window.All()|);
      AccountedMore(w.receivers, w.log, a);
      assert (w.log + [a])[|w.log|] == a;
    } else {
      assert Accounted(receivers, w.log);
    }
  }

  lemma {:induction false} RunKeeps(cfg: Config, events: seq<Event>)
    requires cfg.Valid()
    ensures Inv(cfg, Run(cfg, events))
    ensures forall id :: id in Run(cfg, events).receivers ==> Run(cfg, events).receivers[id].init <= 2
  {
    if events != [] {
      RunKeeps(cfg, events[..|events| - 1]);
      StepKeeps(cfg, Run(cfg, events[..|events| - 1]), events[|events| - 1]);
    }
  }

  /** In every run, two acceptances of the same salt have at least `entries` additions between them. */
  lemma ReplayWindow(cfg: Config, events: seq<Event>, i: nat, j: nat)
    requires cfg.Valid()
    requires i < j < |Run(cfg, events).log|
    requires Run(cfg, events).log[i].salt == Run(cfg, events).log[j].salt
    ensures var w := Run(cfg, events);
            && w.log[i].at < |w.window.All()| && w.window.All()[w.log[i].at] == w.log[i].salt
            && w.log[j].at - w.log[i].at - 1 >= cfg.entries
  {
    RunKeeps(cfg, events);
  }

  lemma BothLogged(cfg: Config, w: World, a: nat, b: nat) returns (i: nat, j: nat)
    requires Inv(cfg, w) && a != b
    requires a in w.receivers && b in w.receivers
    requires w.receivers[a].init == 2 && w.receivers[b].init == 2 && w.receivers[a].salt == w.receivers[b].salt
    ensures i < |w.log| && j < |w.log| && w.log[i].peer == Tcp(a) && w.log[j].peer == Tcp(b)
    ensures w.log[i].at - w.log[j].at > cfg.entries || w.log[j].at - w.log[i].at > cfg.entries
  {
    i :| 0 <= i < |w.log| && w.log[i].peer == Tcp(a) && w.log[i].salt == w.receivers[a].salt;
    j :| 0 <= j < |w.log| && w.log[j].peer == Tcp(b) && w.log[j].salt == w.receivers[b].salt;
    assert i != j;
  }

  /** In every run, two different connections that have both delivered data under the same salt were
      recorded at least `entries` additions apart, even if both passed the first check together. */
  lemma ConnectionReplay(cfg: Config, events: seq<Event>, a: nat, b: nat) returns (i: nat, j: nat)
    requires cfg.Valid() && a != b
    requires var rs := Run(cfg, events).receivers;
             a in rs && b in rs && rs[a].init == 2 && rs[b].init == 2 && rs[a].salt == rs[b].salt
    ensures var log := Run(cfg, events).log;
            && i < |log| && j < |log| && log[i].peer == Tcp(a) && log[j].peer == Tcp(b)
            && (log[i].at - log[j].at > cfg.entries || log[j].at - log[i].at > cfg.entries)
  {
    RunKeeps(cfg, events);
    i, j := BothLogged(cfg, Run(cfg, events), a, b);
  }

  // ---------- packets ----------

  function PacketSalt(cfg: Config, bytes: seq<byte>): seq<byte> {
    if |bytes| < cfg.cipher.saltLen then [] else bytes[..cfg.cipher.saltLen]
  }

  /** A packet that opens, and whose salt neither filter reports. */
  ghost predicate Fresh(cfg: Config, w: World, bytes: seq<byte>)
    requires cfg.Valid()
  {
    OpenPacket(cfg.cipher, bytes, false).Some? && !PP.Reports(cfg.params, w.window, PacketSalt(cfg, bytes))
  }

  /** A packet is accepted exactly if it is fresh, and then its salt is the next addition; otherwise nothing is
      added. */
  lemma DatagramRecorded(cfg: Config, w: World, bytes: seq<byte>)
    requires cfg.Valid()
    ensures var w', salt := Step(cfg, w, Datagram(bytes)), PacketSalt(cfg, bytes);
            if Fresh(cfg, w, bytes) then
              && w'.window.All() == w.window.All() + [salt]
              && w'.log == w.log + [Accept(Packet(w.packets), salt, |w.window.All()|)]
            else w'.window == w.window && w'.log == w.log
  {
  }

  lemma StepLogGrows(cfg: Config, w: World, e: Event)
    requires cfg.Valid()
    ensures w.log <= Step(cfg, w, e).log
  {
  }

  lemma PrefixVia<T>(a: seq<T>, b: seq<T>, c: seq<T>)
    requires a <= b && b <= c
    ensures a <= c
  {
  }

  lemma {:induction false} LogGrows(cfg: Config, events: seq<Event>, i: nat)
    requires cfg.Valid() && i <= |events|
    ensures Run(cfg, events[..i]).log <= Run(cfg, events).log
  {
    if i == |events| {
      assert events[..i] == events;
    } else {
      var before := events[..|events| - 1];
      LogGrows(cfg, before, i);
      assert before[..i] == events[..i];
      var w := Run(cfg, before);
      StepLogGrows(cfg, w, events[|events| - 1]);
      PrefixVia(Run(cfg, events[..i]).log, w.log, Run(cfg, events).log);
    }
  }

  lemma RunNext(cfg: Config, events: seq<Event>, i: nat) returns (w: World)
    requires cfg.Valid() && i < |events|
    ensures w == Run(cfg, events[..i]) && Run(cfg, events[..i + 1]) == Step(cfg, w, events[i])
  {
    w := Run(cfg, events[..i]);
    assert events[..i + 1][..i] == events[..i];
  }

  /** The log after an accepted packet. */
  lemma PacketLogged(cfg: Config, events: seq<Event>, i: nat) returns (w: World, log: seq<Accept>)
    requires cfg.Valid() && i < |events| && events[i].Datagram?
    requires Fresh(cfg, Run(cfg, events[..i]), events[i].bytes)
    ensures w == Run(cfg, events[..i]) && log == Run(cfg, events[..i + 1]).log
    ensures log == w.log + [Accept(Packet(w.packets), PacketSalt(cfg, events[i].bytes), |w.window.All()|)]
  {
    w := RunNext(cfg, events, i);
    DatagramRecorded(cfg, w, events[i].bytes);
    log := Run(cfg, events[..i + 1]).log;
  }

  lemma ApartAt(entries: nat, log: seq<Accept>, a: seq<Accept>, b: seq<Accept>, x: Accept, y: Accept)
    requires Apart(entries, log) && a + [x] <= b && log == b + [y] && x.salt == y.salt
    ensures y.at - x.at > entries
  {
    assert log[|a|] == (a + [x])[|a|] == x && log[|b|] == y;
  }

  /** In every run, two packets with the same salt that are both accepted have at least `entries` additions between
      them; so a copy of a packet that comes sooner is not accepted. */
  lemma DatagramReplay(cfg: Config, events: seq<Event>, i: nat, j: nat)
    requires cfg.Valid() && i < j < |events| && events[i].Datagram? && events[j].Datagram?
    requires PacketSalt(cfg, events[i].bytes) == PacketSalt(cfg, events[j].bytes)
    requires Fresh(cfg, Run(cfg, events[..i]), events[i].bytes) && Fresh(cfg, Run(cfg, events[..j]), events[j].bytes)
    ensures |Run(cfg, events[..j]).window.All()| - |Run(cfg, events[..i]).window.All()| > cfg.entries
  {
    var salt := PacketSalt(cfg, events[i].bytes);
    var v, before := PacketLogged(cfg, events, i);
    var w, log := PacketLogged(cfg, events, j);
    LogGrows(cfg, events[..j], i + 1);
    assert events[..j][..i + 1] == events[..i + 1];
    RunKeeps(cfg, events[..j + 1]);
    ApartAt(cfg.entries, log, v.log, w.log, Accept(Packet(v.packets), salt, |v.window.All()|),
            Accept(Packet(w.packets), salt, |w.window.All()|));
  }
}
