/**
 The per-port address lock of src/ip_lock.c together with the accept and close paths of
 src/server.c: which peers may be connected at the same time.
 */
module IpLock {

  const INET6_ADDRSTRLEN := 46

  /** The lock file as stat and fopen see it. Other processes may change it at any time. */
  datatype LockFile = Absent | Present(text: string, mtime: int)

  // ---------- the file's text ----------

  /** fgets of at most n characters: up to and including the first newline. */
  function FirstLine(text: string, n: nat): string {
    if n == 0 || text == "" then ""
    else if text[0] == '\n' then "\n"
    else [text[0]] + FirstLine(text[1..], n - 1)
  }

  function Trimmed(s: string): string {
    if s != "" && s[|s| - 1] in "\n\r " then Trimmed(s[..|s| - 1]) else s
  }

  /** The first n characters of a text, up to and including the first newline. */
  lemma {:induction false} FirstLineExactly(text: string, n: nat)
    ensures var line := FirstLine(text, n);
            && |line| <= n && line <= text && (forall i :: 0 <= i < |line| - 1 ==> line[i] != '\n')
            && (|line| < n && |line| < |text| ==> |line| > 0 && line[|line| - 1] == '\n')
  {
    if n > 0 && text != "" && text[0] != '\n' {
      FirstLineExactly(text[1..], n - 1);
    }
  }

  /** What is cut off at the end is white space, and none is left there. */
  lemma {:induction false} TrimmedExactly(s: string)
    ensures var t := Trimmed(s);
            && t <= s && (forall i :: |t| <= i < |s| ==> s[i] in "\n\r ") && (t != "" ==> t[|t| - 1] !in "\n\r ")
  {
    if s != "" && s[|s| - 1] in "\n\r " {
      TrimmedExactly(s[..|s| - 1]);
    }
  }

  /** The address a lock file holds. */
  function ReadLock(text: string): string {
    Trimmed(FirstLine(text, INET6_ADDRSTRLEN - 1))
  }

  /** A textual address: short enough for the buffers, no white space. */
  predicate IsAddress(ip: string) {
    0 < |ip| < INET6_ADDRSTRLEN && forall i :: 0 <= i < |ip| ==> ip[i] !in "\n\r "
  }

  lemma {:induction false} FirstLineOf(ip: string, n: nat)
    requires |ip| <= n && forall i :: 0 <= i < |ip| ==> ip[i] != '\n'
    ensures FirstLine(ip + "\n", n) == ip || FirstLine(ip + "\n", n) == ip + "\n"
    decreases |ip|
  {
    if ip == "" {
      assert ip + "\n" == "\n";
    } else {
      assert (ip + "\n")[1..] == ip[1..] + "\n";
      FirstLineOf(ip[1..], n - 1);
      assert [ip[0]] + (ip[1..] + "\n") == ip + "\n";
      assert [ip[0]] + ip[1..] == ip;
    }
  }

  /** What is written is what is read back. */
  lemma LockFileRoundTrip(ip: string)
    requires IsAddress(ip)
    ensures ReadLock(ip + "\n") == ip
  {
    FirstLineOf(ip, INET6_ADDRSTRLEN - 1);
    assert (ip + "\n")[..|ip|] == ip;
    assert Trimmed(ip) == ip;
  }

  // ---------- the lock ----------

  /** The process state and the lock file. `changes` counts the reloads that changed the lock. */
  datatype Lock = Lock(locked: string, mtime: int, file: LockFile, connections: seq<string>, changes: nat)

  /** ip_lock_reload; `readable` says whether fopen succeeds. */
  function Reloaded(l: Lock, readable: bool): Lock {
    match l.file
    case Absent => Relocked(l, "").(mtime := 0)
    case Present(text, mtime) =>
      if mtime == l.mtime then l
      else Relocked(l, if readable then ReadLock(text) else "").(mtime := mtime)
  }

  function Relocked(l: Lock, ip: string): Lock {
    l.(locked := ip, changes := if ip == l.locked then l.changes else l.changes + 1)
  }

  /** What became of writing the lock file: not opened; written, its new time not learned; written. */
  datatype Written = Failed | Unnoted(time: int) | At(time: int)

  /** ip_lock_set */
  function WithLock(l: Lock, ip: string, written: Written): Lock {
    if ip == "" then l
    else
      match written
      case Failed => l.(locked := ip)
      case Unnoted(t) => l.(locked := ip, file := Present(ip + "\n", t))
      case At(t) => l.(locked := ip, file := Present(ip + "\n", t), mtime := t)
  }

  /** How many of the first n connections come from ip. */
  function CountAmong(connections: seq<string>, n: nat, ip: string): (count: nat)
    requires n <= |connections|
    ensures count == 0 <==> forall i :: 0 <= i < n ==> connections[i] != ip
  {
    if n == 0 then 0 else CountAmong(connections, n - 1, ip) + if connections[n - 1] == ip then 1 else 0
  }

  /** count_connections_for_ip */
  function CountFor(connections: seq<string>, ip: string): nat {
    if ip == "" then 0 else CountAmong(connections, |connections|, ip)
  }

  /** check_ip_lock_allowed, with the lock enabled. */
  function Checked(l: Lock, peer: string, readable: bool, written: Written): (Lock, bool) {
    if peer == "" then (l, true)
    else
      var r := Reloaded(l, readable);
      if r.locked == "" then (WithLock(r, peer, written), true)
      else if peer == r.locked then (r, true)
      else if CountFor(r.connections, r.locked) > 0 then (r, false)
      else (WithLock(r, peer, written), true)
  }

  datatype Event =
    | Accept(peer: string, readable: bool, written: Written)  // accept_cb; no peer name is ""
    | Close(index: nat)                                       // close_and_free_server
    | Outside(file: LockFile)                                 // another process changes the lock file

  function Step(l: Lock, e: Event): Lock {
    match e
    case Accept(peer, readable, written) =>
      var (l', allowed) := Checked(l, peer, readable, written);
      if allowed then l'.(connections := l'.connections + [peer]) else l'
    case Close(i) =>
      if i < |l.connections| then l.(connections := l.connections[..i] + l.connections[i + 1..]) else l
    case Outside(file) => l.(file := file)
  }

  /** ip_lock_init: the lock starts as the file says. */
  function Initial(file: LockFile, readable: bool): Lock {
    Reloaded(Lock("", 0, file, [], 0), readable).(changes := 0)
  }

  function Run(start: Lock, events: seq<Event>, n: nat): Lock
    requires n <= |events|
  {
    if n == 0 then start else Step(Run(start, events, n - 1), events[n - 1])
  }

  /** The named peers connected that are not the locked one. */
  function Others(l: Lock): set<string> {
    set c | c in l.connections && c != "" && c != l.locked
  }

  ghost predicate Inv(l: Lock) {
    |Others(l)| <= l.changes
  }

  lemma SubsetSize<T>(a: set<T>, b: set<T>)
    requires a <= b
    ensures |a| <= |b|
  {
    if a != {} {
      var x :| x in a;
      SubsetSize(a - {x}, b - {x});
    }
  }

  lemma ReloadKeeps(l: Lock, readable: bool)
    requires Inv(l)
    ensures Inv(Reloaded(l, readable))
  {
    var r := Reloaded(l, readable);
    SubsetSize(Others(r), Others(l) + {l.locked});
    if r.locked == l.locked {
      assert Others(r) == Others(l);
    }
  }

  /** Taking the lock over for a peer, when the locked one has no connection, adds no other peer. */
  lemma TakeOverKeeps(l: Lock, peer: string, written: Written)
    requires Inv(l) && (l.locked == "" || CountFor(l.connections, l.locked) == 0)
    ensures Inv(WithLock(l, peer, written))
  {
    SubsetSize(Others(WithLock(l, peer, written)), Others(l));
  }

  lemma AdmitKeeps(l: Lock, peer: string)
    requires Inv(l) && (peer == "" || peer == l.locked)
    ensures Inv(l.(connections := l.connections + [peer]))
  {
    assert Others(l.(connections := l.connections + [peer])) == Others(l);
  }

  lemma StepKeeps(l: Lock, e: Event)
    requires Inv(l)
    ensures Inv(Step(l, e))
  {
    match e
    case Accept(peer, readable, written) =>
      var (l', allowed) := Checked(l, peer, readable, written);
      var r := Reloaded(l, readable);
      if peer != "" {
        ReloadKeeps(l, readable);
        if r.locked == "" || CountFor(r.connections, r.locked) == 0 {
          TakeOverKeeps(r, peer, written);
        }
      }
      if allowed {
        AdmitKeeps(l', peer);
      }
    case Close(i) =>
      SubsetSize(Others(Step(l, e)), Others(l));
    case Outside(_) =>
      assert Others(Step(l, e)) == Others(l);
  }

  /** In every reachable state the number of distinct named peers connected, other than the locked
      one, is at most the number of reloads that changed the lock. */
  lemma {:induction false} OthersBounded(file: LockFile, readable: bool, events: seq<Event>, n: nat)
    requires n <= |events|
    ensures Inv(Run(Initial(file, readable), events, n))
  {
    if n == 0 {
      assert Others(Initial(file, readable)) == {};
    } else {
      OthersBounded(file, readable, events, n - 1);
      StepKeeps(Run(Initial(file, readable), events, n - 1), events[n - 1]);
    }
  }

  // ---------- who gets in ----------

  /** The address that holds the lock when a peer is checked: that of the file, if it can be told to have changed. */
  function Holder(l: Lock, readable: bool): string {
    if l.file.Absent? then ""
    else if l.file.mtime == l.mtime then l.locked
    else if readable then Trimmed(FirstLine(l.file.text, 45))
    else ""
  }

  /** A peer gets in exactly when it has no name, or the lock is free, its own, or held by an address without
      a connection. It has the lock then, and the file has its address unless it had the lock before, or the file cannot
      be written. Otherwise only the lock is reloaded. */
  lemma AdmittedExactly(l: Lock, peer: string, readable: bool, written: Written)
    ensures var l', h := Step(l, Accept(peer, readable, written)), Holder(l, readable);
            && l'.connections == l.connections +
               (if peer == "" || h == "" || h == peer || h !in l.connections then [peer] else [])
            && l'.locked == (if peer == "" then l.locked else if h == "" || h !in l.connections then peer else h)
            && l'.file == (if peer == "" || h == peer || (h != "" && h in l.connections) || written.Failed? then l.file
                           else Present(peer + "\n", written.time))
  {
    var r := Reloaded(l, readable);
    assert r.locked == Holder(l, readable) && r.connections == l.connections && r.file == l.file;
    if r.locked != "" {
      assert CountFor(l.connections, r.locked) == CountAmong(l.connections, |l.connections|, r.locked);
    }
  }

  /** A connection that closes goes once, and the rest stays as it is. */
  lemma ClosedExactly(l: Lock, i: nat)
    ensures var l' := Step(l, Close(i));
            && (i < |l.connections| ==>
              multiset(l.connections) == multiset(l'.connections) + multiset{l.connections[i]})
            && l == l'.(connections := l.connections) && (i >= |l.connections| ==> l' == l)
  {
    if i < |l.connections| {
      assert l.connections == l.connections[..i] + [l.connections[i]] + l.connections[i + 1..];
    }
  }

  // ---------- when a second address gets in ----------

  /** The peer of an accept, while the locked address is connected, is another one, and the reload that comes first
      gives the lock up. */
  predicate LetsIn(l: Lock, e: Event) {
    && e.Accept? && e.peer != "" && e.peer != l.locked && l.locked != "" && l.locked in l.connections
    && Reloaded(l, e.readable).locked != l.locked
  }

  lemma OnlyLocked(l: Lock, i: nat)
    requires Others(l) == {} && i < |l.connections|
    ensures l.connections[i] == "" || l.connections[i] == l.locked
  {
    assert l.connections[i] !in Others(l);
  }

  /** While all named peers have the locked address, an event ends that if and only if it lets another in this way. */
  lemma StepExact(l: Lock, e: Event)
    requires Others(l) == {}
    ensures Others(Step(l, e)) == {} <==> !LetsIn(l, e)
  {
    forall i | 0 <= i < |l.connections|
      ensures l.connections[i] == "" || l.connections[i] == l.locked
    {
      OnlyLocked(l, i);
    }
    if LetsIn(l, e) {
      LetInIsOther(l, e);
    } else if e.Accept? {
      AcceptExact(l, e);
    }
  }

  lemma LetInIsOther(l: Lock, e: Event)
    requires LetsIn(l, e) && forall i :: 0 <= i < |l.connections| ==>
             l.connections[i] == "" || l.connections[i] == l.locked
    ensures l.locked in Others(Step(l, e))
  {
    var r := Reloaded(l, e.readable);
    var i :| 0 <= i < |l.connections| && l.connections[i] == l.locked;
    assert r.connections == l.connections;
    var after := Step(l, e);
    assert after.connections == l.connections + [e.peer] && after.locked == e.peer;
    assert after.connections[i] == l.locked;
  }

  lemma AcceptExact(l: Lock, e: Event)
    requires e.Accept? && !LetsIn(l, e)
    requires forall i :: 0 <= i < |l.connections| ==> l.connections[i] == "" || l.connections[i] == l.locked
    ensures Others(Step(l, e)) == {}
  {
    var r, after := Reloaded(l, e.readable), Step(l, e);
    forall c | c in after.connections
      ensures c == "" || c == after.locked
    {
      assert c in l.connections || c == e.peer;
    }
  }

  /** The states that a run of events goes through. */
  ghost predicate IsTrace(trace: seq<Lock>, events: seq<Event>) {
    |trace| == |events| + 1 && forall i :: 0 <= i < |events| ==> trace[i + 1] == Step(trace[i], events[i])
  }

  /** Over a whole run: all named peers connected have the locked address at every moment if and only if no accept
      happens in such a state. */
  lemma {:induction false} OneAddressExactly(trace: seq<Lock>, events: seq<Event>, n: nat)
    requires IsTrace(trace, events) && n <= |events| && Others(trace[0]) == {}
    ensures (forall i :: 0 <= i <= n ==> Others(trace[i]) == {}) <==>
            (forall i :: 0 <= i < n ==> !LetsIn(trace[i], events[i]))
  {
    if n > 0 {
      OneAddressExactly(trace, events, n - 1);
      assert trace[n - 1 + 1] == Step(trace[n - 1], events[n - 1]);
      if Others(trace[n - 1]) == {} {
        StepExact(trace[n - 1], events[n - 1]);
      }
    }
  }

  // ---------- without outside changes ----------

  /** A reload now would not change the lock. */
  predicate Quiet(l: Lock, readable: bool) {
    match l.file
    case Absent => l.locked == ""
    case Present(text, mtime) => mtime == l.mtime || l.locked == if readable then ReadLock(text) else ""
  }

  /** A reload changes the lock exactly when the file is not quiet; in particular a change that leaves the
      modification time alone goes unseen, and a file that cannot be read gives the lock up. */
  lemma ReloadChanges(l: Lock, readable: bool)
    ensures Reloaded(l, readable).locked != l.locked <==> !Quiet(l, readable)
    ensures Reloaded(l, readable).changes == l.changes + if Quiet(l, readable) then 0 else 1
    ensures Quiet(Reloaded(l, readable), readable)
  {
  }

  /** An event of this process whose file accesses succeed. */
  predicate Undisturbed(e: Event) {
    match e
    case Accept(peer, readable, written) => (peer == "" || IsAddress(peer)) && readable && !written.Failed?
    case Close(_) => true
    case Outside(_) => false
  }

  lemma QuietStep(l: Lock, e: Event)
    requires Quiet(l, true) && Undisturbed(e)
    ensures Quiet(Step(l, e), true) && Step(l, e).changes == l.changes
  {
    if e.Accept? && e.peer != "" {
      LockFileRoundTrip(e.peer);
    }
  }

  lemma {:induction false} QuietRun(file: LockFile, events: seq<Event>, n: nat)
    requires n <= |events| && forall i :: 0 <= i < |events| ==> Undisturbed(events[i])
    ensures Quiet(Run(Initial(file, true), events, n), true)
    ensures Run(Initial(file, true), events, n).changes == 0
  {
    if n > 0 {
      QuietRun(file, events, n - 1);
      QuietStep(Run(Initial(file, true), events, n - 1), events[n - 1]);
    }
  }

  /** With no outside change, all named peers connected at the same time share one address, the
      locked one. */
  lemma OneAddress(file: LockFile, events: seq<Event>, n: nat, i: nat)
    requires n <= |events| && forall k :: 0 <= k < |events| ==> Undisturbed(events[k])
    requires i < |Run(Initial(file, true), events, n).connections|
    ensures var l := Run(Initial(file, true), events, n);
            l.connections[i] == "" || l.connections[i] == l.locked
  {
    var l := Run(Initial(file, true), events, n);
    QuietRun(file, events, n);
    OthersBounded(file, true, events, n);
    assert l.connections[i] !in Others(l);
  }

  /** The file accesses matter: when the lock file cannot be written, the next accept finds it absent
      and lets a second address in while the first is still connected. */
  lemma UnwrittenLockAdmitsTwo(a: string, b: string)
    requires IsAddress(a) && IsAddress(b) && a != b
    ensures var events := [Accept(a, true, Failed), Accept(b, true, Failed)];
            var l := Run(Initial(Absent, true), events, 2);
            l == Lock(b, 0, Absent, [a, b], 1) && Others(l) == {a}
  {
    var events := [Accept(a, true, Failed), Accept(b, true, Failed)];
    assert Run(Initial(Absent, true), events, 1) == Lock(a, 0, Absent, [a], 0) by {
      assert Run(Initial(Absent, true), events, 0) == Lock("", 0, Absent, [], 0);
      assert [] + [a] == [a];
    }
    assert [a] + [b] == [a, b];
    var l := Lock(b, 0, Absent, [a, b], 1);
    assert l.connections[0] == a && l.connections[1] == b;
  }
}
