/**
 The address lock together with the two lists of recent addresses that it shows in its status: which peers came in and
 which were blocked since the lock was last taken away from someone.
 */
module LockLists {
  import opened IpLock
  import R = RecentIps

  /** The lock, and the lists recent_incoming and blocked_ips. */
  datatype Port = Port(lock: Lock, incoming: seq<R.Entry>, blocked: seq<R.Entry>)

  /** An event of the lock, with the two times that the source reads: when it records the peer, and when it writes the
      status. */
  datatype Call = Call(event: Event, now: int, later: int)

  /** ip_lock_reload empties the lists: the file is gone or names another address, and could be read. */
  predicate ReloadResets(l: Lock, readable: bool) {
    match l.file
    case Absent => l.locked != ""
    case Present(text, mtime) => mtime != l.mtime && readable && ReadLock(text) != l.locked
  }

  /** So does ip_lock_set, when it takes the lock away from another address. */
  predicate SetResets(l: Lock, ip: string) {
    ip != "" && l.locked != "" && l.locked != ip
  }

  /** check_ip_lock_allowed empties the lists, in its reload or when it takes the lock over. */
  predicate CheckResets(l: Lock, peer: string, readable: bool) {
    && peer != ""
    && var r := Reloaded(l, readable);
       ReloadResets(l, readable) || (SetResets(r, peer) && CountFor(r.connections, r.locked) == 0)
  }

  /** What a call does to one of the lists. */
  datatype Effect = Effect(reset: bool, push: string, prune: bool)

  function Effected(s: seq<R.Entry>, f: Effect, now: int, later: int): seq<R.Entry> {
    var s := if f.reset then [] else s;
    var s := R.Pushed(s, f.push, now);
    if f.prune then R.Pruned(s, later) else s
  }

  /** What an event does to recent_incoming (own) or to blocked_ips: accept_cb records the peer in one of them, and
      writing the status prunes both, as does every close. */
  function EffectOf(l: Lock, e: Event, status: bool, own: bool): Effect {
    match e
    case Accept(peer, readable, written) =>
      var allowed := Checked(l, peer, readable, written).1;
      Effect(CheckResets(l, peer, readable), if allowed == own then peer else "", status)
    case Close(_) => Effect(false, "", status)
    case Outside(_) => Effect(false, "", false)
  }

  function Called(p: Port, c: Call, status: bool): Port {
    Port(Step(p.lock, c.event),
         Effected(p.incoming, EffectOf(p.lock, c.event, status, true), c.now, c.later),
         Effected(p.blocked, EffectOf(p.lock, c.event, status, false), c.now, c.later))
  }

  // ---------- what happened, told without the lists ----------

  /** The lock file is there, has changed, and cannot be read: the source then drops the lock without emptying the
      lists. */
  predicate Unread(l: Lock, readable: bool) {
    l.file.Present? && l.file.mtime != l.mtime && !readable
  }

  /** An accept empties the lists: its reload changes the lock, other than through a file that cannot be read, or it
      takes the lock from another address, none of whose connections is left. */
  predicate Empties(l: Lock, peer: string, readable: bool) {
    && peer != ""
    && var r := Reloaded(l, readable);
       || (r.locked != l.locked && !Unread(l, readable))
       || (r.locked != "" && r.locked != peer && r.locked !in r.connections)
  }

  /** The peer of an accept was let in: it is one of the connections now. */
  predicate LetIn(p: Port, p': Port, peer: string) {
    p'.lock.connections == p.lock.connections + [peer]
  }

  /** What a call from p to p' means for recent_incoming (own) or for blocked_ips: exactly a peer that was let in is
      recorded in the one, and exactly one that was turned away in the other. */
  function Seen(p: Port, p': Port, c: Call, status: bool, own: bool): seq<R.Event> {
    var prune := if status then [R.PruneAt(c.later)] else [];
    match c.event
    case Accept(peer, readable, _) =>
      (if Empties(p.lock, peer, readable) then [R.ResetAll] else [])
      + (if LetIn(p, p', peer) == own then [R.PushAt(peer, c.now)] else []) + prune
    case Close(_) => prune
    case Outside(_) => []
  }

  /** The first entry of a list, if it is fresh, stays the first. */
  lemma {:induction false} FirstStays(s: seq<R.Entry>, n: nat, now: int)
    requires 0 < n <= |s| && R.Fresh(s[0], now)
    ensures |R.FreshAmong(s, n, now)| > 0 && R.FreshAmong(s, n, now)[0] == s[0]
  {
    if n > 1 {
      FirstStays(s, n - 1, now);
    }
  }

  /** A peer that is recorded is the first of the list, unless it has expired when the status is written. */
  lemma RecordedIsFirst(s: seq<R.Entry>, f: Effect, now: int, later: int)
    requires f.push != "" && (f.prune ==> later - now <= R.TTL)
    ensures var after := Effected(s, f, now, later); |after| > 0 && after[0] == R.Entry(f.push, now)
  {
    var pushed := R.Pushed(if f.reset then [] else s, f.push, now);
    if f.prune {
      FirstStays(pushed, |pushed|, later);
    }
  }

  // ---------- the lists over a whole run ----------

  lemma RunMore(a: seq<R.Event>, e: R.Event)
    ensures R.Run(a + [e], |a| + 1) == R.Step(R.Run(a, |a|), e)
  {
    RunAgree(a, a + [e], |a|);
  }

  lemma {:induction false} RunAgree(a: seq<R.Event>, b: seq<R.Event>, n: nat)
    requires n <= |a| && n <= |b| && forall i :: 0 <= i < n ==> a[i] == b[i]
    ensures R.Run(a, n) == R.Run(b, n)
  {
    if n > 0 {
      RunAgree(a, b, n - 1);
    }
  }

  lemma Appended(a: seq<R.Event>, e: R.Event, on: bool) returns (b: seq<R.Event>)
    ensures b == a + if on then [e] else []
    ensures R.Run(b, |b|) == if on then R.Step(R.Run(a, |a|), e) else R.Run(a, |a|)
  {
    b := a;
    if on {
      RunMore(a, e);
      b := a + [e];
    }
  }

  /** The events that an effect consists of. */
  function Parts(f: Effect, push: bool, now: int, later: int): seq<R.Event> {
    (if f.reset then [R.ResetAll] else []) + (if push then [R.PushAt(f.push, now)] else [])
    + if f.prune then [R.PruneAt(later)] else []
  }

  lemma PartsInTurn(a: seq<R.Event>, f: Effect, push: bool, now: int, later: int)
    ensures a + Parts(f, push, now, later) ==
            a + (if f.reset then [R.ResetAll] else []) + (if push then [R.PushAt(f.push, now)] else [])
            + if f.prune then [R.PruneAt(later)] else []
  {
  }

  lemma EffectIsParts(a: seq<R.Event>, f: Effect, push: bool, now: int, later: int)
    requires !push ==> f.push == ""
    ensures var b := a + Parts(f, push, now, later); R.Run(b, |b|) == Effected(R.Run(a, |a|), f, now, later)
  {
    var b := Appended(a, R.ResetAll, f.reset);
    var c := Appended(b, R.PushAt(f.push, now), push);
    var d := Appended(c, R.PruneAt(later), f.prune);
    PartsInTurn(a, f, push, now, later);
  }

  /** The effect of a call on a list is what happened. */
  lemma EffectIsSeen(p: Port, c: Call, status: bool, own: bool) returns (push: bool)
    ensures var f := EffectOf(p.lock, c.event, status, own);
            && (!push ==> f.push == "")
            && Parts(f, push, c.now, c.later) == Seen(p, Called(p, c, status), c, status, own)
  {
    push := false;
    if c.event.Accept? {
      var e := c.event;
      if e.peer != "" {
        ResetsExactly(p.lock, e.peer, e.readable, e.written);
      }
      AcceptLetsIn(p, c, status);
      push := LetIn(p, Called(p, c, status), e.peer) == own;
    }
  }

  lemma AcceptLetsIn(p: Port, c: Call, status: bool)
    requires c.event.Accept?
    ensures var e := c.event;
            LetIn(p, Called(p, c, status), e.peer) <==> Checked(p.lock, e.peer, e.readable, e.written).1
  {
    var e := c.event;
    assert Checked(p.lock, e.peer, e.readable, e.written).0.connections == p.lock.connections;
    assert |p.lock.connections + [e.peer]| == |p.lock.connections| + 1;
  }

  /** The states that a run of calls goes through. */
  ghost predicate IsRun(trace: seq<Port>, calls: seq<Call>, status: bool) {
    && |trace| == |calls| + 1 && trace[0].incoming == [] && trace[0].blocked == []
    && forall i :: 0 <= i < |calls| ==> Stepped(trace, calls, status, i)
  }

  ghost predicate Stepped(trace: seq<Port>, calls: seq<Call>, status: bool, i: nat)
    requires i < |calls| && |trace| == |calls| + 1
  {
    trace[i + 1] == Called(trace[i], calls[i], status)
  }

  /** What happened in the first n calls. */
  ghost function History(trace: seq<Port>, calls: seq<Call>, status: bool, own: bool, n: nat): seq<R.Event>
    requires n <= |calls| < |trace|
  {
    if n == 0 then []
    else
      History(trace, calls, status, own, n - 1) + Seen(trace[n - 1], trace[n], calls[n - 1], status, own)
  }

  function ListOf(p: Port, own: bool): seq<R.Entry> {
    if own then p.incoming else p.blocked
  }

  lemma CalledList(p: Port, c: Call, status: bool, own: bool)
    ensures ListOf(Called(p, c, status), own) ==
            Effected(ListOf(p, own), EffectOf(p.lock, c.event, status, own), c.now, c.later)
  {
  }

  /** One more call, as one more piece of the history. */
  lemma FollowsMore(p: Port, c: Call, status: bool, own: bool, h: seq<R.Event>)
    requires ListOf(p, own) == R.Run(h, |h|)
    ensures var more := h + Seen(p, Called(p, c, status), c, status, own);
            ListOf(Called(p, c, status), own) == R.Run(more, |more|)
  {
    CalledList(p, c, status, own);
    var push := EffectIsSeen(p, c, status, own);
    EffectIsParts(h, EffectOf(p.lock, c.event, status, own), push, c.now, c.later);
  }

  lemma {:induction false} ListsFollowHistory(trace: seq<Port>, calls: seq<Call>, status: bool, own: bool, n: nat)
    requires IsRun(trace, calls, status) && n <= |calls|
    ensures var h := History(trace, calls, status, own, n); ListOf(trace[n], own) == R.Run(h, |h|)
  {
    if n > 0 {
      ListsFollowHistory(trace, calls, status, own, n - 1);
      assert Stepped(trace, calls, status, n - 1);
      var h := History(trace, calls, status, own, n - 1);
      FollowsMore(trace[n - 1], calls[n - 1], status, own, h);
      assert History(trace, calls, status, own, n) == h + Seen(trace[n - 1], trace[n], calls[n - 1], status, own);
    }
  }

  /** The times of the calls do not go back, and end no later than now. */
  ghost predicate Clocked(calls: seq<Call>, n: nat, now: int)
    requires n <= |calls|
  {
    && (forall i, j :: 0 <= i < j < n ==> calls[i].later <= calls[j].now)
    && forall i :: 0 <= i < n ==> calls[i].now <= calls[i].later <= now
  }

  lemma MonotoneMore(a: seq<R.Event>, p: Port, p': Port, c: Call, status: bool, own: bool)
    requires R.Monotone(a, |a|, c.now) && c.now <= c.later
    ensures var b := a + Seen(p, p', c, status, own); R.Monotone(b, |b|, c.later)
  {
    var more := Seen(p, p', c, status, own);
    var b := a + more;
    assert forall i :: |a| <= i < |b| ==> b[i] == more[i - |a|];
  }

  lemma {:induction false} HistoryMonotone(trace: seq<Port>, calls: seq<Call>, status: bool, own: bool, n: nat,
                                           now: int)
    requires n <= |calls| < |trace| && Clocked(calls, n, now)
    ensures R.Monotone(History(trace, calls, status, own, n), |History(trace, calls, status, own, n)|, now)
  {
    if n > 0 {
      var c := calls[n - 1];
      HistoryMonotone(trace, calls, status, own, n - 1, c.now);
      var h := History(trace, calls, status, own, n - 1);
      MonotoneMore(h, trace[n - 1], trace[n], c, status, own);
      var more := h + Seen(trace[n - 1], trace[n], c, status, own);
      assert R.Monotone(more, |more|, now);
    }
  }

  /** In every run under a clock that does not go back, both lists show, once pruned, exactly the peers recorded in
      them since they were last emptied: most recent first, once each, at most thirty seconds old, at most eight. */
  lemma ListsAreRecent(trace: seq<Port>, calls: seq<Call>, status: bool, own: bool, n: nat, now: int)
    requires IsRun(trace, calls, status) && n <= |calls| && Clocked(calls, n, now)
    ensures var h := History(trace, calls, status, own, n);
            R.Pruned(ListOf(trace[n], own), now) == R.Shown(R.Ranking(h, |h|), now)
  {
    ListsFollowHistory(trace, calls, status, own, n);
    HistoryMonotone(trace, calls, status, own, n, now);
    R.RecentCorrect(History(trace, calls, status, own, n), now);
  }

  /** The lock passes from an address to another one, or to none. */
  predicate Loses(l: Lock, peer: string, readable: bool, written: Written) {
    l.locked != "" && Checked(l, peer, readable, written).0.locked != l.locked
  }

  /** When an address loses the lock the lists are emptied, exactly if it is not lost to a file that cannot be read. In
      general they are emptied exactly when the reload changes the lock, other than through such a file, or when the
      lock is then taken away from another address. */
  lemma ResetsExactly(l: Lock, peer: string, readable: bool, written: Written)
    requires peer != ""
    ensures Loses(l, peer, readable, written) ==> (CheckResets(l, peer, readable) <==> !Unread(l, readable))
    ensures CheckResets(l, peer, readable) <==> Empties(l, peer, readable)
  {
  }

  /** A concrete case: "a" holds the lock, the file has changed and cannot be read, and "b" takes the lock while both
      lists stay. */
  lemma UnreadFileKeepsLists(incoming: seq<R.Entry>, blocked: seq<R.Entry>)
    ensures var l, e := Lock("a", 1, Present("", 2), [], 0), Accept("b", false, At(3));
            && Loses(l, "b", false, At(3)) && !CheckResets(l, "b", false)
            && Called(Port(l, incoming, blocked), Call(e, 4, 4), false) ==
               Port(Step(l, e), R.Pushed(incoming, "b", 4), blocked)
            && Step(l, e).locked == "b"
  {
  }
}
