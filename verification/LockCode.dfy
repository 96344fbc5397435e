/**
 The address lock as it runs (src/ip_lock.c and the accept and close paths of src/server.c): the locked address, the two
 lists kept in place in fixed arrays, and the peers of the live connections.
 */
module LockCode {
  import opened IpLock
  import opened LockLists
  import R = RecentIps

  /** The loop of ip_lock_reload that cuts white space off the end of the line. */
  method Trim(line: string) returns (ip: string)
    ensures ip == Trimmed(line)
  {
    ip := line;
    while |ip| > 0 && (ip[|ip| - 1] == '\n' || ip[|ip| - 1] == '\r' || ip[|ip| - 1] == ' ')
      invariant Trimmed(ip) == Trimmed(line)
    {
      ip := ip[..|ip| - 1];
    }
  }

  class AddressLock {
    var lockedIp: string
    var lockFileMtime: int
    const recentIncoming: R.RecentList
    const blockedIps: R.RecentList
    /** The peer addresses of the servers in the connections list. */
    var connections: seq<string>
    /** Whether there is a status file, which is written after every change. */
    const status: bool
    /** The lock file, as this process finds it. */
    var file: LockFile
    ghost var changes: nat

    ghost const Repr: set<object> := {this, recentIncoming, recentIncoming.store, blockedIps, blockedIps.store}

    ghost predicate Valid()
      reads Repr
    {
      && recentIncoming.Valid() && blockedIps.Valid()
      && recentIncoming != blockedIps && recentIncoming.store != blockedIps.store
    }

    ghost function LockState(): Lock
      reads this
    {
      Lock(lockedIp, lockFileMtime, file, connections, changes)
    }

    ghost function State(): Port
      requires Valid()
      reads Repr
    {
      Port(LockState(), recentIncoming.Entries(), blockedIps.Entries())
    }

    /** ip_lock_init */
    constructor (file: LockFile, readable: bool, status: bool)
      ensures Valid() && fresh(Repr) && this.status == status
      ensures State() == Port(Initial(file, readable), [], [])
    {
      recentIncoming := new R.RecentList();
      blockedIps := new R.RecentList();
      this.status := status;
      lockedIp, lockFileMtime, connections, this.file, changes := "", 0, [], file, 0;
      new;
      Reload(readable);
      changes := 0;
    }

    /** ip_lock_reset_recent_lists */
    method ResetLists()
      requires Valid()
      modifies recentIncoming, recentIncoming.store, blockedIps, blockedIps.store
      ensures Valid() && recentIncoming.Entries() == [] && blockedIps.Entries() == []
    {
      recentIncoming.Reset();
      blockedIps.Reset();
    }

    /** ip_lock_reload: the lock follows the file, and the lists are emptied when someone loses it to a file that is
        gone or names another address. */
    method Reload(readable: bool)
      requires Valid()
      modifies Repr
      ensures Valid() && LockState() == Reloaded(old(LockState()), readable)
      ensures old(ReloadResets(LockState(), readable)) ==> recentIncoming.Entries() == [] && blockedIps.Entries() == []
      ensures !old(ReloadResets(LockState(), readable)) ==> recentIncoming.Entries() == old(recentIncoming.Entries())
      ensures !old(ReloadResets(LockState(), readable)) ==> blockedIps.Entries() == old(blockedIps.Entries())
    {
      var previous := lockedIp;
      if file.Absent? {
        if lockedIp != "" {
          ResetLists();
          changes := changes + 1;
        }
        lockedIp := "";
        lockFileMtime := 0;
        return;
      }
      if file.mtime == lockFileMtime {
        return;
      }
      lockFileMtime := file.mtime;
      if !readable {
        changes := if lockedIp != "" then changes + 1 else changes;
        lockedIp := "";
        return;
      }
      lockedIp := Trim(FirstLine(file.text, INET6_ADDRSTRLEN - 1));
      if previous != lockedIp {
        changes := changes + 1;
        ResetLists();
      }
    }

    /** ip_lock_set */
    method Set(ip: string, written: Written)
      requires Valid()
      modifies Repr
      ensures Valid() && LockState() == WithLock(old(LockState()), ip, written)
      ensures old(SetResets(LockState(), ip)) ==> recentIncoming.Entries() == [] && blockedIps.Entries() == []
      ensures !old(SetResets(LockState(), ip)) ==> recentIncoming.Entries() == old(recentIncoming.Entries())
      ensures !old(SetResets(LockState(), ip)) ==> blockedIps.Entries() == old(blockedIps.Entries())
    {
      if ip == "" {
        return;
      }
      if lockedIp != "" && lockedIp != ip {
        ResetLists();
      }
      lockedIp := ip;
      if written.Failed? {
        return;
      }
      file := Present(ip + "\n", written.time);
      if written.At? {
        lockFileMtime := written.time;
      }
    }

    /** count_connections_for_ip */
    method CountConnectionsForIp(ip: string) returns (count: nat)
      ensures count == CountFor(connections, ip)
    {
      count := 0;
      if ip == "" {
        return;
      }
      for i := 0 to |connections|
        invariant count == CountAmong(connections, i, ip)
      {
        if connections[i] == ip {
          count := count + 1;
        }
      }
    }

    /** check_ip_lock_allowed: a named peer that is allowed holds the lock afterwards, and one that is not finds it held
        by a connected peer. */
    method CheckAllowed(peer: string, readable: bool, written: Written) returns (allowed: bool)
      requires Valid()
      modifies Repr
      ensures Valid() && (LockState(), allowed) == Checked(old(LockState()), peer, readable, written)
      ensures old(CheckResets(LockState(), peer, readable)) ==>
                recentIncoming.Entries() == [] && blockedIps.Entries() == []
      ensures !old(CheckResets(LockState(), peer, readable)) ==>
                recentIncoming.Entries() == old(recentIncoming.Entries())
      ensures !old(CheckResets(LockState(), peer, readable)) ==> blockedIps.Entries() == old(blockedIps.Entries())
      ensures connections == old(connections)
      ensures if allowed then peer == "" || lockedIp == peer
              else lockedIp != "" && lockedIp != peer && lockedIp in connections
    {
      if peer == "" {
        return true;
      }
      Reload(readable);
      if lockedIp == "" {
        Set(peer, written);
        return true;
      }
      if peer == lockedIp {
        return true;
      }
      var count := CountConnectionsForIp(lockedIp);
      if count > 0 {
        return false;
      }
      Set(peer, written);
      allowed := true;
    }

    /** update_ip_lock_status, as far as it changes the lists. */
    method UpdateStatus(now: int)
      requires Valid()
      modifies recentIncoming, recentIncoming.store, blockedIps, blockedIps.store
      ensures Valid()
      ensures recentIncoming.Entries() ==
              if status then R.Pruned(old(recentIncoming.Entries()), now) else old(recentIncoming.Entries())
      ensures blockedIps.Entries() == if status then R.Pruned(old(blockedIps.Entries()), now)
              else old(blockedIps.Entries())
    {
      if status {
        recentIncoming.Prune(now);
        blockedIps.Prune(now);
      }
    }

    /** What is recorded now is not yet pruned when the status is written. */
    predicate Shown(now: int, later: int)
      reads this
    {
      !status || later - now <= R.TTL
    }

    lemma FirstOf(l: Lock, p: Port, peer: string, readable: bool, written: Written, now: int, later: int)
      requires p.lock == l
      ensures var p' := Called(p, Call(Accept(peer, readable, written), now, later), status);
              var list := if Checked(l, peer, readable, written).1 then p'.incoming else p'.blocked;
              peer != "" && (!status || later - now <= R.TTL) ==> |list| > 0 && list[0] == R.Entry(peer, now)
      ensures !Checked(l, peer, readable, written).1 ==> peer != ""
    {
      if peer != "" && (!status || later - now <= R.TTL) {
        var own := Checked(l, peer, readable, written).1;
        var s := if own then p.incoming else p.blocked;
        RecordedIsFirst(s, EffectOf(l, Accept(peer, readable, written), status, own), now, later);
      }
    }

    /** The screening in accept_cb: one step of the lock and of both lists. */
    method Screen(peer: string, readable: bool, written: Written, now: int, later: int) returns (allowed: bool)
      requires Valid() && Inv(LockState())
      modifies Repr
      ensures Valid() && Inv(LockState()) && allowed == Checked(old(LockState()), peer, readable, written).1
      ensures State() == Called(old(State()), Call(Accept(peer, readable, written), now, later), status)
      ensures if allowed then connections == old(connections) + [peer] && (peer == "" || lockedIp == peer)
              else connections == old(connections) && lockedIp != peer && lockedIp in connections
    {
      StepKeeps(LockState(), Accept(peer, readable, written));
      allowed := CheckAllowed(peer, readable, written);
      if !allowed {
        blockedIps.Push(peer, now);
        UpdateStatus(later);
        return;
      }
      recentIncoming.Push(peer, now);
      connections := connections + [peer];
      UpdateStatus(later);
    }

    /** accept_cb, as far as the lock is concerned: one step of the lock and of both lists. At most the named peers
        that changes of the lock left connected differ from the locked one. */
    method AcceptCb(peer: string, readable: bool, written: Written, now: int, later: int) returns (allowed: bool)
      requires Valid() && Inv(LockState())
      modifies Repr
      ensures Valid() && Inv(LockState())
      ensures State() == Called(old(State()), Call(Accept(peer, readable, written), now, later), status)
      ensures if allowed then connections == old(connections) + [peer] && (peer == "" || lockedIp == peer)
              else connections == old(connections) && lockedIp != peer && lockedIp in connections
      ensures allowed && peer != "" && Shown(now, later) ==>
                |recentIncoming.Entries()| > 0 && recentIncoming.Entries()[0] == R.Entry(peer, now)
      ensures !allowed && Shown(now, later) ==>
                |blockedIps.Entries()| > 0 && blockedIps.Entries()[0] == R.Entry(peer, now)
    {
      ghost var p := State();
      allowed := Screen(peer, readable, written, now, later);
      FirstOf(p.lock, p, peer, readable, written, now, later);
    }

    /** close_and_free_server, as far as the lock is concerned: one connection goes, and the bound on the others is
        kept. */
    method CloseServer(i: nat, now: int)
      requires Valid() && Inv(LockState()) && i < |connections|
      modifies Repr
      ensures Valid() && Inv(LockState())
      ensures State() == Called(old(State()), Call(Close(i), now, now), status)
      ensures multiset(connections) == multiset(old(connections)) - multiset{old(connections)[i]}
      ensures lockedIp == old(lockedIp)
    {
      StepKeeps(LockState(), Close(i));
      ghost var was := connections;
      connections := connections[..i] + connections[i + 1..];
      assert was == was[..i] + [was[i]] + was[i + 1..];
      UpdateStatus(now);
    }
  }
}
