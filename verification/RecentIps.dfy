/**
 The recent-address lists of src/ip_lock.c: at most eight addresses, most recent first, thirty seconds
 each, kept in place in a fixed array.
 */
module RecentIps {

  const RECENT_MAX := 8
  const TTL := 30

  datatype Entry = Entry(ip: string, seenAt: int)

  predicate Fresh(e: Entry, now: int) {
    now - e.seenAt <= TTL
  }

  /** The fresh ones among the first n entries, in order. */
  function FreshAmong(s: seq<Entry>, n: nat, now: int): (r: seq<Entry>)
    requires n <= |s|
    ensures |r| <= n
  {
    if n == 0 then []
    else FreshAmong(s, n - 1, now) + if Fresh(s[n - 1], now) then [s[n - 1]] else []
  }

  /** ip_lock_prune_recent, on the list. */
  function Pruned(s: seq<Entry>, now: int): (r: seq<Entry>) {
    FreshAmong(s, |s|, now)
  }

  /** Where an address is, or the length of the list. */
  function Find(s: seq<Entry>, ip: string): (i: nat)
    ensures i <= |s| && (i < |s| ==> s[i].ip == ip)
    ensures forall j :: 0 <= j < i ==> s[j].ip != ip
  {
    if s == [] then 0 else if s[0].ip == ip then 0 else 1 + Find(s[1..], ip)
  }

  function Without(s: seq<Entry>, i: nat): seq<Entry>
    requires i <= |s|
  {
    if i < |s| then s[..i] + s[i + 1..] else s
  }

  function Take(s: seq<Entry>, n: nat): seq<Entry> {
    if |s| <= n then s else s[..n]
  }

  /** ip_lock_push_recent, on the list. */
  function Pushed(s: seq<Entry>, ip: string, now: int): seq<Entry> {
    if ip == "" then s
    else
      var p := Pruned(s, now);
      [Entry(ip, now)] + Take(Without(p, Find(p, ip)), RECENT_MAX - 1)
  }

  class RecentList {
    const store: array<Entry>
    var count: nat

    ghost predicate Valid()
      reads this
    {
      store.Length == RECENT_MAX && count <= RECENT_MAX
    }

    function Entries(): seq<Entry>
      requires count <= store.Length
      reads this, store
    {
      store[..count]
    }

    constructor ()
      ensures Valid() && fresh(store) && Entries() == []
    {
      store := new Entry[RECENT_MAX](_ => Entry("", 0));
      count := 0;
    }

    /** ip_lock_prune_recent: compact in place behind a write index. */
    method Prune(now: int)
      requires Valid()
      modifies this, store
      ensures Valid() && Entries() == Pruned(old(Entries()), now)
    {
      ghost var was, kept := Entries(), [];
      var writeIdx := 0;
      for i := 0 to count
        invariant writeIdx == |kept| <= i <= |was| == count <= store.Length
        invariant kept == FreshAmong(was, i, now)
        invariant forall j :: 0 <= j < writeIdx ==> store[j] == kept[j]
        invariant forall j :: i <= j < count ==> store[j] == was[j]
      {
        if now - store[i].seenAt <= TTL {
          kept := kept + [store[i]];
          store[writeIdx] := store[i];
          writeIdx := writeIdx + 1;
        }
      }
      count := writeIdx;
    }

    /** Move the first n entries one place up and put e first. */
    method ShiftIn(n: nat, e: Entry)
      requires n < store.Length
      modifies store
      ensures store[0] == e && forall j :: 1 <= j <= n ==> store[j] == old(store[j - 1])
      ensures forall j :: n < j < store.Length ==> store[j] == old(store[j])
    {
      forall j | 1 <= j <= n {
        store[j] := store[j - 1];
      }
      store[0] := e;
    }

    /** ip_lock_push_recent */
    method Push(ip: string, now: int)
      requires Valid()
      modifies this, store
      ensures Valid() && Entries() == Pushed(old(Entries()), ip, now)
    {
      if ip == "" {
        return;
      }
      Prune(now);
      var i := Search(ip);
      Promote(i, Entry(ip, now));
    }

    /** The search loop of ip_lock_push_recent. */
    method Search(ip: string) returns (i: nat)
      requires Valid()
      ensures i == Find(Entries(), ip)
    {
      i := 0;
      while i < count && store[i].ip != ip
        invariant i <= count && forall j :: 0 <= j < i ==> Entries()[j].ip != ip
      {
        i := i + 1;
      }
    }

    /** Put e first in place of the i-th entry, or of the last one if the list is full. */
    method Promote(i: nat, e: Entry)
      requires Valid() && i <= count
      modifies this, store
      ensures Valid() && Entries() == [e] + Take(Without(old(Entries()), i), RECENT_MAX - 1)
    {
      ghost var p := Entries();
      if i < count {
        ShiftIn(i, e);
        ghost var w := Without(p, i);
        assert w == p[..i] + p[i + 1..] && Take(w, RECENT_MAX - 1) == w;
        assert forall j :: 0 <= j < |w| ==> w[j] == p[if j < i then j else j + 1];
        assert Entries() == [e] + w;
        return;
      }
      if count < RECENT_MAX {
        count := count + 1;
      }
      ShiftIn(count - 1, e);
      assert Entries() == [e] + p[..count - 1];
    }

    /** ip_lock_reset_recent_lists, for one list. */
    method Reset()
      requires Valid()
      modifies this, store
      ensures Valid() && Entries() == []
    {
      count := 0;
      forall j | 0 <= j < store.Length {
        store[j] := Entry("", 0);
      }
    }
  }

  // ---------- whole runs ----------

  datatype Event = PushAt(ip: string, now: int) | PruneAt(now: int) | ResetAll

  function Step(s: seq<Entry>, e: Event): seq<Entry> {
    match e
    case PushAt(ip, now) => Pushed(s, ip, now)
    case PruneAt(now) => Pruned(s, now)
    case ResetAll => []
  }

  /** The list after the first n events. */
  function Run(events: seq<Event>, n: nat): seq<Entry>
    requires n <= |events|
  {
    if n == 0 then [] else Step(Run(events, n - 1), events[n - 1])
  }

  /** Every address pushed since the last reset, most recent first, once each. */
  function Ranking(events: seq<Event>, n: nat): seq<Entry>
    requires n <= |events|
  {
    if n == 0 then []
    else
      Reranked(Ranking(events, n - 1), events[n - 1])
  }

  function Reranked(m: seq<Entry>, e: Event): seq<Entry> {
    match e
    case PushAt(ip, now) => if ip == "" then m else [Entry(ip, now)] + Without(m, Find(m, ip))
    case PruneAt(_) => m
    case ResetAll => []
  }

  /** What the list should show at a time: the fresh ones of the ranking, at most eight. */
  function Shown(ranking: seq<Entry>, now: int): seq<Entry> {
    Take(Pruned(ranking, now), RECENT_MAX)
  }

  predicate Timed(e: Event) {
    !e.ResetAll?
  }

  /** Over the first n events the clock never goes back, and it ends no later than `now`. */
  predicate Monotone(events: seq<Event>, n: nat, now: int)
    requires n <= |events|
  {
    && (forall i, j :: 0 <= i < j < n && Timed(events[i]) && Timed(events[j]) ==> events[i].now <= events[j].now)
    && (forall i :: 0 <= i < n && Timed(events[i]) ==> events[i].now <= now)
  }

  /** Duplicate-free, latest first, nothing later than `now`. */
  ghost predicate Ranked(m: seq<Entry>, now: int) {
    && (forall i, j :: 0 <= i < j < |m| ==> m[i].ip != m[j].ip && m[i].seenAt >= m[j].seenAt)
    && (forall i :: 0 <= i < |m| ==> m[i].seenAt <= now)
  }

  lemma RankedWithout(m: seq<Entry>, last: int, i: nat)
    requires Ranked(m, last) && i < |m|
    ensures Ranked(Without(m, i), last)
    ensures forall j :: 0 <= j < |m| - 1 ==> Without(m, i)[j].ip != m[i].ip
  {
    var w := Without(m, i);
    assert forall j :: 0 <= j < |w| ==> w[j] == m[if j < i then j else j + 1];
  }

  lemma RankedPush(m: seq<Entry>, last: int, ip: string, now: int)
    requires Ranked(m, last) && last <= now
    ensures Ranked([Entry(ip, now)] + Without(m, Find(m, ip)), now)
  {
    var i := Find(m, ip);
    if i < |m| {
      RankedWithout(m, last, i);
    }
  }

  /** In a ranking the fresh entries come first. */
  lemma {:induction false} FreshIsPrefix(m: seq<Entry>, n: nat, last: int, now: int) returns (f: nat)
    requires n <= |m| && Ranked(m, last)
    ensures f <= n && FreshAmong(m, n, now) == m[..f]
    ensures forall i :: 0 <= i < n ==> (Fresh(m[i], now) <==> i < f)
  {
    if n == 0 {
      f := 0;
    } else {
      f := FreshIsPrefix(m, n - 1, last, now);
      if f < n - 1 {
        assert !Fresh(m[f], now) && m[f].seenAt >= m[n - 1].seenAt;
      }
      if Fresh(m[n - 1], now) {
        assert m[..n - 1] + [m[n - 1]] == m[..n];
        f := n;
      }
    }
  }

  /** The list is the first k of the ranking, and what it leaves out is beyond eight or expired. */
  ghost predicate Keeps(s: seq<Entry>, m: seq<Entry>, k: nat, now: int) {
    && k <= |m| && k <= RECENT_MAX && s == m[..k]
    && (k < |m| && k < RECENT_MAX ==> !Fresh(m[k], now))
  }

  /** Pruning a list that keeps the ranking shows exactly what it should. */
  lemma KeepsPrune(s: seq<Entry>, m: seq<Entry>, k: nat, last: int, now: int) returns (k': nat)
    requires Keeps(s, m, k, last) && Ranked(m, last) && last <= now
    ensures Keeps(Pruned(s, now), m, k', now)
    ensures Pruned(s, now) == Shown(m, now)
  {
    var f := FreshIsPrefix(m, |m|, last, now);
    assert Ranked(s, last);
    k' := FreshIsPrefix(s, |s|, last, now);
    assert k < |m| && k < RECENT_MAX ==> !Fresh(m[k], now);
    assert k' < k ==> !Fresh(s[k'], now) && s[k'] == m[k'];
    assert 0 < k' ==> Fresh(s[k' - 1], now) && s[k' - 1] == m[k' - 1];
    assert k' == if f < RECENT_MAX then f else RECENT_MAX;
    assert Pruned(s, now) == m[..k'] == Take(m[..f], RECENT_MAX);
  }

  /** The lists after a push, when the address is, or is not, among the kept ones. */
  lemma WithoutPrefix(p: seq<Entry>, m: seq<Entry>, j: nat, ip: string)
    requires j <= |m| && p == m[..j]
    ensures var i, g := Find(p, ip), Find(m, ip);
            if g < j then i == g && Without(p, i) == Without(m, g)[..j - 1]
            else Without(p, i) == p && j <= |Without(m, g)| && p == Without(m, g)[..j]
  {
    var i, g := Find(p, ip), Find(m, ip);
    if g < j {
      assert p[g].ip == ip;
    } else {
      assert forall h :: 0 <= h < j ==> p[h] == m[h] && m[h].ip != ip;
    }
  }

  lemma KeepsPush(p: seq<Entry>, m: seq<Entry>, j: nat, ip: string, now: int) returns (k': nat)
    requires Keeps(p, m, j, now) && Ranked(m, now)
    ensures Keeps([Entry(ip, now)] + Take(Without(p, Find(p, ip)), RECENT_MAX - 1),
                  [Entry(ip, now)] + Without(m, Find(m, ip)), k', now)
  {
    var e, g := Entry(ip, now), Find(m, ip);
    var w := Without(m, g);
    WithoutPrefix(p, m, j, ip);
    var k := if g < j then j - 1 else if j < RECENT_MAX - 1 then j else RECENT_MAX - 1;
    assert Take(Without(p, Find(p, ip)), RECENT_MAX - 1) == w[..k];
    KeepsRest(m, j, g, k, now);
    KeepsCons(e, w, k, now);
    k' := k + 1;
  }

  lemma KeepsRest(m: seq<Entry>, j: nat, g: nat, k: nat, now: int)
    requires Ranked(m, now) && j <= |m| && g <= |m|
    requires j < |m| && j < RECENT_MAX ==> !Fresh(m[j], now)
    requires k == if g < j then j - 1 else if j < RECENT_MAX - 1 then j else RECENT_MAX - 1
    ensures k < |Without(m, g)| && k + 1 < RECENT_MAX ==> !Fresh(Without(m, g)[k], now)
  {
    var w := Without(m, g);
    if k < |w| && k + 1 < RECENT_MAX {
      var at := if k < g then k else k + 1;
      assert w[k] == m[at];
      assert m[j].seenAt >= m[at].seenAt;
    }
  }

  lemma KeepsCons(e: Entry, w: seq<Entry>, k: nat, now: int)
    requires k <= |w| && k < RECENT_MAX
    requires k < |w| && k + 1 < RECENT_MAX ==> !Fresh(w[k], now)
    ensures Keeps([e] + w[..k], [e] + w, k + 1, now)
  {
    assert ([e] + w)[..k + 1] == [e] + w[..k];
  }

  lemma MonotoneLess(events: seq<Event>, n: nat, now: int, last: int)
    requires 0 < n <= |events| && Monotone(events, n, now)
    requires last == if Timed(events[n - 1]) then events[n - 1].now else now
    ensures Monotone(events, n - 1, last) && last <= now
  {
  }

  /** The list and the ranking stay related over every run of a clock that does not go back. */
  lemma {:induction false} RunKeeps(events: seq<Event>, n: nat, now: int) returns (k: nat)
    requires n <= |events| && Monotone(events, n, now)
    ensures Ranked(Ranking(events, n), now)
    ensures Keeps(Run(events, n), Ranking(events, n), k, now)
  {
    if n == 0 {
      k := 0;
    } else {
      var e := events[n - 1];
      var last := if Timed(e) then e.now else now;
      MonotoneLess(events, n, now, last);
      k := RunKeeps(events, n - 1, last);
      k := StepKeeps(Run(events, n - 1), Ranking(events, n - 1), k, e, last, now);
      assert Run(events, n) == Step(Run(events, n - 1), e) && Ranking(events, n) == Reranked(Ranking(events, n - 1), e);
    }
  }

  lemma StepKeeps(s: seq<Entry>, m: seq<Entry>, k: nat, e: Event, last: int, now: int) returns (k': nat)
    requires Ranked(m, last) && Keeps(s, m, k, last) && last <= now
    requires last == if Timed(e) then e.now else now
    ensures Ranked(Reranked(m, e), now) && Keeps(Step(s, e), Reranked(m, e), k', now)
  {
    match e
    case PushAt(ip, t) =>
      k' := k;
      if ip != "" {
        var j := KeepsPrune(s, m, k, t, t);
        RankedPush(m, t, ip, t);
        k' := KeepsPush(Pruned(s, t), m, j, ip, t);
      }
    case PruneAt(t) =>
      k' := KeepsPrune(s, m, k, t, t);
    case ResetAll =>
      k' := 0;
  }

  /** After any run of pushes, prunes and resets under a clock that does not go back, a prune shows
      exactly the addresses pushed since the last reset, most recent first, once each, at most thirty
      seconds old, at most eight; and the list is duplicate-free and ordered by time throughout. */
  lemma RecentCorrect(events: seq<Event>, now: int)
    requires Monotone(events, |events|, now)
    ensures Pruned(Run(events, |events|), now) == Shown(Ranking(events, |events|), now)
    ensures Ranked(Run(events, |events|), now)
  {
    var k := RunKeeps(events, |events|, now);
    var _ := KeepsPrune(Run(events, |events|), Ranking(events, |events|), k, now, now);
  }

  // ---------- what the ranking is ----------

  /** The last of the first n events that pushes ip, if no reset follows it; otherwise -1. */
  function LastPush(events: seq<Event>, n: nat, ip: string): (i: int)
    requires n <= |events|
    ensures -1 <= i < n
  {
    if n == 0 then -1
    else
      match events[n - 1]
      case PushAt(x, _) => if x == ip && ip != "" then n - 1 else LastPush(events, n - 1, ip)
      case PruneAt(_) => LastPush(events, n - 1, ip)
      case ResetAll => -1
  }

  /** m lists exactly the addresses that rank says occur, highest rank first, each with the time that
      `when` gives its rank. */
  ghost predicate ListedBy(m: seq<Entry>, rank: string -> int, when: int -> int) {
    SortedBy(m, rank, when) && forall ip :: 0 <= rank(ip) ==> Occurs(m, ip)
  }

  ghost predicate SortedBy(m: seq<Entry>, rank: string -> int, when: int -> int) {
    && (forall p :: 0 <= p < |m| ==> 0 <= rank(m[p].ip) && m[p].seenAt == when(rank(m[p].ip)))
    && (forall p, q :: 0 <= p < q < |m| ==> rank(m[p].ip) > rank(m[q].ip))
  }

  ghost predicate Occurs(m: seq<Entry>, ip: string) {
    exists p :: 0 <= p < |m| && m[p].ip == ip
  }

  lemma OccursAfterPush(m: seq<Entry>, e: Entry, x: string)
    requires Occurs(m, x) || x == e.ip
    ensures Occurs([e] + Without(m, Find(m, e.ip)), x)
  {
    var g := Find(m, e.ip);
    var r := [e] + Without(m, g);
    if x == e.ip {
      assert r[0].ip == x;
    } else {
      var p :| 0 <= p < |m| && m[p].ip == x;
      assert r[if p < g then p + 1 else if g < |m| then p else p + 1] == m[p];
    }
  }

  lemma SortedWithout(m: seq<Entry>, rank: string -> int, when: int -> int, g: nat)
    requires SortedBy(m, rank, when) && g < |m|
    ensures SortedBy(Without(m, g), rank, when)
    ensures forall p :: 0 <= p < |m| - 1 ==> Without(m, g)[p].ip != m[g].ip
  {
    var w := Without(m, g);
    assert forall p :: 0 <= p < |w| ==> w[p] == m[if p < g then p else p + 1];
  }

  lemma SortedCons(w: seq<Entry>, rank: string -> int, rank': string -> int, when: int -> int, e: Entry)
    requires SortedBy(w, rank, when)
    requires forall p :: 0 <= p < |w| ==> rank'(w[p].ip) == rank(w[p].ip) < rank'(e.ip)
    requires 0 <= rank'(e.ip) && when(rank'(e.ip)) == e.seenAt
    ensures SortedBy([e] + w, rank', when)
  {
    assert forall p :: 1 <= p < |w| + 1 ==> ([e] + w)[p] == w[p - 1];
  }

  lemma PushListed(m: seq<Entry>, rank: string -> int, rank': string -> int, when: int -> int, e: Entry)
    requires ListedBy(m, rank, when)
    requires forall x :: x != e.ip ==> rank'(x) == rank(x)
    requires forall x :: rank(x) < rank'(e.ip)
    requires 0 <= rank'(e.ip) && when(rank'(e.ip)) == e.seenAt
    ensures ListedBy([e] + Without(m, Find(m, e.ip)), rank', when)
  {
    var g := Find(m, e.ip);
    if g < |m| {
      SortedWithout(m, rank, when, g);
    }
    SortedCons(Without(m, g), rank, rank', when, e);
    forall x | 0 <= rank'(x)
      ensures Occurs([e] + Without(m, g), x)
    {
      OccursAfterPush(m, e, x);
    }
  }

  /** The last push of each address among the first n events. */
  ghost function LastPushes(events: seq<Event>, n: nat): string -> int
    requires n <= |events|
  {
    ip => LastPush(events, n, ip)
  }

  /** The times of the pushes. */
  ghost function PushTimes(events: seq<Event>): int -> int {
    i => if 0 <= i < |events| && events[i].PushAt? then events[i].now else 0
  }

  lemma StepListed(events: seq<Event>, n: nat, m: seq<Entry>, rank: string -> int, rank': string -> int,
                   when: int -> int)
    requires 0 < n <= |events| && m == Ranking(events, n - 1)
    requires rank == LastPushes(events, n - 1) && rank' == LastPushes(events, n) && when == PushTimes(events)
    requires ListedBy(m, rank, when)
    ensures ListedBy(Ranking(events, n), rank', when)
  {
    match events[n - 1]
    case PushAt(ip, now) =>
      if ip != "" {
        PushListed(m, rank, rank', when, Entry(ip, now));
      } else {
        SameRank(m, rank, rank', when);
      }
    case PruneAt(_) =>
      SameRank(m, rank, rank', when);
    case ResetAll =>
  }

  /** The ranking lists the addresses pushed since the last reset, by their last push, latest first. */
  lemma {:induction false} RankingIsByLastPush(events: seq<Event>, n: nat)
    requires n <= |events|
    ensures ListedBy(Ranking(events, n), LastPushes(events, n), PushTimes(events))
  {
    if n > 0 {
      RankingIsByLastPush(events, n - 1);
      var m := Ranking(events, n - 1);
      var rank, rank', when := LastPushes(events, n - 1), LastPushes(events, n), PushTimes(events);
      StepListed(events, n, m, rank, rank', when);
    }
  }

  lemma SameRank(m: seq<Entry>, rank: string -> int, rank': string -> int, when: int -> int)
    requires ListedBy(m, rank, when) && forall x :: rank'(x) == rank(x)
    ensures ListedBy(m, rank', when)
  {
  }
}
