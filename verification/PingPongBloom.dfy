/**
 The ping-pong Bloom filter of src/ppbloom.c: two filters that take turns, so that
 together they always cover at least the last `entries` additions.
 */
module PingPongBloom {
  import opened Bytes
  import opened Bloom

  /** A history of additions: those no longer held, those held by the filter filled before, and
      those held by the filter being filled. */
  datatype Window<T> = Window(dropped: seq<T>, previous: seq<T>, current: seq<T>) {
    function All(): seq<T> {
      dropped + previous + current
    }

    /** The current filter holds fewer than `entries` additions, the other one nothing before the
        first switch and then exactly `entries`. */
    predicate Sized(entries: nat) {
      && |current| < entries
      && (|previous| == entries || (previous == [] && dropped == []))
    }
  }

  /** One addition: it fills the current filter, or turns it into the previous one. */
  function Next<T>(entries: nat, w: Window<T>, x: T): (w': Window<T>)
    ensures w'.All() == w.All() + [x]
    ensures w.Sized(entries) ==> w'.Sized(entries)
  {
    var filled := w.current + [x];
    if |filled| < entries then w.(current := filled)
    else Window(w.dropped + w.previous, filled, [])
  }

  /** What ppbloom_check answers when the two filters hold w. */
  ghost predicate Reports(p: Params, w: Window<seq<byte>>, buffer: seq<byte>)
    requires p.bits > 0
  {
    p.Reports(w.current, buffer) || p.Reports(w.previous, buffer)
  }

  /** Sliding window with no false negatives: each of the last `entries` additions is reported. */
  lemma RecentReported(p: Params, entries: nat, w: Window<seq<byte>>, k: nat)
    requires p.bits > 0 && w.Sized(entries)
    requires k < |w.All()| && |w.All()| - k <= entries
    ensures Reports(p, w, w.All()[k])
  {
    var j := k - |w.dropped|;
    if j < |w.previous| {
      assert w.All()[k] == w.previous[j];
      NoFalseNegative(p, w.previous, j);
    } else {
      assert w.All()[k] == w.current[j - |w.previous|];
      NoFalseNegative(p, w.current, j - |w.previous|);
    }
  }

  const PING := 0
  const PONG := 1

  class PingPong {
    const params: Params
    const entries: nat
    const ping: Filter
    const pong: Filter
    var bloomCount: seq<nat>
    var current: int
    /** The additions so far. */
    ghost var window: Window<seq<byte>>

    ghost const Repr: set<object> := {this, ping, pong, ping.bf, pong.bf}

    /** ppbloom + i */
    function At(i: int): Filter {
      if i == PING then ping else pong
    }

    ghost predicate Valid()
      reads Repr
    {
      && window.Sized(entries)
      && ping != pong && ping.bf != pong.bf
      && ping.params == pong.params == params
      && ping.Valid() && pong.Valid() && ping.ready && pong.ready
      && |bloomCount| == 2 && (current == PING || current == PONG)
      && bloomCount[current] == |window.current| && bloomCount[1 - current] == 0
      && At(current).adds == window.current && At(1 - current).adds == window.previous
    }

    /** ppbloom_init, for sizes that bloom_init accepts. */
    constructor (n: nat, p: Params)
      requires n >= 2 && p.bits > 0
      ensures Valid() && fresh(Repr) && window == Window([], [], []) && entries == n / 2 && params == p
    {
      params := p;
      entries := n / 2;
      ping := new Filter(p);
      pong := new Filter(p);
      bloomCount := [0, 0];
      current := PING;
      window := Window([], [], []);
    }

    /** ppbloom_check */
    method Check(buffer: seq<byte>) returns (r: int)
      requires Valid()
      modifies Repr
      ensures Valid() && window == old(window)
      ensures r == if Reports(params, window, buffer) then 1 else 0
    {
      r := ping.Check(buffer);
      if r != 0 {
        return;
      }
      r := pong.Check(buffer);
    }

    /** ppbloom_add */
    method Add(buffer: seq<byte>) returns (r: int)
      requires Valid()
      modifies Repr
      ensures Valid() && window == Next(entries, old(window), buffer) && r == 0
    {
      var active, idle := At(current), At(1 - current);
      var _ := active.Add(buffer);
      assert idle.Valid() && idle.adds == old(idle.adds);
      window := Next(entries, window, buffer);
      bloomCount := bloomCount[current := bloomCount[current] + 1];
      if bloomCount[current] >= entries {
        bloomCount := bloomCount[current := 0];
        current := if current == PING then PONG else PING;
        var _ := idle.Reset();
        assert active.Valid();
      }
      r := 0;
    }
  }

  /** ppbloom_init: bloom_init refuses to make a filter for no entries. */
  method Init(n: nat, p: Params) returns (err: int, filter: PingPong?)
    requires p.bits > 0
    ensures err == 0 <==> n >= 2
    ensures if err != 0 then filter == null
            else
              && filter != null && fresh(filter.Repr) && filter.Valid()
              && filter.window == Window([], [], []) && filter.entries == n / 2 && filter.params == p
  {
    if n / 2 < 1 {
      return 1, null;
    }
    filter := new PingPong(n, p);
    err := 0;
  }
}
