/**
 What the connection cache of src/cache.c promises, on values: the items from the least to the most
 recently used, and the data handed to the free callback so far.
 */
module CacheSpec {
  import opened Bytes

  /** A datum is a pointer; NULL data are never handed to the free callback. */
  const NULL: nat := 0

  datatype Item = Item(key: seq<byte>, data: nat, ts: real)

  datatype State = State(items: seq<Item>, freed: seq<nat>)

  datatype Op =
    | Insert(key: seq<byte>, data: nat)
    | Lookup(key: seq<byte>)
    | KeyExist(key: seq<byte>)
    | Remove(key: seq<byte>)
    | Clear(age: real)

  /** An operation and the clock reading it sees. */
  datatype Call = Call(op: Op, now: real)

  predicate Absent(items: seq<Item>, key: seq<byte>) {
    forall i :: 0 <= i < |items| ==> items[i].key != key
  }

  function Find(items: seq<Item>, n: nat, key: seq<byte>): (i: int)
    requires n <= |items|
    ensures -1 <= i < n
    ensures i >= 0 ==> items[i].key == key
    ensures i < 0 ==> Absent(items[..n], key)
  {
    if n == 0 then -1 else if items[n - 1].key == key then n - 1 else Find(items, n - 1, key)
  }

  /** What freeing an item adds to the log. */
  function Release(x: Item): seq<nat> {
    if x.data != NULL then [x.data] else []
  }

  function Touch(items: seq<Item>, key: seq<byte>, now: real): seq<Item> {
    var i := Find(items, |items|, key);
    if i < 0 then items else Drop(items, i) + [items[i].(ts := now)]
  }

  /** What is left of the first n items once those older than age are gone. */
  function Kept(items: seq<Item>, n: nat, now: real, age: real): seq<Item>
    requires n <= |items|
  {
    if n == 0 then []
    else Kept(items, n - 1, now, age) + if now - items[n - 1].ts > age then [] else [items[n - 1]]
  }

  /** What is freed of them. */
  function Gone(items: seq<Item>, n: nat, now: real, age: real): seq<nat>
    requires n <= |items|
  {
    if n == 0 then []
    else Gone(items, n - 1, now, age) + if now - items[n - 1].ts > age then Release(items[n - 1]) else []
  }

  function Inserted(max: nat, s: State, x: Item): State {
    var items := s.items + [x];
    if |items| >= max then State(items[1..], s.freed + Release(items[0])) else State(items, s.freed)
  }

  function Touched(s: State, key: seq<byte>, now: real): State {
    State(Touch(s.items, key, now), s.freed)
  }

  function Removed(s: State, key: seq<byte>): State {
    var i := Find(s.items, |s.items|, key);
    if i < 0 then s else State(Drop(s.items, i), s.freed + Release(s.items[i]))
  }

  function Cleared(s: State, now: real, age: real): State {
    State(Kept(s.items, |s.items|, now, age), s.freed + Gone(s.items, |s.items|, now, age))
  }

  function Step(max: nat, s: State, c: Call): State {
    match c.op
    case Insert(key, data) => Inserted(max, s, Item(key, data, c.now))
    case Lookup(key) => Touched(s, key, c.now)
    case KeyExist(key) => Touched(s, key, c.now)
    case Remove(key) => Removed(s, key)
    case Clear(age) => Cleared(s, c.now, age)
  }

  /** The state after the first n calls on a new cache. */
  function Run(max: nat, calls: seq<Call>, n: nat): State
    requires n <= |calls|
  {
    if n == 0 then State([], []) else Step(max, Run(max, calls, n - 1), calls[n - 1])
  }

  /** Every insertion in the run is of a key that the cache does not hold. */
  ghost predicate InsertsNew(max: nat, calls: seq<Call>, n: nat)
    requires n <= |calls|
  {
    n > 0 ==>
      InsertsNew(max, calls, n - 1)
      && (calls[n - 1].op.Insert? ==> Absent(Run(max, calls, n - 1).items, calls[n - 1].op.key))
  }

  // ---------- recency ----------

  predicate Uses(op: Op, key: seq<byte>) {
    (op.Insert? || op.Lookup? || op.KeyExist?) && op.key == key
  }

  /** The last of the first n calls that inserted or looked up the key, or -1. */
  function LastUse(calls: seq<Call>, n: nat, key: seq<byte>): (i: int)
    requires n <= |calls|
    ensures -1 <= i < n
  {
    if n == 0 then -1 else if Uses(calls[n - 1].op, key) then n - 1 else LastUse(calls, n - 1, key)
  }

  /** Items are ordered by rank, and each carries the time of its rank. */
  ghost predicate Ranked(items: seq<Item>, rank: seq<byte> -> int, time: int -> real) {
    (forall i, j :: 0 <= i < j < |items| ==> rank(items[i].key) < rank(items[j].key))
    && forall i :: 0 <= i < |items| ==> rank(items[i].key) >= 0 && items[i].ts == time(rank(items[i].key))
  }

  lemma RankedWithout(items: seq<Item>, i: nat, rank: seq<byte> -> int, time: int -> real)
    requires Ranked(items, rank, time) && i < |items|
    ensures Ranked(Drop(items, i), rank, time) && Absent(Drop(items, i), items[i].key)
  {
  }

  /** Using a key gives it the highest rank and leaves the other ranks alone. */
  lemma RankedAppend(items: seq<Item>, x: Item, rank: seq<byte> -> int, rank': seq<byte> -> int, time: int -> real)
    requires Ranked(items, rank, time) && Absent(items, x.key)
    requires forall k :: k != x.key ==> rank'(k) == rank(k)
    requires forall i :: 0 <= i < |items| ==> rank(items[i].key) < rank'(x.key)
    requires rank'(x.key) >= 0 && x.ts == time(rank'(x.key))
    ensures Ranked(items + [x], rank', time)
  {
  }

  lemma RankedTail(items: seq<Item>, rank: seq<byte> -> int, time: int -> real)
    requires Ranked(items, rank, time) && |items| > 0
    ensures Ranked(items[1..], rank, time)
  {
  }

  lemma {:induction false} RankedKept(items: seq<Item>, n: nat, now: real, age: real, rank: seq<byte> -> int,
                                      time: int -> real)
    requires Ranked(items, rank, time) && n <= |items|
    ensures Ranked(Kept(items, n, now, age), rank, time)
    ensures forall i, m :: 0 <= i < |Kept(items, n, now, age)| && n <= m < |items| ==>
              rank(Kept(items, n, now, age)[i].key) < rank(items[m].key)
  {
    if n > 0 {
      RankedKept(items, n - 1, now, age, rank, time);
    }
  }

  lemma RankedTouch(items: seq<Item>, key: seq<byte>, now: real, rank: seq<byte> -> int, rank': seq<byte> -> int,
                    time: int -> real)
    requires Ranked(items, rank, time)
    requires forall k :: k != key ==> rank'(k) == rank(k)
    requires forall i :: 0 <= i < |items| ==> rank(items[i].key) < rank'(key)
    requires rank'(key) >= 0 && now == time(rank'(key))
    ensures Ranked(Touch(items, key, now), rank', time)
  {
    var i := Find(items, |items|, key);
    if i < 0 {
      assert items[..|items|] == items;
    } else {
      RankedWithout(items, i, rank, time);
      RankedAppend(Drop(items, i), items[i].(ts := now), rank, rank', time);
    }
  }

  /** The ranks of the items are below the number of the call to come. */
  ghost predicate Below(items: seq<Item>, rank: seq<byte> -> int, n: int) {
    forall i :: 0 <= i < |items| ==> rank(items[i].key) < n
  }

  /** One call keeps the items ordered by last use. */
  lemma StepRanked(max: nat, s: State, c: Call, n: nat, rank: seq<byte> -> int, rank': seq<byte> -> int,
                   time: int -> real)
    requires Ranked(s.items, rank, time) && Below(s.items, rank, n) && time(n) == c.now
    requires forall k :: rank'(k) == if Uses(c.op, k) then n else rank(k)
    requires c.op.Insert? ==> Absent(s.items, c.op.key)
    ensures Ranked(Step(max, s, c).items, rank', time)
  {
    match c.op
    case Insert(key, data) =>
      var x := Item(key, data, c.now);
      assert Uses(c.op, key);
      RankedAppend(s.items, x, rank, rank', time);
      RankedTail(s.items + [x], rank', time);
    case Lookup(key) =>
      assert Uses(c.op, key);
      RankedTouch(s.items, key, c.now, rank, rank', time);
    case KeyExist(key) =>
      assert Uses(c.op, key);
      RankedTouch(s.items, key, c.now, rank, rank', time);
    case Remove(key) =>
      var i := Find(s.items, |s.items|, key);
      if i >= 0 {
        RankedWithout(s.items, i, rank', time);
      }
    case Clear(age) =>
      RankedKept(s.items, |s.items|, c.now, age, rank', time);
  }

  ghost function Rank(calls: seq<Call>, n: nat): seq<byte> -> int
    requires n <= |calls|
  {
    key => LastUse(calls, n, key)
  }

  ghost function Clock(calls: seq<Call>): int -> real {
    i => if 0 <= i < |calls| then calls[i].now else 0.0
  }

  lemma RankStep(calls: seq<Call>, n: nat, rank: seq<byte> -> int, rank': seq<byte> -> int)
    requires 0 < n <= |calls| && rank == Rank(calls, n - 1) && rank' == Rank(calls, n)
    ensures forall k :: rank(k) < n - 1
    ensures forall k :: rank'(k) == if Uses(calls[n - 1].op, k) then n - 1 else rank(k)
  {
  }

  lemma CallRanked(max: nat, s: State, calls: seq<Call>, n: nat)
    requires 0 < n <= |calls| && Ranked(s.items, Rank(calls, n - 1), Clock(calls))
    requires calls[n - 1].op.Insert? ==> Absent(s.items, calls[n - 1].op.key)
    ensures Ranked(Step(max, s, calls[n - 1]).items, Rank(calls, n), Clock(calls))
  {
    var rank, rank', time := Rank(calls, n - 1), Rank(calls, n), Clock(calls);
    RankStep(calls, n, rank, rank');
    StepRanked(max, s, calls[n - 1], n - 1, rank, rank', time);
  }

  /** Over every run that inserts new keys, the items are ordered by the call that last inserted or looked
      up their key, and carry the time of that call. */
  lemma {:induction false} OrderedByLastUse(max: nat, calls: seq<Call>, n: nat)
    requires n <= |calls| && InsertsNew(max, calls, n)
    ensures Ranked(Run(max, calls, n).items, Rank(calls, n), Clock(calls))
  {
    if n > 0 {
      var s := Run(max, calls, n - 1);
      OrderedByLastUse(max, calls, n - 1);
      CallRanked(max, s, calls, n);
      assert Run(max, calls, n) == Step(max, s, calls[n - 1]);
    }
  }

  /** The items of an insertion that evicts: the victim is the one whose last use is the oldest, and with room for
      two entries or more the new entry stays. */
  lemma VictimIsLeastRecent(max: nat, calls: seq<Call>, n: nat)
    requires n < |calls| && InsertsNew(max, calls, n) && max >= 2
    requires calls[n].op.Insert? && |Run(max, calls, n).items| + 1 >= max
    ensures var before, after := Run(max, calls, n), Run(max, calls, n + 1);
            && before.items != []
            && after.items == before.items[1..] + [Item(calls[n].op.key, calls[n].op.data, calls[n].now)]
            && after.freed == before.freed + Release(before.items[0])
            && forall i :: 1 <= i < |before.items| ==>
                 LastUse(calls, n, before.items[0].key) < LastUse(calls, n, before.items[i].key)
  {
    OrderedByLastUse(max, calls, n);
    var items := Run(max, calls, n).items;
    assert forall i :: 0 <= i < |items| ==> Rank(calls, n)(items[i].key) == LastUse(calls, n, items[i].key);
  }

  lemma {:induction false} KeptNoMore(items: seq<Item>, n: nat, now: real, age: real)
    requires n <= |items|
    ensures |Kept(items, n, now, age)| <= n
  {
    if n > 0 {
      KeptNoMore(items, n - 1, now, age);
    }
  }

  lemma StepNeverFull(max: nat, s: State, c: Call, bound: nat)
    requires |s.items| <= bound && bound == if max >= 1 then max - 1 else 0
    ensures |Step(max, s, c).items| <= bound
  {
    if c.op.Clear? {
      KeptNoMore(s.items, |s.items|, c.now, c.op.age);
    }
  }

  /** After any run the cache holds fewer than max entries, whatever the keys. */
  lemma {:induction false} NeverFull(max: nat, calls: seq<Call>, n: nat)
    requires n <= |calls|
    ensures |Run(max, calls, n).items| <= if max >= 1 then max - 1 else 0
  {
    if n > 0 {
      NeverFull(max, calls, n - 1);
      StepNeverFull(max, Run(max, calls, n - 1), calls[n - 1], if max >= 1 then max - 1 else 0);
    }
  }

  // ---------- expiry ----------

  ghost predicate Monotone(calls: seq<Call>) {
    forall i, j :: 0 <= i < j < |calls| ==> calls[i].now <= calls[j].now
  }

  predicate Expired(x: Item, now: real, age: real) {
    now - x.ts > age
  }

  lemma OlderExpired(items: seq<Item>, n: nat, now: real, age: real)
    requires 0 < n <= |items| && Expired(items[n - 1], now, age)
    requires forall i, j :: 0 <= i < j < |items| ==> items[i].ts <= items[j].ts
    ensures forall i :: 0 <= i < n ==> Expired(items[i], now, age)
  {
  }

  /** How many of the first n items are older than age, when the older come first. */
  lemma {:induction false} KeptIsSuffix(items: seq<Item>, n: nat, now: real, age: real) returns (k: nat)
    requires n <= |items|
    requires forall i, j :: 0 <= i < j < |items| ==> items[i].ts <= items[j].ts
    ensures k <= n && Kept(items, n, now, age) == items[k..n]
    ensures forall i :: 0 <= i < n ==> (i < k <==> Expired(items[i], now, age))
  {
    if n == 0 {
      k := 0;
    } else {
      k := KeptIsSuffix(items, n - 1, now, age);
      if Expired(items[n - 1], now, age) {
        OlderExpired(items, n, now, age);
        assert items[k..n - 1] == items[n..n] == [];
        k := n;
      } else {
        assert items[k..n] == items[k..n - 1] + [items[n - 1]];
      }
    }
  }

  lemma ClearKeeps(max: nat, calls: seq<Call>, n: nat)
    requires n < |calls| && calls[n].op.Clear?
    ensures var items := Run(max, calls, n).items;
            Run(max, calls, n + 1).items == Kept(items, |items|, calls[n].now, calls[n].op.age)
  {
  }

  /** Under a monotone clock, cache_clear removes exactly a prefix of the order. */
  lemma ClearRemovesPrefix(max: nat, calls: seq<Call>, n: nat) returns (k: nat)
    requires n < |calls| && InsertsNew(max, calls, n) && Monotone(calls) && calls[n].op.Clear?
    ensures var items := Run(max, calls, n).items;
            && k <= |items| && Run(max, calls, n + 1).items == items[k..]
            && forall i :: 0 <= i < |items| ==> (i < k <==> calls[n].now - items[i].ts > calls[n].op.age)
  {
    OrderedByLastUse(max, calls, n);
    ClearKeeps(max, calls, n);
    k := KeptOfRanked(Run(max, calls, n).items, calls, n, calls[n].now, calls[n].op.age);
  }

  lemma KeptOfRanked(items: seq<Item>, calls: seq<Call>, n: nat, now: real, age: real) returns (k: nat)
    requires n <= |calls| && Monotone(calls) && Ranked(items, Rank(calls, n), Clock(calls))
    ensures k <= |items| && Kept(items, |items|, now, age) == items[k..]
    ensures forall i :: 0 <= i < |items| ==> (i < k <==> now - items[i].ts > age)
  {
    Aged(items, calls, n);
    k := KeptIsSuffix(items, |items|, now, age);
    assert items[k..|items|] == items[k..];
  }

  lemma Aged(items: seq<Item>, calls: seq<Call>, n: nat)
    requires n <= |calls| && Monotone(calls) && Ranked(items, Rank(calls, n), Clock(calls))
    ensures forall i, j :: 0 <= i < j < |items| ==> items[i].ts <= items[j].ts
  {
  }

  // ---------- what is held ----------

  predicate Has(items: seq<Item>, key: seq<byte>) {
    exists i :: 0 <= i < |items| && items[i].key == key
  }

  predicate HasFresh(items: seq<Item>, key: seq<byte>, now: real, age: real) {
    exists i :: 0 <= i < |items| && items[i].key == key && now - items[i].ts <= age
  }

  predicate Unique(items: seq<Item>) {
    forall i, j :: 0 <= i < j < |items| ==> items[i].key != items[j].key
  }

  lemma {:induction false} KeptHas(items: seq<Item>, n: nat, now: real, age: real, key: seq<byte>)
    requires n <= |items|
    ensures Has(Kept(items, n, now, age), key) <==> HasFresh(items[..n], key, now, age)
  {
    if n > 0 {
      KeptHas(items, n - 1, now, age, key);
      var kept := Kept(items, n - 1, now, age);
      assert kept + [] == kept;
      assert items[..n] == items[..n - 1] + [items[n - 1]];
      HasMore(kept, items[n - 1], key);
      FreshMore(items[..n - 1], items[n - 1], now, age, key);
    }
  }

  lemma HasMore(items: seq<Item>, x: Item, key: seq<byte>)
    ensures Has(items + [x], key) <==> Has(items, key) || x.key == key
  {
    assert (items + [x])[|items|] == x;
    if Has(items, key) {
      var i :| 0 <= i < |items| && items[i].key == key;
      assert (items + [x])[i].key == key;
    }
  }

  lemma FreshMore(items: seq<Item>, x: Item, now: real, age: real, key: seq<byte>)
    ensures HasFresh(items + [x], key, now, age) <==>
            HasFresh(items, key, now, age) || (x.key == key && now - x.ts <= age)
  {
    assert (items + [x])[|items|] == x;
    if HasFresh(items, key, now, age) {
      var i :| 0 <= i < |items| && items[i].key == key && now - items[i].ts <= age;
      assert (items + [x])[i] == items[i];
    }
  }

  lemma HasDropped(items: seq<Item>, i: nat, key: seq<byte>)
    requires i < |items| && Unique(items)
    ensures Has(Drop(items, i), key) <==> Has(items, key) && key != items[i].key
  {
    DropIs(items, i);
    if Has(items, key) && key != items[i].key {
      var j :| 0 <= j < |items| && items[j].key == key;
      assert Drop(items, i)[if j < i then j else j - 1].key == key;
    }
  }

  /** Which keys are held after a call: an insertion adds one and drops the first when the cache is full, a look-up
      changes none, a removal drops one, and clearing drops those that are too old. */
  lemma KeysExactly(max: nat, s: State, c: Call, key: seq<byte>)
    requires Unique(s.items) && (c.op.Insert? ==> !Has(s.items, c.op.key))
    ensures Has(Step(max, s, c).items, key) <==>
              match c.op
              case Insert(k, _) =>
                && (key == k || Has(s.items, key))
                && (|s.items| + 1 >= max ==> key != if s.items == [] then k else s.items[0].key)
              case Lookup(_) => Has(s.items, key)
              case KeyExist(_) => Has(s.items, key)
              case Remove(k) => key != k && Has(s.items, key)
              case Clear(age) => HasFresh(s.items, key, c.now, age)
  {
    match c.op
    case Insert(k, data) =>
      var items := s.items + [Item(k, data, c.now)];
      HasMore(s.items, items[|s.items|], key);
      HasDropped(items, 0, key);
      assert Drop(items, 0) == items[1..];
    case Lookup(k) => HasTouched(s.items, k, c.now, key);
    case KeyExist(k) => HasTouched(s.items, k, c.now, key);
    case Remove(k) =>
      var i := Find(s.items, |s.items|, k);
      assert s.items[..|s.items|] == s.items;
      if i >= 0 {
        HasDropped(s.items, i, key);
      }
    case Clear(age) =>
      KeptHas(s.items, |s.items|, c.now, age, key);
      assert s.items[..|s.items|] == s.items;
  }

  lemma HasTouched(items: seq<Item>, k: seq<byte>, now: real, key: seq<byte>)
    requires Unique(items)
    ensures Has(Touch(items, k, now), key) <==> Has(items, key)
  {
    var i := Find(items, |items|, k);
    if i >= 0 {
      HasDropped(items, i, key);
      HasMore(Drop(items, i), items[i].(ts := now), key);
    }
  }

  /** The last of the first n calls that inserted the key, or -1. */
  function LastInsert(calls: seq<Call>, n: nat, key: seq<byte>): (i: int)
    requires n <= |calls|
    ensures -1 <= i < n && (i >= 0 ==> calls[i].op.Insert? && calls[i].op.key == key)
  {
    if n == 0 then -1
    else if calls[n - 1].op.Insert? && calls[n - 1].op.key == key then n - 1
    else LastInsert(calls, n - 1, key)
  }

  /** Every item of the second has key and datum of one of the first. */
  predicate From(before: seq<Item>, after: seq<Item>) {
    forall i :: 0 <= i < |after| ==>
      exists j :: 0 <= j < |before| && before[j].key == after[i].key && before[j].data == after[i].data
  }

  lemma {:induction false} KeptFrom(items: seq<Item>, n: nat, now: real, age: real)
    requires n <= |items|
    ensures From(items, Kept(items, n, now, age))
  {
    if n > 0 {
      KeptFrom(items, n - 1, now, age);
    }
  }

  lemma StepFrom(max: nat, s: State, c: Call)
    ensures From(if c.op.Insert? then s.items + [Item(c.op.key, c.op.data, c.now)] else s.items, Step(max, s, c).items)
  {
    match c.op
    case Clear(age) => KeptFrom(s.items, |s.items|, c.now, age);
    case _ =>
  }

  /** An item has the datum that was inserted last under its key. */
  predicate Latest(calls: seq<Call>, n: nat, x: Item)
    requires n <= |calls|
  {
    var i := LastInsert(calls, n, x.key);
    i >= 0 && x.data == calls[i].op.data
  }

  lemma StepLatest(max: nat, s: State, calls: seq<Call>, n: nat, i: nat)
    requires 0 < n <= |calls| && i < |Step(max, s, calls[n - 1]).items|
    requires forall j :: 0 <= j < |s.items| ==> Latest(calls, n - 1, s.items[j])
    requires calls[n - 1].op.Insert? ==> Absent(s.items, calls[n - 1].op.key)
    ensures Latest(calls, n, Step(max, s, calls[n - 1]).items[i])
  {
    var c := calls[n - 1];
    StepFrom(max, s, c);
    var before := if c.op.Insert? then s.items + [Item(c.op.key, c.op.data, c.now)] else s.items;
    var x := Step(max, s, c).items[i];
    var j :| 0 <= j < |before| && before[j].key == x.key && before[j].data == x.data;
    if j < |s.items| {
      assert Latest(calls, n - 1, s.items[j]);
    }
  }

  /** What is held under a key is what was inserted last under it. */
  lemma {:induction false} DatumIsLastInserted(max: nat, calls: seq<Call>, n: nat, i: nat)
    requires n <= |calls| && InsertsNew(max, calls, n) && i < |Run(max, calls, n).items|
    ensures Latest(calls, n, Run(max, calls, n).items[i])
  {
    if n > 0 {
      var s := Run(max, calls, n - 1);
      forall j | 0 <= j < |s.items|
        ensures Latest(calls, n - 1, s.items[j])
      {
        DatumIsLastInserted(max, calls, n - 1, j);
      }
      StepLatest(max, s, calls, n, i);
    }
  }

  // ---------- conservation ----------

  /** How many of the first n elements satisfy p. */
  ghost function Count<T>(s: seq<T>, n: nat, p: T -> bool): nat
    requires n <= |s|
  {
    if n == 0 then 0 else Count(s, n - 1, p) + if p(s[n - 1]) then 1 else 0
  }

  lemma {:induction false} CountAgree<T>(s: seq<T>, t: seq<T>, n: nat, p: T -> bool)
    requires n <= |s| && n <= |t| && forall i :: 0 <= i < n ==> s[i] == t[i]
    ensures Count(s, n, p) == Count(t, n, p)
  {
    if n > 0 {
      CountAgree(s, t, n - 1, p);
    }
  }

  lemma {:induction false} CountConcat<T>(a: seq<T>, b: seq<T>, c: seq<T>, m: nat, p: T -> bool)
    requires m <= |b| && c == a + b
    ensures Count(c, |a| + m, p) == Count(a, |a|, p) + Count(b, m, p)
  {
    if m == 0 {
      CountAgree(a, c, |a|, p);
    } else {
      CountConcat(a, b, c, m - 1, p);
    }
  }

  lemma CountAppend<T>(a: seq<T>, x: T, p: T -> bool)
    ensures Count(a + [x], |a| + 1, p) == Count(a, |a|, p) + if p(x) then 1 else 0
  {
    CountAgree(a, a + [x], |a|, p);
  }

  /** w is s without its i-th element. */
  lemma {:induction false} CountDrop<T>(s: seq<T>, i: nat, w: seq<T>, n: nat, p: T -> bool)
    requires i < n <= |s| == |w| + 1
    requires (forall j :: 0 <= j < i ==> w[j] == s[j]) && forall j :: i <= j < |w| ==> w[j] == s[j + 1]
    ensures Count(s, n, p) == Count(w, n - 1, p) + if p(s[i]) then 1 else 0
  {
    if n == i + 1 {
      CountAgree(s, w, i, p);
    } else {
      CountDrop(s, i, w, n - 1, p);
    }
  }

  ghost function Carries(d: nat): Item -> bool {
    (x: Item) => x.data == d
  }

  ghost function Is(d: nat): nat -> bool {
    x => x == d
  }

  predicate Brings(op: Op, d: nat) {
    op.Insert? && op.data == d
  }

  /** How often the first n calls insert datum d. */
  ghost function Given(calls: seq<Call>, n: nat, d: nat): nat
    requires n <= |calls|
  {
    if n == 0 then 0 else Given(calls, n - 1, d) + if Brings(calls[n - 1].op, d) then 1 else 0
  }

  /** How often datum d is in the cache or has been freed. */
  ghost function Present(s: State, d: nat): nat {
    Count(s.items, |s.items|, Carries(d)) + Count(s.freed, |s.freed|, Is(d))
  }

  lemma DropIs<T>(s: seq<T>, i: nat)
    requires i < |s|
    ensures |Drop(s, i)| == |s| - 1 && (forall j :: 0 <= j < i ==> Drop(s, i)[j] == s[j])
    ensures forall j :: i <= j < |s| - 1 ==> Drop(s, i)[j] == s[j + 1]
  {
  }

  lemma CountWithout(items: seq<Item>, i: nat, d: nat)
    requires i < |items|
    ensures Count(items, |items|, Carries(d)) ==
              Count(Drop(items, i), |items| - 1, Carries(d)) + if items[i].data == d then 1 else 0
  {
    DropIs(items, i);
    CountDrop(items, i, Drop(items, i), |items|, Carries(d));
  }

  lemma CountRelease(freed: seq<nat>, x: Item, d: nat)
    requires d != NULL
    ensures var after := freed + Release(x);
            Count(after, |after|, Is(d)) == Count(freed, |freed|, Is(d)) + if x.data == d then 1 else 0
  {
    if x.data != NULL {
      CountAppend(freed, x.data, Is(d));
    } else {
      assert freed + Release(x) == freed;
    }
  }

  lemma CountTouch(items: seq<Item>, key: seq<byte>, now: real, d: nat)
    ensures var after := Touch(items, key, now);
            Count(after, |after|, Carries(d)) == Count(items, |items|, Carries(d))
  {
    var i := Find(items, |items|, key);
    if i >= 0 {
      CountWithout(items, i, d);
      CountAppend(Drop(items, i), items[i].(ts := now), Carries(d));
    }
  }

  lemma {:induction false} CountKept(items: seq<Item>, n: nat, now: real, age: real, d: nat)
    requires n <= |items| && d != NULL
    ensures var kept, gone := Kept(items, n, now, age), Gone(items, n, now, age);
            Count(items, n, Carries(d)) == Count(kept, |kept|, Carries(d)) + Count(gone, |gone|, Is(d))
  {
    if n > 0 {
      CountKept(items, n - 1, now, age, d);
      var x, kept, gone := items[n - 1], Kept(items, n - 1, now, age), Gone(items, n - 1, now, age);
      if now - x.ts > age {
        CountRelease(gone, x, d);
        assert kept + [] == kept;
      } else {
        CountAppend(kept, x, Carries(d));
        assert gone + [] == gone;
      }
    }
  }

  lemma InsertConserves(max: nat, s: State, x: Item, d: nat)
    requires d != NULL
    ensures Present(Inserted(max, s, x), d) == Present(s, d) + if x.data == d then 1 else 0
  {
    var items := s.items + [x];
    CountAppend(s.items, x, Carries(d));
    CountDrop(items, 0, items[1..], |items|, Carries(d));
    CountRelease(s.freed, items[0], d);
  }

  lemma TouchConserves(s: State, key: seq<byte>, now: real, d: nat)
    ensures Present(Touched(s, key, now), d) == Present(s, d)
  {
    CountTouch(s.items, key, now, d);
  }

  lemma RemoveConserves(s: State, key: seq<byte>, d: nat)
    requires d != NULL
    ensures Present(Removed(s, key), d) == Present(s, d)
  {
    var i := Find(s.items, |s.items|, key);
    if i >= 0 {
      CountWithout(s.items, i, d);
      CountRelease(s.freed, s.items[i], d);
    }
  }

  lemma ClearConserves(s: State, now: real, age: real, d: nat)
    requires d != NULL
    ensures Present(Cleared(s, now, age), d) == Present(s, d)
  {
    CountKept(s.items, |s.items|, now, age, d);
    var gone := Gone(s.items, |s.items|, now, age);
    CountConcat(s.freed, gone, s.freed + gone, |gone|, Is(d));
  }

  lemma StepConserves(max: nat, s: State, c: Call, d: nat)
    requires d != NULL
    ensures Present(Step(max, s, c), d) == Present(s, d) + if Brings(c.op, d) then 1 else 0
  {
    match c.op
    case Insert(key, data) => InsertConserves(max, s, Item(key, data, c.now), d);
    case Lookup(key) => TouchConserves(s, key, c.now, d);
    case KeyExist(key) => TouchConserves(s, key, c.now, d);
    case Remove(key) => RemoveConserves(s, key, d);
    case Clear(age) => ClearConserves(s, c.now, age, d);
  }

  /** Over every run, a non-NULL datum is in the cache or freed exactly as often as it was inserted: nothing is lost,
      and what is freed is freed once and gone from the cache. */
  lemma {:induction false} NothingLostOrFreedTwice(max: nat, calls: seq<Call>, n: nat, d: nat)
    requires n <= |calls| && d != NULL
    ensures Present(Run(max, calls, n), d) == Given(calls, n, d)
  {
    if n > 0 {
      NothingLostOrFreedTwice(max, calls, n - 1, d);
      StepConserves(max, Run(max, calls, n - 1), calls[n - 1], d);
    }
  }
}
