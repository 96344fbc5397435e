/**
 The connection cache of src/cache.c, on the hash table it uses.
 */
module ConnCache {
  import opened Bytes
  import opened Hiding
  import opened UtHash
  import opened HashTable
  import opened CacheSpec

  /** The items are what the entries say, in the same order. */
  ghost predicate Shows(items: seq<Item>, order: seq<Entry>)
    reads order`ts
  {
    |items| == |order| && forall i :: 0 <= i < |order| ==> items[i] == Item(order[i].key, order[i].data, order[i].ts)
  }

  lemma ShowsDrop(items: seq<Item>, order: seq<Entry>, i: nat)
    requires Shows(items, order) && i < |order|
    ensures Shows(Drop(items, i), Drop(order, i))
  {
  }

  ghost predicate UniqueKeys(order: seq<Entry>) {
    forall i, j :: 0 <= i < j < |order| ==> order[i].key != order[j].key
  }

  lemma UniqueDrop(order: seq<Entry>, i: nat)
    requires UniqueKeys(order) && i < |order|
    ensures UniqueKeys(Drop(order, i))
  {
  }

  /** The table is sound and holds the items, under different keys. */
  ghost predicate Cached(table: Table, items: seq<Item>)
    reads table, table.tbl.buckets, table.view.members, table.view.order
  {
    forall k {:trigger InCache(k)} :: InCache(k) ==>
      table.Valid() && Shows(items, table.view.order) && UniqueKeys(table.view.order)
  }

  /** HASH_ADD_KEYPTR of an entry whose key is new. */
  method AddEntry(table: Table, ghost items: seq<Item>, e: Entry, ghost x: Item)
    requires Cached(table, items) && Absent(items, e.key) && e !in table.view.members && x == Item(e.key, e.data, e.ts)
    modifies table, table.tbl.buckets, e`hashv, e`next, e`prev, e`hhNext, e`hhPrev,
             table.view.members`hhNext, table.view.members`hhPrev, table.view.members`next
    ensures Cached(table, items + [x]) && (fresh(table.tbl.buckets) || table.tbl.buckets == old(table.tbl.buckets))
    ensures table.view.order == old(table.view.order) + [e] && table.view.members == old(table.view.members) + {e}
  {
    assert InCache(0);
    assert forall i :: 0 <= i < |table.view.order| ==> items[i].key == table.view.order[i].key;
    table.Add(e);
  }

  /** HASH_DELETE of the i-th entry. */
  method DropEntry(table: Table, ghost items: seq<Item>, ghost i: nat, e: Entry)
    requires Cached(table, items) && i < |items| == |table.view.order| && e == table.view.order[i]
    modifies table, table.tbl.buckets,
             table.view.members`hhNext, table.view.members`hhPrev, table.view.members`next, table.view.members`prev
    ensures Cached(table, Drop(items, i)) && table.tbl.buckets == old(table.tbl.buckets)
    ensures table.view.order == Drop(old(table.view.order), i) && table.view.members == old(table.view.members) - {e}
  {
    assert InCache(0);
    ShowsDrop(items, table.view.order, i);
    UniqueDrop(table.view.order, i);
    table.Remove(i, e);
  }

  lemma CachedFacts(table: Table, items: seq<Item>)
    requires Cached(table, items)
    ensures |items| == |table.view.order|
    ensures forall i :: 0 <= i < |items| ==>
              table.view.order[i] in table.view.members
              && items[i] == Item(table.view.order[i].key, table.view.order[i].data, table.view.order[i].ts)
  {
    assert InCache(0);
    MembersListed(table.tbl, table.view);
  }

  lemma OneKey(table: Table, items: seq<Item>, i: nat, j: nat)
    requires Cached(table, items) && i < |items| && j < |items| && items[i].key == items[j].key
    ensures i == j
  {
    assert InCache(0);
  }

  /** The log after an entry is freed. */
  method Free(e: Entry, ghost x: Item) returns (log: seq<nat>)
    requires e.data == x.data
    ensures log == Release(x)
  {
    log := [];
    if e.data != NULL {
      log := [e.data];
    }
  }

  /** HASH_FIND, in terms of the items. */
  method FindEntry(table: Table, ghost items: seq<Item>, key: seq<byte>) returns (r: Entry?, ghost i: int)
    requires Cached(table, items)
    ensures i == Find(items, |items|, key) && |items| == |table.view.order|
    ensures if i < 0 then r == null else r == table.view.order[i] && r in table.view.members
  {
    assert InCache(0);
    r, i := table.Find(key);
    if r != null {
      assert items[i].key == key && items[..|items|] == items;
      OneKey(table, items, i, Find(items, |items|, key));
    } else {
      i := -1;
    }
  }

  /** The eviction at the end of cache_insert: the first entry goes. */
  method Evict(table: Table, ghost items: seq<Item>) returns (log: seq<nat>)
    requires Cached(table, items) && |items| > 0
    modifies table, table.tbl.buckets,
             table.view.members`hhNext, table.view.members`hhPrev, table.view.members`next, table.view.members`prev
    ensures Cached(table, items[1..]) && log == Release(items[0])
    ensures table.tbl.buckets == old(table.tbl.buckets) && table.view.members <= old(table.view.members)
  {
    CachedFacts(table, items);
    var first := FirstEntry(table, items);
    log := Free(first, items[0]);
    DropEntry(table, items, 0, first);
    assert Drop(items, 0) == items[1..];
  }

  method FirstEntry(table: Table, ghost items: seq<Item>) returns (r: Entry?)
    requires Cached(table, items)
    ensures r == At(table.view.order, 0)
  {
    assert InCache(0);
    r := table.First();
  }

  method NextEntry(table: Table, ghost items: seq<Item>, ghost i: nat, e: Entry?) returns (r: Entry?)
    requires Cached(table, items) && e == At(table.view.order, i)
    ensures r == At(table.view.order, i + 1)
  {
    assert InCache(0);
    if e == null {
      r := null;
    } else {
      r := table.Next(i, e);
    }
  }

  method CountEntries(table: Table, ghost items: seq<Item>) returns (n: nat)
    requires Cached(table, items)
    ensures n == |items|
  {
    assert InCache(0);
    n := table.Count();
  }

  /** cache_lookup and cache_key_exist: an entry that is found moves to the end, with a new time. */
  method TouchEntry(table: Table, ghost items: seq<Item>, key: seq<byte>, now: real) returns (found: bool, data: nat)
    requires Cached(table, items)
    modifies table, table.tbl.buckets, table.view.members
    ensures Cached(table, Touch(items, key, now))
    ensures fresh(table.tbl.buckets) || table.tbl.buckets == old(table.tbl.buckets)
    ensures table.view.members == old(table.view.members)
    ensures var i := Find(items, |items|, key); found == (i >= 0) && data == if i < 0 then NULL else items[i].data
  {
    var r, i := FindEntry(table, items, key);
    found, data := r != null, NULL;
    if r != null {
      CachedFacts(table, items);
      data := r.data;
      Requeue(table, items, i, r, now);
    }
  }

  /** HASH_DELETE, a new time, and HASH_ADD_KEYPTR. */
  method Requeue(table: Table, ghost items: seq<Item>, ghost i: nat, e: Entry, now: real)
    requires Cached(table, items) && i < |items| == |table.view.order|
    requires e == table.view.order[i] && e in table.view.members
    requires items[i].key == e.key && items[i].data == e.data
    modifies table, table.tbl.buckets, table.view.members
    ensures Cached(table, Drop(items, i) + [items[i].(ts := now)])
    ensures fresh(table.tbl.buckets) || table.tbl.buckets == old(table.tbl.buckets)
    ensures table.view.members == old(table.view.members)
  {
    forall j | 0 <= j < |items| && j != i
      ensures items[j].key != items[i].key
    {
      if items[j].key == items[i].key {
        OneKey(table, items, i, j);
      }
    }
    DropEntry(table, items, i, e);
    e.ts := now;
    AddEntry(table, Drop(items, i), e, items[i].(ts := now));
  }

  /** What cache_clear has left after k items: those it kept, and the rest. */
  ghost function Remaining(items: seq<Item>, k: nat, now: real, age: real): seq<Item>
    requires k <= |items|
  {
    Kept(items, k, now, age) + items[k..]
  }

  lemma RemainingStep(items: seq<Item>, k: nat, now: real, age: real)
    requires k < |items|
    ensures var p := |Kept(items, k, now, age)|;
            && p < |Remaining(items, k, now, age)| && Remaining(items, k, now, age)[p] == items[k]
            && Remaining(items, k + 1, now, age) ==
               if now - items[k].ts > age then Drop(Remaining(items, k, now, age), p) else Remaining(items, k, now, age)
  {
  }

  /** One round of the loop of cache_clear; p counts the entries kept before e. */
  method ClearOne(table: Table, ghost items: seq<Item>, ghost k: nat, e: Entry, tmp: Entry?, now: real, age: real)
    returns (log: seq<nat>)
    requires k < |items| && Cached(table, Remaining(items, k, now, age))
    requires e == At(table.view.order, |Kept(items, k, now, age)|)
    requires tmp == At(table.view.order, |Kept(items, k, now, age)| + 1)
    modifies table, table.tbl.buckets,
             table.view.members`hhNext, table.view.members`hhPrev, table.view.members`next, table.view.members`prev
    ensures Cached(table, Remaining(items, k + 1, now, age))
    ensures log == if now - items[k].ts > age then Release(items[k]) else []
    ensures tmp == At(table.view.order, |Kept(items, k + 1, now, age)|)
    ensures table.tbl.buckets == old(table.tbl.buckets) && table.view.members <= old(table.view.members)
  {
    ghost var p, cur := |Kept(items, k, now, age)|, Remaining(items, k, now, age);
    RemainingStep(items, k, now, age);
    CachedFacts(table, cur);
    log := [];
    if now - e.ts > age {
      log := Free(e, items[k]);
      DropEntry(table, cur, p, e);
    }
  }

  /** The loop of cache_clear has seen k items, and goes on with e and then tmp. */
  ghost predicate Clearing(table: Table, items: seq<Item>, k: nat, now: real, age: real, e: Entry?, tmp: Entry?,
                           log: seq<nat>)
    reads table, table.tbl.buckets, table.view.members, table.view.order
  {
    && k <= |items| && Cached(table, Remaining(items, k, now, age)) && log == Gone(items, k, now, age)
    && e == At(table.view.order, |Kept(items, k, now, age)|)
    && tmp == At(table.view.order, |Kept(items, k, now, age)| + 1)
  }

  /** One round, and the moves of HASH_ITER. */
  method ClearStep(table: Table, ghost items: seq<Item>, ghost k: nat, now: real, age: real, e: Entry, tmp: Entry?,
                   log: seq<nat>)
    returns (tmp': Entry?, log': seq<nat>)
    requires Clearing(table, items, k, now, age, e, tmp, log)
    modifies table, table.tbl.buckets,
             table.view.members`hhNext, table.view.members`hhPrev, table.view.members`next, table.view.members`prev
    ensures k < |items| && Clearing(table, items, k + 1, now, age, tmp, tmp', log')
    ensures table.tbl.buckets == old(table.tbl.buckets) && table.view.members <= old(table.view.members)
  {
    CachedFacts(table, Remaining(items, k, now, age));
    var more := ClearOne(table, items, k, e, tmp, now, age);
    log' := log + more;
    tmp' := NextEntry(table, Remaining(items, k + 1, now, age), |Kept(items, k + 1, now, age)|, tmp);
  }

  lemma ClearDone(table: Table, items: seq<Item>, k: nat, now: real, age: real, tmp: Entry?, log: seq<nat>)
    requires Clearing(table, items, k, now, age, null, tmp, log)
    ensures Cached(table, Kept(items, |items|, now, age)) && log == Gone(items, |items|, now, age)
  {
    CachedFacts(table, Remaining(items, k, now, age));
    assert Remaining(items, k, now, age) == Kept(items, k, now, age);
  }

  method ClearStart(table: Table, ghost items: seq<Item>, now: real, age: real) returns (e: Entry?, tmp: Entry?)
    requires Cached(table, items)
    ensures Clearing(table, items, 0, now, age, e, tmp, [])
  {
    assert Remaining(items, 0, now, age) == items;
    e := FirstEntry(table, items);
    tmp := NextEntry(table, items, 0, e);
  }

  /** The loop of cache_clear. */
  method ClearEntries(table: Table, ghost items: seq<Item>, now: real, age: real) returns (log: seq<nat>)
    requires Cached(table, items)
    modifies table, table.tbl.buckets,
             table.view.members`hhNext, table.view.members`hhPrev, table.view.members`next, table.view.members`prev
    ensures Cached(table, Kept(items, |items|, now, age)) && log == Gone(items, |items|, now, age)
    ensures table.tbl.buckets == old(table.tbl.buckets) && table.view.members <= old(table.view.members)
  {
    log := [];
    ghost var k := 0;
    var e, tmp := ClearStart(table, items, now, age);
    while e != null
      invariant k <= |items| && Clearing(table, items, k, now, age, e, tmp, log)
      invariant table.tbl.buckets == old(table.tbl.buckets) && table.view.members <= old(table.view.members)
      decreases |items| - k
    {
      var next := tmp;
      tmp, log := ClearStep(table, items, k, now, age, e, tmp, log);
      e, k := next, k + 1;
    }
    ClearDone(table, items, k, now, age, tmp, log);
  }

  /** Every datum of the first n items, in order. */
  ghost function AllData(items: seq<Item>, n: nat): seq<nat>
    requires n <= |items|
  {
    if n == 0 then [] else AllData(items, n - 1) + Release(items[n - 1])
  }

  /** cache_insert, on the table. */
  method InsertEntry(table: Table, ghost items: seq<Item>, max: nat, key: seq<byte>, data: nat, now: real)
    returns (log: seq<nat>)
    requires Cached(table, items) && Absent(items, key)
    modifies table, table.tbl.buckets, table.view.members
    ensures Cached(table, Inserted(max, State(items, []), Item(key, data, now)).items)
    ensures log == Inserted(max, State(items, []), Item(key, data, now)).freed
    ensures fresh(table.tbl.buckets) || table.tbl.buckets == old(table.tbl.buckets)
    ensures fresh(table.view.members - old(table.view.members))
  {
    var e := new Entry(key, data, now);
    ghost var all := items + [Item(key, data, now)];
    AddEntry(table, items, e, Item(key, data, now));
    var n := CountEntries(table, all);
    log := [];
    if n >= max {
      log := Evict(table, all);
    }
  }

  /** cache_remove, on the table. */
  method RemoveEntry(table: Table, ghost items: seq<Item>, key: seq<byte>) returns (log: seq<nat>)
    requires Cached(table, items)
    modifies table, table.tbl.buckets,
             table.view.members`hhNext, table.view.members`hhPrev, table.view.members`next, table.view.members`prev
    ensures Cached(table, Removed(State(items, []), key).items) && log == Removed(State(items, []), key).freed
    ensures table.tbl.buckets == old(table.tbl.buckets) && table.view.members <= old(table.view.members)
  {
    log := [];
    var r, i := FindEntry(table, items, key);
    if r != null {
      CachedFacts(table, items);
      log := Free(r, items[i]);
      DropEntry(table, items, i, r);
    }
  }

  /** One round of the loop of cache_delete. */
  method DeleteOne(table: Table, ghost items: seq<Item>, ghost k: nat, e: Entry) returns (tmp: Entry?, log: seq<nat>)
    requires k <= |items| && Cached(table, items[k..]) && e == At(table.view.order, 0)
    modifies table, table.tbl.buckets,
             table.view.members`hhNext, table.view.members`hhPrev, table.view.members`next, table.view.members`prev
    ensures k < |items| && Cached(table, items[k + 1..]) && log == Release(items[k]) && tmp == At(table.view.order, 0)
    ensures table.tbl.buckets == old(table.tbl.buckets) && table.view.members <= old(table.view.members)
  {
    ghost var rest := items[k..];
    CachedFacts(table, rest);
    tmp := NextEntry(table, rest, 0, e);
    log := Free(e, rest[0]);
    DropEntry(table, rest, 0, e);
    assert Drop(rest, 0) == items[k + 1..];
  }

  /** The loop of cache_delete. */
  method DeleteEntries(table: Table, ghost items: seq<Item>) returns (log: seq<nat>)
    requires Cached(table, items)
    modifies table, table.tbl.buckets,
             table.view.members`hhNext, table.view.members`hhPrev, table.view.members`next, table.view.members`prev
    ensures Cached(table, []) && log == AllData(items, |items|)
    ensures table.tbl.buckets == old(table.tbl.buckets) && table.view.members <= old(table.view.members)
  {
    log := [];
    ghost var k := 0;
    var e := FirstEntry(table, items);
    assert items[0..] == items;
    while e != null
      invariant k <= |items| && Cached(table, items[k..]) && log == AllData(items, k) && e == At(table.view.order, 0)
      invariant table.tbl.buckets == old(table.tbl.buckets) && table.view.members <= old(table.view.members)
      decreases |items| - k
    {
      var more;
      e, more := DeleteOne(table, items, k, e);
      log, k := log + more, k + 1;
    }
    CachedFacts(table, items[k..]);
  }

  /** HASH_CLEAR */
  method ClearTable(table: Table, ghost items: seq<Item>)
    requires Cached(table, items)
    modifies table
    ensures Cached(table, [])
  {
    assert InCache(0);
    table.Clear();
  }

  class Cache {
    const table: Table
    const maxEntries: nat
    /** What has been handed to the free callback. */
    var freed: seq<nat>
    ghost var items: seq<Item>

    ghost predicate Valid()
      reads this, table, table.tbl.buckets, table.view.members, table.view.order
    {
      Cached(table, items)
    }

    ghost function Contents(): State
      reads this
    {
      State(items, freed)
    }

    /** cache_create */
    constructor (capacity: nat, hash: seq<byte> -> nat)
      ensures Valid() && Contents() == State([], []) && maxEntries == capacity
      ensures fresh(table) && fresh(table.tbl.buckets) && table.view.members == {}
    {
      table := new Table(hash);
      maxEntries, freed, items := capacity, [], [];
    }

    method Store(ghost after: seq<Item>, log: seq<nat>)
      requires Cached(table, after)
      modifies this
      ensures Valid() && items == after && freed == old(freed) + log
    {
      items, freed := after, freed + log;
    }

    /** cache_insert */
    method Insert(key: seq<byte>, data: nat, now: real)
      requires Valid() && Absent(items, key)
      modifies this, table, table.tbl.buckets, table.view.members
      ensures Valid() && Contents() == Inserted(maxEntries, old(Contents()), Item(key, data, now))
      ensures fresh(table.tbl.buckets) || table.tbl.buckets == old(table.tbl.buckets)
      ensures fresh(table.view.members - old(table.view.members))
    {
      ghost var after := Inserted(maxEntries, State(items, []), Item(key, data, now)).items;
      var more := InsertEntry(table, items, maxEntries, key, data, now);
      Store(after, more);
    }

    /** cache_lookup: the datum, or NULL. */
    method Lookup(key: seq<byte>, now: real) returns (data: nat)
      requires Valid()
      modifies this, table, table.tbl.buckets, table.view.members
      ensures Valid() && Contents() == Touched(old(Contents()), key, now)
      ensures var i := Find(old(items), |old(items)|, key); data == if i < 0 then NULL else old(items)[i].data
      ensures fresh(table.tbl.buckets) || table.tbl.buckets == old(table.tbl.buckets)
      ensures table.view.members == old(table.view.members)
    {
      ghost var after := Touch(items, key, now);
      var _, datum := TouchEntry(table, items, key, now);
      data := datum;
      Store(after, []);
    }

    /** cache_key_exist */
    method KeyExist(key: seq<byte>, now: real) returns (found: bool)
      requires Valid()
      modifies this, table, table.tbl.buckets, table.view.members
      ensures Valid() && Contents() == Touched(old(Contents()), key, now)
      ensures found <==> Find(old(items), |old(items)|, key) >= 0
      ensures fresh(table.tbl.buckets) || table.tbl.buckets == old(table.tbl.buckets)
      ensures table.view.members == old(table.view.members)
    {
      ghost var after := Touch(items, key, now);
      var hit, _ := TouchEntry(table, items, key, now);
      found := hit;
      Store(after, []);
    }

    /** cache_remove */
    method Remove(key: seq<byte>)
      requires Valid()
      modifies this, table, table.tbl.buckets, table.view.members
      ensures Valid() && Contents() == Removed(old(Contents()), key)
      ensures table.tbl.buckets == old(table.tbl.buckets) && table.view.members <= old(table.view.members)
    {
      ghost var after := Removed(State(items, []), key).items;
      var more := RemoveEntry(table, items, key);
      Store(after, more);
    }

    /** cache_clear */
    method Clear(age: real, now: real)
      requires Valid()
      modifies this, table, table.tbl.buckets, table.view.members
      ensures Valid() && Contents() == Cleared(old(Contents()), now, age)
      ensures table.tbl.buckets == old(table.tbl.buckets) && table.view.members <= old(table.view.members)
    {
      ghost var after := Kept(items, |items|, now, age);
      var more := ClearEntries(table, items, now, age);
      Store(after, more);
    }

    /** cache_delete: every datum still cached is freed, in order, unless the data are to be kept. */
    method Delete(keepData: bool)
      requires Valid()
      modifies this, table, table.tbl.buckets, table.view.members
      ensures Valid()
      ensures Contents() == State([], old(freed) + if keepData then [] else AllData(old(items), |old(items)|))
    {
      var more := [];
      if keepData {
        ClearTable(table, items);
      } else {
        more := DeleteEntries(table, items);
      }
      Store([], more);
    }
  }
}
