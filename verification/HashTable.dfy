/**
 The table that the HASH_ADD_KEYPTR, HASH_DELETE, HASH_FIND and HASH_ITER macros of src/uthash.h maintain:
 an ordered map from keys, kept as a list in insertion order and a bucket index.
 */
module HashTable {
  import opened Bytes
  import opened Hiding
  import opened UtHash

  const INITIAL_NUM_BUCKETS := 32
  const INITIAL_NUM_BUCKETS_LOG2: nat := 5
  const BKT_CAPACITY_THRESH := 10

  ghost predicate Listed(order: seq<Entry>, members: set<Entry>) {
    (forall x :: x in members ==> x in order) && (forall x :: x in order ==> x in members)
  }

  /** The links and the two ends describe the list. */
  ghost predicate ListOk(head: Entry?, tail: Entry?, order: seq<Entry>, members: set<Entry>)
    reads members`next, members`prev
  {
    forall k {:trigger InList(k)} :: InList(k) ==>
      Listed(order, members) && Distinct(order) && head == At(order, 0) && tail == At(order, |order| - 1)
      && NextLinked(order) && PrevLinked(order)
  }

  ghost predicate Hashed(hash: seq<byte> -> nat, order: seq<Entry>)
    reads order`hashv
  {
    forall i :: 0 <= i < |order| ==> order[i].hashv == hash(order[i].key)
  }

  /** The elements are the members of the list, and the hash of each is at hand. */
  ghost predicate Keyed(hash: seq<byte> -> nat, order: seq<Entry>, members: set<Entry>)
    reads members`hashv
  {
    forall k {:trigger InKeys(k)} :: InKeys(k) ==> Listed(order, members) && Hashed(hash, order)
  }

  lemma KeyedPush(hash: seq<byte> -> nat, order: seq<Entry>, members: set<Entry>, e: Entry)
    requires Keyed(hash, order, members) && e.hashv == hash(e.key)
    ensures Keyed(hash, order + [e], members + {e})
  {
    assert InKeys(0);
  }

  lemma KeyedDrop(hash: seq<byte> -> nat, order: seq<Entry>, members: set<Entry>, i: nat)
    requires Keyed(hash, order, members) && Distinct(order) && i < |order|
    ensures Keyed(hash, Drop(order, i), members - {order[i]})
  {
    assert InKeys(0);
    DropDistinct(order, i);
  }

  lemma ListDistinct(head: Entry?, tail: Entry?, order: seq<Entry>, members: set<Entry>)
    requires ListOk(head, tail, order, members)
    ensures Distinct(order)
  {
    assert InList(0);
  }

  /** An element new to the table waits to be put on its chain. */
  lemma FilledGrow(buckets: array<Bucket>, chains: seq<seq<Entry>>, lg: nat, members: set<Entry>, all: set<Entry>,
                   e: Entry)
    requires Indexed(buckets, chains, lg, members, members) && e !in members && all == members + {e}
    ensures Indexed(buckets, chains, lg, all, members)
  {
    assert InIndex(0);
    assert forall b :: 0 <= b < |chains| ==> Within(chains[b], members) && Within(chains[b], all);
  }

  /** HASH_APPEND_LIST, or the same on an empty list. */
  method Append(head: Entry?, tail: Entry?, ghost order: seq<Entry>, ghost members: set<Entry>, e: Entry)
    returns (head': Entry)
    requires ListOk(head, tail, order, members) && e !in members
    modifies e`next, e`prev, members`next
    ensures ListOk(head', e, order + [e], members + {e})
  {
    assert InList(0);
    AppendNext(order, tail, e);
    AppendPrev(order, tail, e);
    head' := if head == null then e else head;
  }

  /** What the table records about its last expansion. */
  datatype Stats = Stats(idealChainMaxlen: nat, nonidealItems: nat, ineffExpands: nat, noexpand: bool)

  /** The end of HASH_EXPAND_BUCKETS: two ineffective expansions in a row are the last. */
  function Judged(stats: Stats, ideal: nat, nonideal: nat, numItems: nat): Stats {
    var ineff := if nonideal > numItems / 2 then stats.ineffExpands + 1 else 0;
    Stats(ideal, nonideal, ineff, stats.noexpand || ineff > 1)
  }

  /** An expansion after which more than half of the elements are in excess of the ideal length of their chains. */
  predicate Ineffective(nonideal: nat, numItems: nat) {
    nonideal > numItems / 2
  }

  /** The statistics after the first n expansions; each has an ideal length, the elements in excess, and all
      elements. */
  function Expansions(es: seq<(nat, nat, nat)>, n: nat): Stats
    requires n <= |es|
  {
    if n == 0 then Stats(0, 0, 0, false)
    else var (ideal, nonideal, items) := es[n - 1]; Judged(Expansions(es, n - 1), ideal, nonideal, items)
  }

  /** Expansion is off exactly after two ineffective ones in a row, and stays off. */
  lemma {:induction false} OffExactly(es: seq<(nat, nat, nat)>, n: nat)
    requires n <= |es|
    ensures Expansions(es, n).noexpand <==>
            exists i :: 0 < i < n && Ineffective(es[i].1, es[i].2) && Ineffective(es[i - 1].1, es[i - 1].2)
    ensures Expansions(es, n).ineffExpands > 0 <==> n > 0 && Ineffective(es[n - 1].1, es[n - 1].2)
    ensures n > 0 ==>
              Expansions(es, n).idealChainMaxlen == es[n - 1].0 && Expansions(es, n).nonidealItems == es[n - 1].1
  {
    if n > 0 {
      OffExactly(es, n - 1);
    }
  }

  /** HASH_EXPAND_BUCKETS */
  method Expand(buckets: array<Bucket>, ghost chains: seq<seq<Entry>>, lg: nat, numItems: nat, stats: Stats,
                ghost members: set<Entry>)
    returns (buckets': array<Bucket>, ghost chains': seq<seq<Entry>>, stats': Stats)
    requires Indexed(buckets, chains, lg, members, members) && numItems > 0
    modifies members`hhNext, members`hhPrev
    ensures fresh(buckets') && Indexed(buckets', chains', lg + 1, members, members)
    ensures stats'.idealChainMaxlen == IdealMaxlen(numItems, lg + 1)
    ensures Counted(buckets'[..], stats'.idealChainMaxlen, stats'.nonidealItems)
    ensures stats' == Judged(stats, stats'.idealChainMaxlen, stats'.nonidealItems, numItems)
  {
    assert InIndex(0);
    var ideal := IdealMaxlen(numItems, lg + 1);
    IdealMaxlenIsCeiling(numItems, lg + 1);
    var nonideal;
    buckets', chains', nonideal := Rehash(buckets, chains, lg, members, ideal);
    stats' := Judged(stats, ideal, nonideal, numItems);
  }

  /** With one element more, the bucket has reached the threshold for expansion. */
  predicate Full(b: Bucket) {
    b.count + 1 >= (b.expandMult + 1) * BKT_CAPACITY_THRESH
  }

  /** HASH_ADD_TO_BKT, before it decides whether to expand. */
  method PushCounted(buckets: array<Bucket>, ghost chains: seq<seq<Entry>>, lg: nat, e: Entry, b: nat,
                     ghost some: set<Entry>, ghost members: set<Entry>)
    returns (full: bool, ghost chains': seq<seq<Entry>>)
    requires e !in some && members == some + {e} && Indexed(buckets, chains, lg, members, some)
    requires b == LowBits(e.hashv, lg) && b < buckets.Length
    modifies buckets, members`hhNext, members`hhPrev
    ensures Indexed(buckets, chains', lg, members, members) && full == Full(old(buckets[b]))
  {
    assert InIndex(0);
    chains' := MoveOne(buckets, chains, lg, members, some, e, b, buckets[b].expandMult);
    full := buckets[b].count >= (buckets[b].expandMult + 1) * BKT_CAPACITY_THRESH;
  }

  lemma BucketExists(buckets: array<Bucket>, chains: seq<seq<Entry>>, lg: nat, members: set<Entry>, some: set<Entry>,
                     h: nat)
    requires Indexed(buckets, chains, lg, members, some)
    ensures LowBits(h, lg) < buckets.Length
  {
    assert InIndex(0);
  }

  /** HASH_ADD_TO_BKT, for bucket b: the table doubles exactly when the bucket is full and expansion is not off. */
  method AddToBucket(buckets: array<Bucket>, ghost chains: seq<seq<Entry>>, lg: nat, numItems: nat, stats: Stats,
                     e: Entry, b: nat, ghost some: set<Entry>, ghost members: set<Entry>)
    returns (buckets': array<Bucket>, ghost chains': seq<seq<Entry>>, lg': nat, stats': Stats)
    requires e !in some && members == some + {e} && Indexed(buckets, chains, lg, members, some) && numItems > 0
    requires b == LowBits(e.hashv, lg) && b < buckets.Length
    modifies buckets, members`hhNext, members`hhPrev
    ensures (fresh(buckets') || buckets' == buckets) && Indexed(buckets', chains', lg', members, members)
    ensures var full := old(buckets[b]).count + 1 >= (old(buckets[b]).expandMult + 1) * 10;
            lg' == if full && !stats.noexpand then lg + 1 else lg
    ensures if lg' == lg then stats' == stats
            else
              && stats'.idealChainMaxlen == IdealMaxlen(numItems, lg')
              && stats' == Judged(stats, stats'.idealChainMaxlen, stats'.nonidealItems, numItems)
              && Counted(buckets'[..], stats'.idealChainMaxlen, stats'.nonidealItems)
  {
    var full;
    buckets', lg', stats' := buckets, lg, stats;
    full, chains' := PushCounted(buckets, chains, lg, e, b, some, members);
    if full && !stats.noexpand {
      buckets', chains', stats' := Expand(buckets, chains', lg, numItems, stats, members);
      lg' := lg + 1;
    }
  }

  /** The table, with the head pointer that the macros keep beside it. */
  datatype UtTable = UtTable(head: Entry?, tail: Entry?, buckets: array<Bucket>, log2NumBuckets: nat, numItems: nat,
                             stats: Stats)

  /** What the table holds: its elements in insertion order, as a set, and by bucket. */
  datatype View = View(order: seq<Entry>, members: set<Entry>, chains: seq<seq<Entry>>)

  /** While there are elements they are counted and indexed. */
  ghost predicate CountOk(t: UtTable, v: View)
    reads t.buckets, v.members`hhNext, v.members`hhPrev, v.members`hashv
  {
    if t.head == null then |v.order| == 0 && v.members == {}
    else t.numItems == |v.order| && Indexed(t.buckets, v.chains, t.log2NumBuckets, v.members, v.members)
  }

  /** HASH_MAKE_TABLE: 32 zeroed buckets. */
  method MakeTable(ghost all: set<Entry>) returns (tbl: UtTable, ghost chains: seq<seq<Entry>>)
    ensures fresh(tbl.buckets) && Indexed(tbl.buckets, chains, tbl.log2NumBuckets, all, {})
    ensures tbl.numItems == 0 && tbl.log2NumBuckets == INITIAL_NUM_BUCKETS_LOG2 && tbl.stats == Expansions([], 0)
  {
    var buckets;
    buckets, chains := EmptyBuckets(INITIAL_NUM_BUCKETS_LOG2, all, INITIAL_NUM_BUCKETS);
    tbl := UtTable(null, null, buckets, INITIAL_NUM_BUCKETS_LOG2, 0, Stats(0, 0, 0, false));
  }

  /** The bucket half of HASH_ADD_KEYPTR, in a table that exists. */
  method CountIn(t: UtTable, ghost chains: seq<seq<Entry>>, e: Entry, ghost some: set<Entry>, ghost all: set<Entry>)
    returns (t': UtTable, ghost chains': seq<seq<Entry>>)
    requires e !in some && all == some + {e} && Indexed(t.buckets, chains, t.log2NumBuckets, all, some)
    modifies t.buckets, all`hhNext, all`hhPrev
    ensures fresh(t'.buckets) || t'.buckets == t.buckets
    ensures Indexed(t'.buckets, chains', t'.log2NumBuckets, all, all) && t'.numItems == t.numItems + 1
  {
    BucketExists(t.buckets, chains, t.log2NumBuckets, all, some, e.hashv);
    var buckets, lg, stats;
    buckets, chains', lg, stats :=
      AddToBucket(t.buckets, chains, t.log2NumBuckets, t.numItems + 1, t.stats, e, LowBits(e.hashv, t.log2NumBuckets),
                  some, all);
    t' := UtTable(null, null, buckets, lg, t.numItems + 1, stats);
  }

  /** The bucket half of HASH_ADD_KEYPTR. */
  method Index(t: UtTable, ghost v: View, e: Entry, ghost all: set<Entry>)
    returns (t': UtTable, ghost chains': seq<seq<Entry>>)
    requires e !in v.members && all == v.members + {e} && CountOk(t, v)
    modifies t.buckets, all`hhNext, all`hhPrev
    ensures fresh(t'.buckets) || t'.buckets == t.buckets
    ensures Indexed(t'.buckets, chains', t'.log2NumBuckets, all, all) && t'.numItems == |v.order| + 1
  {
    if t.head == null {
      t', chains' := MakeTable(all);
      t', chains' := CountIn(t', chains', e, {}, all);
    } else {
      FilledGrow(t.buckets, v.chains, t.log2NumBuckets, v.members, all, e);
      t', chains' := CountIn(t, v.chains, e, v.members, all);
    }
  }

  /** HASH_ADD_KEYPTR once the hash is set. */
  method AddLinked(t: UtTable, ghost v: View, e: Entry, ghost all: set<Entry>) returns (t': UtTable, ghost v': View)
    requires e !in v.members && all == v.members + {e} && CountOk(t, v) && ListOk(t.head, t.tail, v.order, v.members)
    modifies t.buckets, all`hhNext, all`hhPrev, all`next, e`prev
    ensures fresh(t'.buckets) || t'.buckets == t.buckets
    ensures CountOk(t', v') && ListOk(t'.head, t'.tail, v'.order, v'.members)
    ensures v'.order == v.order + [e] && v'.members == all
  {
    var t1, cs := Index(t, v, e, all);
    var h := Append(t.head, t.tail, v.order, v.members, e);
    t' := t1.(head := h, tail := e);
    v' := View(v.order + [e], all, cs);
  }

  ghost predicate TableOk(hash: seq<byte> -> nat, t: UtTable, v: View)
    reads t.buckets, v.members
  {
    CountOk(t, v) && ListOk(t.head, t.tail, v.order, v.members) && Keyed(hash, v.order, v.members)
  }

  /** HASH_ADD_KEYPTR: a new element goes to the end. */
  method AddKeyptr(hash: seq<byte> -> nat, t: UtTable, ghost v: View, e: Entry) returns (t': UtTable, ghost v': View)
    requires TableOk(hash, t, v) && e !in v.members
    modifies t.buckets, e`hashv, e`next, e`prev, e`hhNext, e`hhPrev, v.members`hhNext, v.members`hhPrev, v.members`next
    ensures TableOk(hash, t', v') && (fresh(t'.buckets) || t'.buckets == t.buckets)
    ensures v'.order == v.order + [e] && v'.members == v.members + {e}
  {
    ghost var all := v.members + {e};
    SetHash(hash, v.order, v.members, e, all);
    assert CountOk(t, v);
    t', v' := AddLinked(t, v, e, all);
  }

  method SetHash(hash: seq<byte> -> nat, ghost order: seq<Entry>, ghost members: set<Entry>, e: Entry,
                 ghost all: set<Entry>)
    requires Keyed(hash, order, members) && e !in members && all == members + {e}
    modifies e`hashv
    ensures Keyed(hash, order + [e], all)
  {
    e.hashv := hash(e.key);
    KeyedPush(hash, order, members, e);
  }

  /** The ends of the list without its i-th element. */
  method Ends(head: Entry?, tail: Entry?, ghost order: seq<Entry>, ghost i: nat, e: Entry)
    returns (head': Entry?, tail': Entry?)
    requires Distinct(order) && head == At(order, 0) && tail == At(order, |order| - 1) && i < |order| && e == order[i]
    requires e.next == At(order, i + 1) && e.prev == At(order, i - 1)
    ensures head' == At(Drop(order, i), 0) && tail' == At(Drop(order, i), |order| - 2)
  {
    tail' := if e == tail then e.prev else tail;
    head' := if e.prev == null then e.next else head;
  }

  /** The links of the list without its i-th element. */
  method Detach(ghost order: seq<Entry>, ghost i: nat, e: Entry)
    requires Distinct(order) && NextLinked(order) && PrevLinked(order) && i < |order| && e == order[i]
    modifies order`next, order`prev
    ensures NextLinked(Drop(order, i)) && PrevLinked(Drop(order, i))
  {
    UnlinkNext(order, i, e);
    UnlinkPrev(order, i, e);
  }

  lemma ListedDrop(order: seq<Entry>, members: set<Entry>, i: nat, rest: set<Entry>)
    requires Listed(order, members) && Distinct(order) && i < |order| && rest == members - {order[i]}
    ensures Listed(Drop(order, i), rest) && Distinct(Drop(order, i))
  {
    DropDistinct(order, i);
  }

  /** The list half of HASH_DELETE. */
  method Unlink(head: Entry?, tail: Entry?, ghost order: seq<Entry>, ghost members: set<Entry>, ghost i: nat, e: Entry,
                ghost rest: set<Entry>)
    returns (head': Entry?, tail': Entry?)
    requires ListOk(head, tail, order, members) && i < |order| && e == order[i] && rest == members - {e}
    modifies members`next, members`prev
    ensures ListOk(head', tail', Drop(order, i), rest) && (head' == null <==> |order| == 1)
  {
    assert InList(0);
    ListedDrop(order, members, i, rest);
    head', tail' := Ends(head, tail, order, i, e);
    Detach(order, i, e);
  }

  /** An element is on its chain. */
  lemma OnChain(chains: seq<seq<Entry>>, lg: nat, members: set<Entry>, e: Entry) returns (k: nat)
    requires Holds(chains, lg, members, members) && e in members
    ensures k < |chains[LowBits(e.hashv, lg)]| && chains[LowBits(e.hashv, lg)][k] == e
  {
    k :| 0 <= k < |chains[LowBits(e.hashv, lg)]| && chains[LowBits(e.hashv, lg)][k] == e;
  }

  /** Without e, the others are where they were; c is the chain of e. */
  lemma FilledShrink(chains: seq<seq<Entry>>, lg: nat, members: set<Entry>, e: Entry, c: seq<Entry>, k: nat,
                     rest: set<Entry>)
    requires Contained(chains, members) && Assigned(chains, lg, members) && Holds(chains, lg, members, members)
    requires c == chains[LowBits(e.hashv, lg)] && Distinct(c) && k < |c| && c[k] == e && rest == members - {e}
    ensures var after := chains[LowBits(e.hashv, lg) := Drop(c, k)];
            Contained(after, rest) && Assigned(after, lg, rest) && Holds(after, lg, rest, rest)
  {
    var b := LowBits(e.hashv, lg);
    var after := chains[b := Drop(c, k)];
    DropDistinct(c, k);
    forall b' | 0 <= b' < |chains|
      ensures Within(after[b'], rest) && Placed(after[b'], b', lg)
    {
      assert Within(chains[b'], members) && Placed(chains[b'], b', lg);
    }
  }

  /** HASH_DEL_IN_BKT, on the chain c of e. */
  method Unchain(buckets: array<Bucket>, ghost chains: seq<seq<Entry>>, lg: nat, ghost members: set<Entry>, e: Entry,
                 ghost c: seq<Entry>, ghost k: nat, ghost after: seq<seq<Entry>>, ghost rest: set<Entry>)
    requires Contained(chains, members) && ChainsOk(buckets, chains, members) && Assigned(chains, lg, members)
    requires c == chains[LowBits(e.hashv, lg)] && k < |c| && c[k] == e && Within(c, members)
    requires after == chains[LowBits(e.hashv, lg) := Drop(c, k)] && Contained(after, rest) && rest <= members
    modifies buckets, members`hhNext, members`hhPrev
    ensures ChainsOk(buckets, after, rest)
  {
    BucketDrop(buckets, chains, lg, members, k, e, Drop(c, k));
  }

  /** The bucket half of HASH_DELETE. */
  method Unindex(buckets: array<Bucket>, ghost chains: seq<seq<Entry>>, lg: nat, ghost members: set<Entry>, e: Entry,
                 ghost rest: set<Entry>)
    returns (ghost chains': seq<seq<Entry>>)
    requires Indexed(buckets, chains, lg, members, members) && e in members && rest == members - {e}
    modifies buckets, members`hhNext, members`hhPrev
    ensures Indexed(buckets, chains', lg, rest, rest)
  {
    assert InIndex(0);
    ghost var b := LowBits(e.hashv, lg);
    ghost var c := chains[b];
    ghost var k := OnChain(chains, lg, members, e);
    assert ChainOk(buckets[b], c) && Within(c, members);
    chains' := UnchainOne(buckets, chains, lg, members, e, c, k, rest);
  }

  method UnchainOne(buckets: array<Bucket>, ghost chains: seq<seq<Entry>>, lg: nat, ghost members: set<Entry>, e: Entry,
                    ghost c: seq<Entry>, ghost k: nat, ghost rest: set<Entry>)
    returns (ghost chains': seq<seq<Entry>>)
    requires Filled(buckets, chains, lg, members, members) && rest == members - {e}
    requires c == chains[LowBits(e.hashv, lg)] && Distinct(c) && k < |c| && c[k] == e && Within(c, members)
    modifies buckets, members`hhNext, members`hhPrev
    ensures Filled(buckets, chains', lg, rest, rest)
  {
    chains' := chains[LowBits(e.hashv, lg) := Drop(c, k)];
    FilledShrink(chains, lg, members, e, c, k, rest);
    Unchain(buckets, chains, lg, members, e, c, k, chains', rest);
  }

  /** The bucket half of HASH_DELETE, which frees the table with its last element. */
  method CountOut(t: UtTable, ghost v: View, ghost i: nat, e: Entry, head: Entry?, tail: Entry?, ghost rest: set<Entry>)
    returns (t': UtTable, ghost v': View)
    requires CountOk(t, v) && t.head != null && i < |v.order| && e in v.members && rest == v.members - {e}
    requires head == null <==> |v.order| == 1
    requires head == null ==> rest == {}
    modifies t.buckets, v.members`hhNext, v.members`hhPrev
    ensures CountOk(t', v') && t'.head == head && t'.tail == tail && t'.buckets == t.buckets
    ensures v'.order == Drop(v.order, i) && v'.members == rest
  {
    v' := View(Drop(v.order, i), rest, v.chains);
    t' := t.(head := head, tail := tail);
    if head != null {
      ghost var cs := Unindex(t.buckets, v.chains, t.log2NumBuckets, v.members, e, rest);
      t', v' := t'.(numItems := t.numItems - 1), v'.(chains := cs);
    }
  }

  lemma SoleMember(head: Entry?, tail: Entry?, order: seq<Entry>, members: set<Entry>)
    requires ListOk(head, tail, order, members)
    ensures |order| == 0 ==> members == {}
    ensures (head == null) == (|order| == 0)
  {
    assert InList(0);
  }

  /** HASH_DELETE, whatever the keys. */
  method DeleteLinked(t: UtTable, ghost v: View, ghost i: nat, e: Entry, ghost rest: set<Entry>)
    returns (t': UtTable, ghost v': View)
    requires CountOk(t, v) && ListOk(t.head, t.tail, v.order, v.members)
    requires i < |v.order| && e == v.order[i] && e in v.members && rest == v.members - {e}
    modifies t.buckets, v.members`hhNext, v.members`hhPrev, v.members`next, v.members`prev
    ensures CountOk(t', v') && ListOk(t'.head, t'.tail, v'.order, v'.members) && t'.buckets == t.buckets
    ensures v'.order == Drop(v.order, i) && v'.members == rest
  {
    SoleMember(t.head, t.tail, v.order, v.members);
    var head, tail := Unlink(t.head, t.tail, v.order, v.members, i, e, rest);
    SoleMember(head, tail, Drop(v.order, i), rest);
    t', v' := CountOut(t, v, i, e, head, tail, rest);
  }

  /** HASH_DELETE */
  method Delete(hash: seq<byte> -> nat, t: UtTable, ghost v: View, ghost i: nat, e: Entry)
    returns (t': UtTable, ghost v': View)
    requires TableOk(hash, t, v) && i < |v.order| && e == v.order[i] && e in v.members
    modifies t.buckets, v.members`hhNext, v.members`hhPrev, v.members`next, v.members`prev
    ensures TableOk(hash, t', v') && t'.buckets == t.buckets
    ensures v'.order == Drop(v.order, i) && v'.members == v.members - {e}
  {
    ListDistinct(t.head, t.tail, v.order, v.members);
    KeyedDrop(hash, v.order, v.members, i);
    t', v' := DeleteLinked(t, v, i, e, v.members - {e});
  }

  /** HASH_FIND_IN_BKT */
  method FindInBucket(ghost c: seq<Entry>, first: Entry?, hashv: nat, key: seq<byte>) returns (r: Entry?)
    requires NextChained(c) && first == At(c, 0)
    ensures r != null ==> r in c && r.hashv == hashv && r.key == key
    ensures r == null ==> forall x :: x in c ==> x.hashv != hashv || x.key != key
  {
    r := first;
    ghost var k := 0;
    while r != null
      invariant 0 <= k <= |c| && r == At(c, k)
      invariant forall j :: 0 <= j < k ==> c[j].hashv != hashv || c[j].key != key
      decreases |c| - k
    {
      if r.hashv == hashv && |r.key| == |key| {
        if r.key == key {
          break;
        }
      }
      r, k := r.hhNext, k + 1;
    }
  }

  /** HASH_FIND_BYHASHVALUE on a table that exists. */
  method FindIndexed(buckets: array<Bucket>, ghost chains: seq<seq<Entry>>, lg: nat, ghost members: set<Entry>,
                     hashv: nat, key: seq<byte>)
    returns (r: Entry?)
    requires Indexed(buckets, chains, lg, members, members)
    ensures r != null ==> r in members && r.hashv == hashv && r.key == key
    ensures r == null ==> forall x :: x in members ==> x.hashv != hashv || x.key != key
  {
    assert InIndex(0);
    var b := LowBits(hashv, lg);
    assert ChainOk(buckets[b], chains[b]) && Within(chains[b], members);
    r := FindInBucket(chains[b], buckets[b].hhHead, hashv, key);
  }

  // ---------- every element is on exactly one chain ----------

  ghost function AsSet(c: seq<Entry>): set<Entry> {
    set x | x in c
  }

  ghost function Elements(chains: seq<seq<Entry>>, n: nat): set<Entry>
    requires n <= |chains|
  {
    if n == 0 then {} else Elements(chains, n - 1) + AsSet(chains[n - 1])
  }

  function CountSum(buckets: seq<Bucket>, n: nat): nat
    requires n <= |buckets|
  {
    if n == 0 then 0 else CountSum(buckets, n - 1) + buckets[n - 1].count
  }

  lemma {:induction false} DistinctSize(c: seq<Entry>)
    requires Distinct(c)
    ensures |AsSet(c)| == |c|
  {
    if c != [] {
      var n := |c| - 1;
      DistinctSize(c[..n]);
      assert AsSet(c) == AsSet(c[..n]) + {c[n]};
    }
  }

  lemma ChainsApart(chains: seq<seq<Entry>>, b: nat, c: nat)
    requires Apart(chains) && b < c < |chains|
    ensures AsSet(chains[b]) !! AsSet(chains[c])
  {
  }

  lemma {:induction false} ElementsApart(chains: seq<seq<Entry>>, n: nat, c: nat)
    requires Apart(chains) && n <= c < |chains|
    ensures Elements(chains, n) !! AsSet(chains[c])
  {
    if n > 0 {
      ElementsApart(chains, n - 1, c);
      ChainsApart(chains, n - 1, c);
    }
  }

  lemma LastSize(chains: seq<seq<Entry>>, n: nat)
    requires 0 < n <= |chains| && Apart(chains)
    ensures |Elements(chains, n)| == |Elements(chains, n - 1)| + |chains[n - 1]|
  {
    assert Distinct(chains[n - 1]);
    DistinctSize(chains[n - 1]);
    ElementsApart(chains, n - 1, n - 1);
    UnionSize(Elements(chains, n - 1), AsSet(chains[n - 1]));
  }

  lemma UnionSize(a: set<Entry>, b: set<Entry>)
    requires a !! b
    ensures |a + b| == |a| + |b|
  {
  }

  lemma {:induction false} ElementsSize(chains: seq<seq<Entry>>, buckets: seq<Bucket>, n: nat)
    requires n <= |chains| == |buckets| && Apart(chains)
    requires forall b :: 0 <= b < |chains| ==> buckets[b].count == |chains[b]|
    ensures |Elements(chains, n)| == CountSum(buckets, n)
  {
    if n > 0 {
      ElementsSize(chains, buckets, n - 1);
      LastSize(chains, n);
    }
  }

  lemma {:induction false} ElementsWithin(chains: seq<seq<Entry>>, members: set<Entry>, n: nat)
    requires Contained(chains, members) && n <= |chains|
    ensures Elements(chains, n) <= members
  {
    if n > 0 {
      ElementsWithin(chains, members, n - 1);
      assert Within(chains[n - 1], members);
    }
  }

  lemma {:induction false} ElementsHave(chains: seq<seq<Entry>>, n: nat, b: nat, x: Entry)
    requires b < n <= |chains| && x in chains[b]
    ensures x in Elements(chains, n)
  {
    if b < n - 1 {
      ElementsHave(chains, n - 1, b, x);
    }
  }

  lemma AllElements(chains: seq<seq<Entry>>, lg: nat, members: set<Entry>)
    requires Contained(chains, members) && Holds(chains, lg, members, members)
    ensures Elements(chains, |chains|) == members
  {
    ElementsWithin(chains, members, |chains|);
    forall x | x in members
      ensures x in Elements(chains, |chains|)
    {
      ElementsHave(chains, |chains|, LowBits(x.hashv, lg), x);
    }
  }

  lemma IndexSum(buckets: array<Bucket>, chains: seq<seq<Entry>>, lg: nat, members: set<Entry>)
    requires Filled(buckets, chains, lg, members, members)
    ensures CountSum(buckets[..], buckets.Length) == |members|
  {
    FilledApart(buckets, chains, lg, members);
    forall b | 0 <= b < |chains|
      ensures buckets[..][b].count == |chains[b]|
    {
      assert ChainOk(buckets[b], chains[b]);
    }
    ElementsSize(chains, buckets[..], |chains|);
    AllElements(chains, lg, members);
  }

  /** The counts of the buckets add up to the number of elements. */
  lemma CountsSum(hash: seq<byte> -> nat, t: UtTable, v: View)
    requires TableOk(hash, t, v) && t.head != null
    ensures CountSum(t.buckets[..], t.buckets.Length) == t.numItems == |v.order| == |v.members|
  {
    assert InIndex(0);
    IndexSum(t.buckets, v.chains, t.log2NumBuckets, v.members);
    ListSize(t.head, t.tail, v.order, v.members);
  }

  lemma ListSize(head: Entry?, tail: Entry?, order: seq<Entry>, members: set<Entry>)
    requires ListOk(head, tail, order, members)
    ensures |order| == |members|
  {
    assert InList(0);
    DistinctSize(order);
    assert AsSet(order) == members;
  }

  /** An element of the list is on the chain numbered by the hash of its key modulo the number of buckets, and on no
      other. */
  lemma OneChain(hash: seq<byte> -> nat, t: UtTable, v: View, i: nat, b: nat)
    requires TableOk(hash, t, v) && i < |v.order| && b < t.buckets.Length
    ensures |v.chains| == t.buckets.Length == Pow2(t.log2NumBuckets)
    ensures v.order[i] in v.chains[b] <==> b == LowBits(hash(v.order[i].key), t.log2NumBuckets)
  {
    assert InIndex(0) && InList(0) && InKeys(0);
    assert Placed(v.chains[b], b, t.log2NumBuckets);
  }

  class Table {
    const hash: seq<byte> -> nat
    var tbl: UtTable
    ghost var view: View

    ghost predicate Valid()
      reads this, tbl.buckets, view.members
    {
      TableOk(hash, tbl, view)
    }

    constructor (hash: seq<byte> -> nat)
      ensures Valid() && view.order == [] && view.members == {} && this.hash == hash && fresh(tbl.buckets)
    {
      this.hash := hash;
      var none := new Bucket[0];
      tbl, view := UtTable(null, null, none, 0, 0, Stats(0, 0, 0, false)), View([], {}, []);
    }

    method Store(t: UtTable, ghost v: View)
      requires TableOk(hash, t, v)
      modifies this
      ensures Valid() && tbl == t && view == v
    {
      tbl, view := t, v;
    }

    /** HASH_ADD_KEYPTR: a new element goes to the end, whether or not its key is new. */
    method Add(e: Entry)
      requires Valid() && e !in view.members
      modifies this, tbl.buckets, e`hashv, e`next, e`prev, e`hhNext, e`hhPrev,
               view.members`hhNext, view.members`hhPrev, view.members`next
      ensures Valid() && (fresh(tbl.buckets) || tbl.buckets == old(tbl.buckets))
      ensures view.order == old(view.order) + [e] && view.members == old(view.members) + {e}
    {
      MembersListed(tbl, view);
      var t, v := AddKeyptr(hash, tbl, view, e);
      Store(t, v);
    }

    /** HASH_DELETE */
    method Remove(ghost i: nat, e: Entry)
      requires Valid() && i < |view.order| && e == view.order[i]
      modifies this, tbl.buckets, view.members`hhNext, view.members`hhPrev, view.members`next, view.members`prev
      ensures Valid() && tbl.buckets == old(tbl.buckets)
      ensures view.order == Drop(old(view.order), i) && view.members == old(view.members) - {e}
    {
      MembersListed(tbl, view);
      var t, v := Delete(hash, tbl, view, i, e);
      Store(t, v);
    }

    /** HASH_CLEAR: the table goes, and the elements are left to themselves. */
    method Clear()
      requires Valid()
      modifies this
      ensures Valid() && view.order == [] && view.members == {} && fresh(tbl.buckets)
    {
      var none := new Bucket[0];
      Store(UtTable(null, null, none, 0, 0, Stats(0, 0, 0, false)), View([], {}, []));
    }

    /** HASH_FIND: an element with the key, exactly when there is one, and where it is on the list. */
    method Find(key: seq<byte>) returns (r: Entry?, ghost i: nat)
      requires Valid()
      ensures r != null ==> i < |view.order| && r == view.order[i] && r in view.members && r.key == key
      ensures r == null ==> forall i :: 0 <= i < |view.order| ==> view.order[i].key != key
    {
      MembersListed(tbl, view);
      r, i := null, 0;
      if tbl.head != null {
        r := FindIndexed(tbl.buckets, view.chains, tbl.log2NumBuckets, view.members, hash(key), key);
        HashesKnown(hash, view);
        if r != null {
          i :| 0 <= i < |view.order| && view.order[i] == r;
        }
      }
    }

    /** HASH_COUNT */
    method Count() returns (n: nat)
      requires Valid()
      ensures n == |view.order|
    {
      n := if tbl.head != null then tbl.numItems else 0;
    }

    /** Where HASH_ITER starts. */
    method First() returns (r: Entry?)
      requires Valid()
      ensures r == At(view.order, 0) && (r != null ==> r in view.members)
    {
      MembersListed(tbl, view);
      r := tbl.head;
    }

    /** Where HASH_ITER goes from the i-th element. */
    method Next(ghost i: nat, e: Entry) returns (r: Entry?)
      requires Valid() && i < |view.order| && e == view.order[i]
      ensures r == At(view.order, i + 1) && (r != null ==> r in view.members)
    {
      MembersListed(tbl, view);
      r := e.next;
    }
  }

  lemma MembersListed(t: UtTable, v: View)
    requires ListOk(t.head, t.tail, v.order, v.members)
    ensures Listed(v.order, v.members) && t.head == At(v.order, 0)
    ensures forall i :: 0 <= i < |v.order| ==> v.order[i].next == At(v.order, i + 1)
  {
    assert InList(0);
  }

  lemma HashesKnown(hash: seq<byte> -> nat, v: View)
    requires Keyed(hash, v.order, v.members)
    ensures forall i :: 0 <= i < |v.order| ==> v.order[i].hashv == hash(v.order[i].key)
  {
    assert InKeys(0);
  }
}
