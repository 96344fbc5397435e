/**
 The intrusive hash table of src/uthash.h: elements on one doubly linked list in insertion order and,
 at the same time, on doubly linked bucket chains that double in number as they grow.
 */
module UtHash {
  import opened Bytes
  import opened Hiding

  class Entry {
    const key: seq<byte>
    const data: nat
    var ts: real
    var hashv: nat
    var prev: Entry?
    var next: Entry?
    var hhPrev: Entry?
    var hhNext: Entry?

    constructor (key: seq<byte>, data: nat, ts: real)
      ensures this.key == key && this.data == data && this.ts == ts
    {
      this.key, this.data, this.ts := key, data, ts;
      hashv, prev, next, hhPrev, hhNext := 0, null, null, null, null;
    }
  }

  ghost predicate Distinct<T>(s: seq<T>) {
    forall i, j :: 0 <= i < j < |s| ==> s[i] != s[j]
  }

  /** The i-th element, or null outside the list. */
  function At(s: seq<Entry>, i: int): Entry? {
    if 0 <= i < |s| then s[i] else null
  }

  lemma DropDistinct<T>(s: seq<T>, i: nat)
    requires Distinct(s) && i < |s|
    ensures Distinct(Drop(s, i)) && s[i] !in Drop(s, i)
    ensures forall x :: x in s && x != s[i] ==> x in Drop(s, i)
    ensures forall x :: x in Drop(s, i) ==> x in s
  {
    var d := Drop(s, i);
    assert forall k :: 0 <= k < |d| ==> d[k] == s[if k < i then k else k + 1];
    forall x | x in s && x != s[i]
      ensures x in d
    {
      var k :| 0 <= k < |s| && s[k] == x;
      assert d[if k < i then k else k - 1] == x;
    }
  }

  // ---------- the list in insertion order ----------

  ghost predicate NextLinked(s: seq<Entry>)
    reads s`next
  {
    forall i {:trigger s[i].next} :: 0 <= i < |s| ==> s[i].next == At(s, i + 1)
  }

  ghost predicate PrevLinked(s: seq<Entry>)
    reads s`prev
  {
    forall i :: 0 <= i < |s| ==> s[i].prev == At(s, i - 1)
  }

  /** The next pointers of HASH_APPEND_LIST. */
  method AppendNext(ghost s: seq<Entry>, tail: Entry?, e: Entry)
    requires Distinct(s) && NextLinked(s) && e !in s && tail == At(s, |s| - 1)
    modifies e`next, s`next
    ensures NextLinked(s + [e])
  {
    e.next := null;
    if tail != null {
      tail.next := e;
    }
  }

  /** The prev pointers of HASH_APPEND_LIST. */
  method AppendPrev(ghost s: seq<Entry>, tail: Entry?, e: Entry)
    requires PrevLinked(s) && e !in s && tail == At(s, |s| - 1)
    modifies e`prev
    ensures PrevLinked(s + [e])
  {
    e.prev := tail;
  }

  lemma NextDropped(s: seq<Entry>, i: nat)
    requires i < |s|
    requires forall k :: 0 <= k < |s| && k != i ==> s[k].next == At(s, if k == i - 1 then i + 1 else k + 1)
    ensures NextLinked(Drop(s, i))
  {
    forall k | 0 <= k < |s| - 1
      ensures Drop(s, i)[k].next == At(Drop(s, i), k + 1)
    {
      assert Drop(s, i)[k] == s[if k < i then k else k + 1];
    }
  }

  /** The next pointers of HASH_DELETE. */
  method UnlinkNext(ghost s: seq<Entry>, ghost i: nat, e: Entry)
    requires Distinct(s) && NextLinked(s) && i < |s| && e == s[i] && e.prev == At(s, i - 1)
    modifies s`next
    ensures NextLinked(Drop(s, i)) && e.next == old(e.next)
  {
    if e.prev != null {
      e.prev.next := e.next;
    }
    NextDropped(s, i);
  }

  lemma PrevDropped(s: seq<Entry>, i: nat)
    requires i < |s|
    requires forall k :: 0 <= k < |s| && k != i ==> s[k].prev == At(s, if k == i + 1 then i - 1 else k - 1)
    ensures PrevLinked(Drop(s, i))
  {
    forall k | 0 <= k < |s| - 1
      ensures Drop(s, i)[k].prev == At(Drop(s, i), k - 1)
    {
      assert Drop(s, i)[k] == s[if k < i then k else k + 1];
    }
  }

  /** The prev pointers of HASH_DELETE. */
  method UnlinkPrev(ghost s: seq<Entry>, ghost i: nat, e: Entry)
    requires Distinct(s) && PrevLinked(s) && i < |s| && e == s[i] && e.next == At(s, i + 1)
    modifies s`prev
    ensures PrevLinked(Drop(s, i)) && e.prev == old(e.prev)
  {
    if e.next != null {
      e.next.prev := e.prev;
    }
    PrevDropped(s, i);
  }

  // ---------- bucket chains ----------

  ghost predicate NextChained(c: seq<Entry>)
    reads c`hhNext
  {
    forall i {:trigger c[i].hhNext} :: 0 <= i < |c| ==> c[i].hhNext == At(c, i + 1)
  }

  ghost predicate PrevChained(c: seq<Entry>)
    reads c`hhPrev
  {
    forall i :: 0 <= i < |c| ==> c[i].hhPrev == At(c, i - 1)
  }

  /** The hh_next pointers of HASH_ADD_TO_BKT and HASH_EXPAND_BUCKETS. */
  method PushNext(ghost c: seq<Entry>, first: Entry?, e: Entry)
    requires NextChained(c) && e !in c && first == At(c, 0)
    modifies e`hhNext
    ensures NextChained([e] + c)
  {
    e.hhNext := first;
  }

  /** The hh_prev pointers of HASH_ADD_TO_BKT and HASH_EXPAND_BUCKETS. */
  method PushPrev(ghost c: seq<Entry>, first: Entry?, e: Entry)
    requires Distinct(c) && PrevChained(c) && e !in c && first == At(c, 0)
    modifies e`hhPrev, c`hhPrev
    ensures PrevChained([e] + c)
  {
    e.hhPrev := null;
    if first != null {
      first.hhPrev := e;
    }
  }

  lemma HhNextDropped(c: seq<Entry>, i: nat)
    requires i < |c|
    requires forall k :: 0 <= k < |c| && k != i ==> c[k].hhNext == At(c, if k == i - 1 then i + 1 else k + 1)
    ensures NextChained(Drop(c, i))
  {
    forall k | 0 <= k < |c| - 1
      ensures Drop(c, i)[k].hhNext == At(Drop(c, i), k + 1)
    {
      assert Drop(c, i)[k] == c[if k < i then k else k + 1];
    }
  }

  /** The hh_next pointers of HASH_DEL_IN_BKT. */
  method UnchainNext(ghost c: seq<Entry>, ghost i: nat, e: Entry)
    requires Distinct(c) && NextChained(c) && i < |c| && e == c[i] && e.hhPrev == At(c, i - 1)
    modifies c`hhNext
    ensures NextChained(Drop(c, i)) && e.hhNext == old(e.hhNext)
  {
    if e.hhPrev != null {
      e.hhPrev.hhNext := e.hhNext;
    }
    HhNextDropped(c, i);
  }

  lemma HhPrevDropped(c: seq<Entry>, i: nat)
    requires i < |c|
    requires forall k :: 0 <= k < |c| && k != i ==> c[k].hhPrev == At(c, if k == i + 1 then i - 1 else k - 1)
    ensures PrevChained(Drop(c, i))
  {
    forall k | 0 <= k < |c| - 1
      ensures Drop(c, i)[k].hhPrev == At(Drop(c, i), k - 1)
    {
      assert Drop(c, i)[k] == c[if k < i then k else k + 1];
    }
  }

  /** The hh_prev pointers of HASH_DEL_IN_BKT. */
  method UnchainPrev(ghost c: seq<Entry>, ghost i: nat, e: Entry)
    requires Distinct(c) && PrevChained(c) && i < |c| && e == c[i] && e.hhNext == At(c, i + 1)
    modifies c`hhPrev
    ensures PrevChained(Drop(c, i)) && e.hhPrev == old(e.hhPrev)
  {
    if e.hhNext != null {
      e.hhNext.hhPrev := e.hhPrev;
    }
    HhPrevDropped(c, i);
  }

  // ---------- buckets ----------

  /** The low k bits of h: h & (2^k - 1). */
  function LowBits(h: nat, k: nat): (b: nat)
    ensures b < Pow2(k)
  {
    if k == 0 then 0 else 2 * LowBits(h / 2, k - 1) + h % 2
  }

  /** h >> k */
  function HighBits(h: nat, k: nat): nat {
    if k == 0 then h else HighBits(h / 2, k - 1)
  }

  lemma HalfDivides(h: nat, q: nat, p: nat, low: nat)
    requires h / 2 == q * p + low
    ensures h == q * (2 * p) + (2 * low + h % 2)
  {
    assert q * (2 * p) == 2 * (q * p);
  }

  /** The low bits are the remainder of division by 2^k, and the high bits its quotient. */
  lemma {:induction false} BitsDivide(h: nat, k: nat)
    ensures h == HighBits(h, k) * Pow2(k) + LowBits(h, k)
  {
    if k > 0 {
      BitsDivide(h / 2, k - 1);
      HalfDivides(h, HighBits(h / 2, k - 1), Pow2(k - 1), LowBits(h / 2, k - 1));
    }
  }

  /** The ideal longest chain for n items in 2^k buckets, as HASH_EXPAND_BUCKETS computes it. */
  function IdealMaxlen(n: nat, k: nat): nat {
    HighBits(n, k) + if LowBits(n, k) != 0 then 1 else 0
  }

  /** It is n / 2^k rounded up. */
  lemma IdealMaxlenIsCeiling(n: nat, k: nat)
    ensures n <= IdealMaxlen(n, k) * Pow2(k) < n + Pow2(k)
  {
    BitsDivide(n, k);
    Ceiling(n, Pow2(k), HighBits(n, k), LowBits(n, k));
  }

  lemma Ceiling(n: nat, p: nat, q: nat, r: nat)
    requires n == q * p + r && r < p
    ensures n <= (q + if r != 0 then 1 else 0) * p < n + p
  {
    assert (q + 1) * p == q * p + p;
  }

  datatype Bucket = Bucket(hhHead: Entry?, count: nat, expandMult: nat)

  ghost predicate ChainOk(b: Bucket, c: seq<Entry>)
    reads c`hhNext, c`hhPrev
  {
    b.hhHead == At(c, 0) && b.count == |c| && Distinct(c) && NextChained(c) && PrevChained(c)
  }

  /** Every element of chain b hashes to b. */
  ghost predicate Placed(c: seq<Entry>, b: nat, lg: nat)
    reads c`hashv
  {
    forall k :: 0 <= k < |c| ==> LowBits(c[k].hashv, lg) == b
  }

  ghost predicate Within(c: seq<Entry>, members: set<Entry>) {
    forall k :: 0 <= k < |c| ==> c[k] in members
  }

  ghost predicate Contained(chains: seq<seq<Entry>>, members: set<Entry>) {
    forall b :: 0 <= b < |chains| ==> Within(chains[b], members)
  }

  /** The bucket array describes the chains. */
  ghost predicate ChainsOk(buckets: array<Bucket>, chains: seq<seq<Entry>>, members: set<Entry>)
    requires Contained(chains, members)
    reads buckets, members`hhNext, members`hhPrev
  {
    buckets.Length == |chains| && forall b :: 0 <= b < |chains| ==> ChainOk(buckets[b], chains[b])
  }

  /** There is a chain for each of the 2^lg buckets, and each element is on the chain it hashes to. */
  ghost predicate Assigned(chains: seq<seq<Entry>>, lg: nat, members: set<Entry>)
    requires Contained(chains, members)
    reads members`hashv
  {
    |chains| == Pow2(lg) && forall b :: 0 <= b < |chains| ==> Placed(chains[b], b, lg)
  }

  /** Put e first on a chain, and count it. */
  method PushChain(bucket: Bucket, mult: nat, ghost c: seq<Entry>, e: Entry) returns (bucket': Bucket)
    requires ChainOk(bucket, c) && e !in c
    modifies e`hhNext, e`hhPrev, c`hhPrev
    ensures ChainOk(bucket', [e] + c) && bucket'.expandMult == mult && bucket'.count == bucket.count + 1
  {
    PushNext(c, bucket.hhHead, e);
    PushPrev(c, bucket.hhHead, e);
    bucket' := Bucket(e, bucket.count + 1, mult);
  }

  /** Put e first on the chain it hashes to. */
  method BucketPush(buckets: array<Bucket>, ghost chains: seq<seq<Entry>>, lg: nat, ghost members: set<Entry>, e: Entry,
                    mult: nat)
    requires Contained(chains, members) && ChainsOk(buckets, chains, members) && Assigned(chains, lg, members)
    requires e in members && e !in chains[LowBits(e.hashv, lg)]
    requires Contained(Pushed(chains, lg, e), members)
    modifies buckets, e`hhNext, e`hhPrev, chains[LowBits(e.hashv, lg)]`hhPrev
    ensures ChainsOk(buckets, Pushed(chains, lg, e), members)
    ensures var b := LowBits(e.hashv, lg);
            buckets[b].count == old(buckets[b]).count + 1 && buckets[b].expandMult == mult
    ensures forall b :: 0 <= b < |chains| && b != LowBits(e.hashv, lg) ==> buckets[b] == old(buckets[b])
  {
    var b := LowBits(e.hashv, lg);
    ghost var c := chains[b];
    assert ChainOk(buckets[b], c) && Placed(c, b, lg);
    OthersElsewhere(chains, b, lg, e);
    var bucket := PushChain(buckets[b], mult, c, e);
    forall b' | 0 <= b' < |chains| && b' != b
      ensures ChainOk(buckets[b'], chains[b'])
    {
      ghost var d := chains[b'];
      assert old(ChainOk(buckets[b'], d));
      assert forall k :: 0 <= k < |d| ==> d[k] != e && d[k] !in c;
    }
    var _ := StoreBucket(buckets, chains, members, b, bucket, [e] + c);
  }

  /** The chains once e is first on its own. */
  ghost function Pushed(chains: seq<seq<Entry>>, lg: nat, e: Entry): seq<seq<Entry>>
    requires |chains| == Pow2(lg)
    reads e`hashv
  {
    var b := LowBits(e.hashv, lg);
    chains[b := [e] + chains[b]]
  }

  /** Replace one bucket and its chain. */
  method StoreBucket(buckets: array<Bucket>, ghost chains: seq<seq<Entry>>, ghost members: set<Entry>,
                     b: nat, bucket: Bucket, ghost c: seq<Entry>)
    returns (ghost chains': seq<seq<Entry>>)
    requires Contained(chains, members) && Within(c, members) && b < buckets.Length == |chains|
    requires forall b' :: 0 <= b' < |chains| && b' != b ==> ChainOk(buckets[b'], chains[b'])
    requires ChainOk(bucket, c)
    modifies buckets
    ensures chains' == chains[b := c] && Contained(chains', members) && ChainsOk(buckets, chains', members)
    ensures buckets[b] == bucket && forall b' :: 0 <= b' < |chains| && b' != b ==> buckets[b'] == old(buckets[b'])
  {
    buckets[b] := bucket;
    chains' := chains[b := c];
  }

  /** Of the members, exactly those in some set are on the chain they hash to. */
  ghost predicate Holds(chains: seq<seq<Entry>>, lg: nat, members: set<Entry>, some: set<Entry>)
    reads members`hashv
  {
    |chains| == Pow2(lg) && forall x :: x in members ==> (x in chains[LowBits(x.hashv, lg)] <==> x in some)
  }

  lemma AssignedPush(chains: seq<seq<Entry>>, lg: nat, members: set<Entry>, e: Entry)
    requires Contained(chains, members) && Assigned(chains, lg, members) && e in members
    ensures Contained(Pushed(chains, lg, e), members) && Assigned(Pushed(chains, lg, e), lg, members)
  {
  }

  lemma HoldsPush(chains: seq<seq<Entry>>, lg: nat, members: set<Entry>, some: set<Entry>, e: Entry)
    requires Holds(chains, lg, members, some)
    ensures Holds(Pushed(chains, lg, e), lg, members, some + {e})
  {
  }

  /** Elements of the other chains are not on chain b, and not e, which belongs there. */
  lemma OthersElsewhere(chains: seq<seq<Entry>>, b: nat, lg: nat, e: Entry)
    requires b < |chains| && LowBits(e.hashv, lg) == b
    requires forall b' :: 0 <= b' < |chains| ==> Placed(chains[b'], b', lg)
    ensures forall b', k :: 0 <= b' < |chains| && b' != b && 0 <= k < |chains[b']| ==>
              chains[b'][k] != e && chains[b'][k] !in chains[b]
  {
    forall b', k | 0 <= b' < |chains| && b' != b && 0 <= k < |chains[b']|
      ensures chains[b'][k] != e && chains[b'][k] !in chains[b]
    {
      assert Placed(chains[b'], b', lg) && Placed(chains[b], b, lg);
    }
  }

  /** Take the i-th element off a chain, and stop counting it. */
  method DropChain(bucket: Bucket, ghost c: seq<Entry>, ghost i: nat, e: Entry) returns (bucket': Bucket)
    requires ChainOk(bucket, c) && i < |c| && e == c[i]
    modifies c`hhNext, c`hhPrev
    ensures ChainOk(bucket', Drop(c, i)) && bucket'.expandMult == bucket.expandMult
  {
    DropDistinct(c, i);
    UnchainNext(c, i, e);
    bucket' := DropFirst(bucket, c, i, e);
    UnchainPrev(c, i, e);
  }

  /** The count and head of HASH_DEL_IN_BKT. */
  method DropFirst(bucket: Bucket, ghost c: seq<Entry>, ghost i: nat, e: Entry) returns (bucket': Bucket)
    requires bucket.hhHead == At(c, 0) && bucket.count == |c| && Distinct(c)
    requires i < |c| && e == c[i] && e.hhNext == At(c, i + 1)
    ensures bucket'.hhHead == At(Drop(c, i), 0) && bucket'.count == |Drop(c, i)|
    ensures bucket'.expandMult == bucket.expandMult
  {
    bucket' := bucket.(count := bucket.count - 1);
    if bucket.hhHead == e {
      bucket' := bucket'.(hhHead := e.hhNext);
    }
  }

  /** HASH_DEL_IN_BKT; d is the chain without e. */
  method BucketDrop(buckets: array<Bucket>, ghost chains: seq<seq<Entry>>, lg: nat, ghost members: set<Entry>,
                    ghost i: nat, e: Entry, ghost d: seq<Entry>)
    requires Contained(chains, members) && ChainsOk(buckets, chains, members) && Assigned(chains, lg, members)
    requires i < |chains[LowBits(e.hashv, lg)]| && e == chains[LowBits(e.hashv, lg)][i]
    requires d == Drop(chains[LowBits(e.hashv, lg)], i) && Within(d, members)
    modifies buckets, chains[LowBits(e.hashv, lg)]`hhPrev, chains[LowBits(e.hashv, lg)]`hhNext
    ensures Contained(chains[LowBits(e.hashv, lg) := d], members)
    ensures ChainsOk(buckets, chains[LowBits(e.hashv, lg) := d], members)
  {
    var b := LowBits(e.hashv, lg);
    ghost var c := chains[b];
    assert ChainOk(buckets[b], c);
    OthersElsewhere(chains, b, lg, e);
    var bucket := DropChain(buckets[b], c, i, e);
    forall b' | 0 <= b' < |chains| && b' != b
      ensures ChainOk(buckets[b'], chains[b'])
    {
      assert old(ChainOk(buckets[b'], chains[b']));
      assert forall k :: 0 <= k < |chains[b']| ==> chains[b'][k] !in c;
    }
    var _ := StoreBucket(buckets, chains, members, b, bucket, d);
  }

  // ---------- doubling ----------

  /** The place (b, j) comes before (i, k) in the order the chains are walked. */
  predicate Before(b: int, j: int, i: int, k: int) {
    b < i || (b == i && j < k)
  }

  /** The set holds exactly the elements before (i, k). */
  ghost predicate Walked(chains: seq<seq<Entry>>, i: nat, k: nat, some: set<Entry>) {
    forall b, j {:trigger chains[b][j]} :: 0 <= b < |chains| && 0 <= j < |chains[b]| ==>
      (chains[b][j] in some <==> Before(b, j, i, k))
  }

  /** Every element is in one place. */
  ghost predicate Apart(chains: seq<seq<Entry>>) {
    forall b, j, c, k {:trigger chains[b][j], chains[c][k]} ::
      0 <= b < |chains| && 0 <= j < |chains[b]| && 0 <= c < |chains| && 0 <= k < |chains[c]| &&
        chains[b][j] == chains[c][k]
      ==> b == c && j == k
  }

  lemma WalkOne(chains: seq<seq<Entry>>, i: nat, k: nat, some: set<Entry>)
    requires Apart(chains) && Walked(chains, i, k, some) && i < |chains| && k < |chains[i]|
    ensures chains[i][k] !in some && Walked(chains, i, k + 1, some + {chains[i][k]})
  {
  }

  /** The chains hold exactly the elements in some set, each where it hashes to, and the bucket array describes them. */
  ghost predicate Filled(buckets: array<Bucket>, chains: seq<seq<Entry>>, lg: nat, members: set<Entry>,
                         some: set<Entry>)
    reads buckets, members`hhNext, members`hhPrev, members`hashv
  {
    Contained(chains, members) && ChainsOk(buckets, chains, members)
    && Assigned(chains, lg, members) && Holds(chains, lg, members, some)
  }

  /** The relinking in one round of the inner loop of HASH_EXPAND_BUCKETS. */
  method MoveOne(buckets: array<Bucket>, ghost chains: seq<seq<Entry>>, lg: nat,
                 ghost members: set<Entry>, ghost some: set<Entry>, e: Entry, b: nat, mult: nat)
    returns (ghost chains': seq<seq<Entry>>)
    requires e in members && e !in some && b == LowBits(e.hashv, lg)
    requires Filled(buckets, chains, lg, members, some)
    modifies buckets, e`hhNext, members`hhPrev
    ensures Filled(buckets, chains', lg, members, some + {e})
    ensures buckets[b].count == old(buckets[b]).count + 1 && buckets[b].expandMult == mult
    ensures buckets[..] == old(buckets[..])[b := buckets[b]]
  {
    AssignedPush(chains, lg, members, e);
    HoldsPush(chains, lg, members, some, e);
    chains' := Pushed(chains, lg, e);
    assert Within(chains[b], members);
    BucketPush(buckets, chains, lg, members, e, mult);
  }

  /** Every element in some set is on the chain of its bucket and on no other, and the bucket array describes the
      chains. */
  ghost predicate Indexed(buckets: array<Bucket>, chains: seq<seq<Entry>>, lg: nat, members: set<Entry>,
                          some: set<Entry>)
    reads buckets, members`hhNext, members`hhPrev, members`hashv
  {
    forall k {:trigger InIndex(k)} :: InIndex(k) ==> Filled(buckets, chains, lg, members, some)
  }

  method MoveIndexed(buckets: array<Bucket>, ghost chains: seq<seq<Entry>>, lg: nat,
                     ghost members: set<Entry>, ghost some: set<Entry>, e: Entry, b: nat, mult: nat)
    returns (ghost chains': seq<seq<Entry>>)
    requires e in members && e !in some && b == LowBits(e.hashv, lg) && b < buckets.Length
    requires Indexed(buckets, chains, lg, members, some)
    modifies buckets, e`hhNext, members`hhPrev
    ensures Indexed(buckets, chains', lg, members, some + {e})
    ensures buckets[b].count == old(buckets[b]).count + 1 && buckets[b].expandMult == mult
    ensures buckets[..] == old(buckets[..])[b := buckets[b]]
  {
    assert InIndex(0);
    chains' := MoveOne(buckets, chains, lg, members, some, e, b, mult);
  }

  /** The elements of the i-th chain from the k-th on, and of later chains, are still linked as they were. */
  ghost predicate Waiting(chains: seq<seq<Entry>>, i: nat, k: nat, members: set<Entry>)
    requires Contained(chains, members)
    reads members`hhNext
  {
    forall b, j {:trigger chains[b][j]} :: 0 <= b < |chains| && 0 <= j < |chains[b]| && !Before(b, j, i, k) ==>
      chains[b][j].hhNext == At(chains[b], j + 1)
  }

  /** How HASH_EXPAND_BUCKETS relaxes the threshold of a bucket that holds more than its share. */
  function MultFor(count: nat, ideal: nat, otherwise: nat): nat
    requires ideal > 0
  {
    if count > ideal then count / ideal else otherwise
  }

  /** The multiplier of a bucket counts how often the ideal length fits its chain, once it is longer than that. */
  lemma MultiplierExactly(count: nat, ideal: nat)
    requires ideal > 0
    ensures var mult := MultFor(count, ideal, 0);
            if count <= ideal then mult == 0 else mult >= 1 && mult * ideal <= count < (mult + 1) * ideal
  {
    if count > ideal {
      var mult := count / ideal;
      assert count == mult * ideal + count % ideal;
      assert (mult + 1) * ideal == mult * ideal + ideal;
    }
  }

  /** How many elements are in excess of the ideal in the first n buckets. */
  function Excess(buckets: seq<Bucket>, ideal: nat, n: nat): nat
    requires n <= |buckets|
  {
    if n == 0 then 0
    else Excess(buckets, ideal, n - 1) + if buckets[n - 1].count > ideal then buckets[n - 1].count - ideal else 0
  }

  /** The statistics are what the counts of the buckets imply. */
  ghost predicate Counted(buckets: seq<Bucket>, ideal: nat, nonideal: nat) {
    ideal > 0 && forall k {:trigger InCounts(k)} :: InCounts(k) ==>
      && nonideal == Excess(buckets, ideal, |buckets|)
      && forall b :: 0 <= b < |buckets| ==> buckets[b].expandMult == MultFor(buckets[b].count, ideal, 0)
  }

  lemma {:induction false} ExcessGrows(before: seq<Bucket>, after: seq<Bucket>, ideal: nat, n: nat, b: nat)
    requires n <= |before| == |after| && b < |before|
    requires after[b].count == before[b].count + 1
    requires forall c :: 0 <= c < |before| && c != b ==> after[c] == before[c]
    ensures Excess(after, ideal, n) == Excess(before, ideal, n) + if b < n && after[b].count > ideal then 1 else 0
  {
    if n > 0 {
      ExcessGrows(before, after, ideal, n - 1, b);
    }
  }

  lemma {:induction false} NoExcess(buckets: seq<Bucket>, ideal: nat, n: nat)
    requires n <= |buckets| && forall b :: 0 <= b < |buckets| ==> buckets[b].count == 0
    ensures Excess(buckets, ideal, n) == 0
  {
    if n > 0 {
      NoExcess(buckets, ideal, n - 1);
    }
  }

  lemma CountedGrows(before: seq<Bucket>, after: seq<Bucket>, ideal: nat, nonideal: nat, b: nat)
    requires Counted(before, ideal, nonideal) && |before| == |after| && b < |before|
    requires after[b].count == before[b].count + 1
    requires Relaxes(after[b].expandMult, before[b].count + 1, ideal, before[b].expandMult)
    requires after == before[b := after[b]]
    ensures Counted(after, ideal, if before[b].count + 1 > ideal then nonideal + 1 else nonideal)
  {
    assert InCounts(0);
    ExcessGrows(before, after, ideal, |before|, b);
  }

  ghost predicate Relaxes(mult: nat, count: nat, ideal: nat, was: nat) {
    ideal > 0 && forall k {:trigger InCounts(k)} :: InCounts(k) ==> mult == MultFor(count, ideal, was)
  }

  /** The new threshold of a bucket. */
  method Relax(count: nat, ideal: nat, was: nat) returns (mult: nat)
    requires ideal > 0
    ensures Relaxes(mult, count, ideal, was)
  {
    mult := MultFor(count, ideal, was);
  }

  /** One round of the inner loop of HASH_EXPAND_BUCKETS, once the statistics are known. */
  method MoveMeasured(buckets: array<Bucket>, ghost chains: seq<seq<Entry>>, lg: nat, ghost members: set<Entry>,
                      ghost some: set<Entry>,
                      e: Entry, b: nat, mult: nat, ghost ideal: nat, ghost nonideal: nat, ghost nonideal': nat)
    returns (ghost chains': seq<seq<Entry>>)
    requires e in members && e !in some && b == LowBits(e.hashv, lg) && b < buckets.Length
    requires Indexed(buckets, chains, lg, members, some) && Counted(buckets[..], ideal, nonideal)
    requires Relaxes(mult, buckets[b].count + 1, ideal, buckets[b].expandMult)
    requires nonideal' == if buckets[b].count + 1 > ideal then nonideal + 1 else nonideal
    modifies buckets, e`hhNext, members`hhPrev
    ensures Indexed(buckets, chains', lg, members, some + {e}) && Counted(buckets[..], ideal, nonideal')
  {
    ghost var before := buckets[..];
    chains' := MoveIndexed(buckets, chains, lg, members, some, e, b, mult);
    CountedGrows(before, buckets[..], ideal, nonideal, b);
  }

  /** One round of the inner loop of HASH_EXPAND_BUCKETS. */
  method MoveCounted(buckets: array<Bucket>, ghost chains: seq<seq<Entry>>, lg: nat,
                     ghost members: set<Entry>, ghost some: set<Entry>, e: Entry, ideal: nat, nonideal: nat)
    returns (ghost chains': seq<seq<Entry>>, nonideal': nat)
    requires e in members && e !in some
    requires Filled(buckets, chains, lg, members, some) && Counted(buckets[..], ideal, nonideal)
    modifies buckets, e`hhNext, members`hhPrev
    ensures Filled(buckets, chains', lg, members, some + {e}) && Counted(buckets[..], ideal, nonideal')
  {
    var b := LowBits(e.hashv, lg);
    var count := buckets[b].count + 1;
    var mult := Relax(count, ideal, buckets[b].expandMult);
    nonideal' := if count > ideal then nonideal + 1 else nonideal;
    chains' := MoveMeasured(buckets, chains, lg, members, some, e, b, mult, ideal, nonideal, nonideal');
    assert InIndex(0);
  }

  /** One round moves the k-th element of the i-th chain, and those after it still wait. */
  method MoveNext(buckets: array<Bucket>, ghost from: seq<seq<Entry>>, ghost i: nat, ghost k: nat, e: Entry,
                  ghost chains: seq<seq<Entry>>, lg: nat, ghost members: set<Entry>, ghost some: set<Entry>, ideal: nat,
                  nonideal: nat)
    returns (next: Entry?, ghost chains': seq<seq<Entry>>, ghost some': set<Entry>, nonideal': nat)
    requires Apart(from) && Contained(from, members) && i < |from| && k < |from[i]| && e == from[i][k]
    requires Waiting(from, i, k, members) && Walked(from, i, k, some)
    requires Filled(buckets, chains, lg, members, some) && Counted(buckets[..], ideal, nonideal)
    modifies buckets, members`hhNext, members`hhPrev
    ensures next == At(from[i], k + 1)
    ensures Waiting(from, i, k + 1, members) && Walked(from, i, k + 1, some')
    ensures Filled(buckets, chains', lg, members, some') && Counted(buckets[..], ideal, nonideal')
  {
    next := e.hhNext;
    WalkOne(from, i, k, some);
    some' := some + {e};
    assert Within(from[i], members);
    chains', nonideal' := MoveCounted(buckets, chains, lg, members, some, e, ideal, nonideal);
  }

  /** The inner loop of HASH_EXPAND_BUCKETS: move the i-th chain. */
  method MoveChain(buckets: array<Bucket>, ghost from: seq<seq<Entry>>, ghost i: nat, first: Entry?,
                   ghost chains: seq<seq<Entry>>, lg: nat, ghost members: set<Entry>, ghost some: set<Entry>,
                   ideal: nat, nonideal: nat)
    returns (ghost chains': seq<seq<Entry>>, ghost some': set<Entry>, nonideal': nat)
    requires Apart(from) && Contained(from, members) && i < |from| && first == At(from[i], 0)
    requires Waiting(from, i, 0, members) && Walked(from, i, 0, some)
    requires Filled(buckets, chains, lg, members, some) && Counted(buckets[..], ideal, nonideal)
    modifies buckets, members`hhNext, members`hhPrev
    ensures Waiting(from, i + 1, 0, members) && Walked(from, i + 1, 0, some')
    ensures Filled(buckets, chains', lg, members, some') && Counted(buckets[..], ideal, nonideal')
  {
    chains', some', nonideal' := chains, some, nonideal;
    var e := first;
    ghost var k := 0;
    while e != null
      invariant 0 <= k <= |from[i]| && e == At(from[i], k)
      invariant Waiting(from, i, k, members) && Walked(from, i, k, some')
      invariant Filled(buckets, chains', lg, members, some') && Counted(buckets[..], ideal, nonideal')
      decreases |from[i]| - k
    {
      e, chains', some', nonideal' := MoveNext(buckets, from, i, k, e, chains', lg, members, some', ideal, nonideal');
      k := k + 1;
    }
  }

  lemma FilledApart(buckets: array<Bucket>, chains: seq<seq<Entry>>, lg: nat, members: set<Entry>)
    requires Filled(buckets, chains, lg, members, members)
    ensures Apart(chains) && Waiting(chains, 0, 0, members)
  {
    forall b, j | 0 <= b < |chains| && 0 <= j < |chains[b]|
      ensures LowBits(chains[b][j].hashv, lg) == b && Distinct(chains[b]) && chains[b][j].hhNext == At(chains[b], j + 1)
    {
      assert Placed(chains[b], b, lg) && ChainOk(buckets[b], chains[b]);
    }
  }

  /** A zeroed bucket array describes empty chains. */
  method EmptyBuckets(lg: nat, ghost members: set<Entry>, n: nat)
    returns (buckets: array<Bucket>, ghost chains: seq<seq<Entry>>)
    requires n == Pow2(lg)
    ensures fresh(buckets) && buckets.Length == n
    ensures forall b :: 0 <= b < n ==> buckets[b] == Bucket(null, 0, 0)
    ensures Filled(buckets, chains, lg, members, {})
  {
    buckets := new Bucket[n](_ => Bucket(null, 0, 0));
    chains := seq(n, _ => []);
  }

  lemma WalkedAll(chains: seq<seq<Entry>>, lg: nat, members: set<Entry>, some: set<Entry>,
                  rehashed: seq<seq<Entry>>)
    requires Holds(chains, lg, members, members) && Walked(chains, |chains|, 0, some)
    requires Holds(rehashed, lg + 1, members, some)
    ensures Holds(rehashed, lg + 1, members, members)
  {
    forall x | x in members
      ensures x in some
    {
      var b := LowBits(x.hashv, lg);
      var j :| 0 <= j < |chains[b]| && chains[b][j] == x;
    }
  }

  /** The outer loop of HASH_EXPAND_BUCKETS: move every chain. */
  method MoveAll(heads: array<Bucket>, buckets: array<Bucket>, ghost from: seq<seq<Entry>>,
                 ghost chains: seq<seq<Entry>>, lg: nat,
                 ghost members: set<Entry>, ideal: nat)
    returns (ghost chains': seq<seq<Entry>>, ghost some: set<Entry>, nonideal: nat)
    requires heads != buckets && heads.Length == |from|
    requires forall b :: 0 <= b < |from| ==> heads[b].hhHead == At(from[b], 0)
    requires Apart(from) && Contained(from, members) && Waiting(from, 0, 0, members)
    requires Filled(buckets, chains, lg, members, {}) && Counted(buckets[..], ideal, 0)
    modifies buckets, members`hhNext, members`hhPrev
    ensures Walked(from, |from|, 0, some)
    ensures Filled(buckets, chains', lg, members, some) && Counted(buckets[..], ideal, nonideal)
  {
    chains', some, nonideal := chains, {}, 0;
    for i := 0 to heads.Length
      invariant Waiting(from, i, 0, members) && Walked(from, i, 0, some)
      invariant Filled(buckets, chains', lg, members, some) && Counted(buckets[..], ideal, nonideal)
    {
      chains', some, nonideal := MoveChain(buckets, from, i, heads[i].hhHead, chains', lg, members, some, ideal,
                                           nonideal);
    }
  }

  /** The redistribution of HASH_EXPAND_BUCKETS: every element moves to its place in an array of twice the size. */
  method Rehash(buckets: array<Bucket>, ghost chains: seq<seq<Entry>>, lg: nat, ghost members: set<Entry>, ideal: nat)
    returns (buckets': array<Bucket>, ghost chains': seq<seq<Entry>>, nonideal: nat)
    requires Filled(buckets, chains, lg, members, members) && ideal > 0
    modifies members`hhNext, members`hhPrev
    ensures fresh(buckets') && Filled(buckets', chains', lg + 1, members, members)
    ensures Counted(buckets'[..], ideal, nonideal)
  {
    FilledApart(buckets, chains, lg, members);
    buckets', chains' := EmptyBuckets(lg + 1, members, 2 * buckets.Length);
    NoExcess(buckets'[..], ideal, buckets'.Length);
    ghost var some;
    chains', some, nonideal := MoveAll(buckets, buckets', chains, chains', lg + 1, members, ideal);
    WalkedAll(chains, lg, members, some, chains');
  }
}
