/**
 The connection table of the server's UDP relay (src/udprelay.c built as MODULE_REMOTE): which remote
 contexts live, and under which key each is cached.
 */
module UdpSpec {
  import opened Bytes
  import opened CacheSpec
  import opened UdpHeader

  const MAX_UDP_CONN_NUM: nat := 512

  type Af = x: nat | x < TWO_TO_THE_32

  /** The fields of a remote context that its key is made of. */
  datatype Context = Context(af: Af, src: Addr)

  /** Contexts are named by numbers, as pointers are; 0 is NULL. A number is never used again. */
  datatype World = World(cache: State, contexts: map<nat, Context>, next: nat)

  datatype Event =
    /** server_recv_cb: a packet from src whose header gives dst. */
    | Packet(src: Addr, dst: Addr, socketOk: bool, sendOk: bool, now: real)
    /** resolv_cb with an address: the answer to a query for a packet from src; saved is the context that the query
        was started with, or NULL. */
    | Answer(src: Addr, saved: nat, socketOk: bool, sendOk: bool, now: real)
    /** remote_timeout_cb of a live context. */
    | Timeout(id: nat)

  /** hash_key: the bytes of the family, then those of the address. */
  function HashKey(af: Af, src: Addr): seq<byte> {
    var b1 := af / 256;
    var b2 := b1 / 256;
    [af % 256, b1 % 256, b2 % 256, b2 / 256] + src
  }

  lemma HashKeyBytes(af: Af, src: Addr, key: seq<byte>)
    requires key == HashKey(af, src)
    ensures |key| == 4 + STORAGE_SIZE && key[4..] == src
    ensures af == key[0] as int + 256 * (key[1] as int + 256 * (key[2] as int + 256 * key[3] as int))
  {
    var b1 := af / 256;
    var b2 := b1 / 256;
    assert af == 256 * b1 + af % 256 && b1 == 256 * b2 + b1 % 256;
  }

  lemma HashKeyInjective(af: Af, src: Addr, af': Af, src': Addr)
    requires HashKey(af, src) == HashKey(af', src')
    ensures af == af' && src == src'
  {
    HashKeyBytes(af, src, HashKey(af, src));
    HashKeyBytes(af', src', HashKey(af, src));
  }

  function KeyOf(c: Context): seq<byte> {
    HashKey(c.af, c.src)
  }

  /** The contexts without those freed since the log was n long. */
  function Closed(contexts: map<nat, Context>, freed: seq<nat>, n: nat): map<nat, Context> {
    map id | id in contexts && (n > |freed| || id !in freed[n..]) :: contexts[id]
  }

  /** new_remote, cache_insert and what that evicts. */
  function Open(w: World, c: Context, now: real): World {
    var cache := Inserted(MAX_UDP_CONN_NUM, w.cache, Item(KeyOf(c), w.next, now));
    World(cache, Closed(w.contexts[w.next := c], cache.freed, |w.cache.freed|), w.next + 1)
  }

  /** The context that a lookup of the key gives, or NULL. */
  function Found(w: World, key: seq<byte>): nat {
    var i := Find(w.cache.items, |w.cache.items|, key);
    if i < 0 then NULL else w.cache.items[i].data
  }

  /** The rest of server_recv_cb and of resolv_cb when there is no context yet: a context is cached only
      if its socket was made and the first packet sent. */
  function Start(w: World, c: Context, socketOk: bool, sendOk: bool, now: real): World {
    if !socketOk then w
    else if !sendOk then w.(next := w.next + 1)
    else Open(w, c, now)
  }

  /** The test on a cached context by sockaddr_cmp. */
  predicate Usable(w: World, id: nat, src: Addr) {
    id != NULL && id in w.contexts && SockaddrEqual(src, w.contexts[id].src)
  }

  function Received(w: World, src: Addr, dst: Addr, socketOk: bool, sendOk: bool, now: real): World {
    var key := HashKey(Family(dst), src);
    var id := Found(w, key);
    var w := w.(cache := Touched(w.cache, key, now));
    if Usable(w, id, src) then w
    else if Family(dst) == AF_INET || Family(dst) == AF_INET6 then
      Start(w, Context(Family(dst), src), socketOk, sendOk, now)
    else w
  }

  function Answered(w: World, src: Addr, saved: nat, socketOk: bool, sendOk: bool, now: real): World {
    if saved != NULL then w
    else
      var key := HashKey(AF_UNSPEC, src);
      var id := Found(w, key);
      var w := w.(cache := Touched(w.cache, key, now));
      if id != NULL then w else Start(w, Context(AF_UNSPEC, src), socketOk, sendOk, now)
  }

  function TimedOut(w: World, id: nat): World {
    if id !in w.contexts then w
    else
      var cache := Removed(w.cache, KeyOf(w.contexts[id]));
      World(cache, Closed(w.contexts, cache.freed, |w.cache.freed|), w.next)
  }

  function Step(w: World, e: Event): World {
    match e
    case Packet(src, dst, socketOk, sendOk, now) => Received(w, src, dst, socketOk, sendOk, now)
    case Answer(src, saved, socketOk, sendOk, now) => Answered(w, src, saved, socketOk, sendOk, now)
    case Timeout(id) => TimedOut(w, id)
  }

  const INIT := World(State([], []), map[], 1)

  /** The worlds that a run of events goes through. */
  ghost predicate IsRun(trace: seq<World>, events: seq<Event>) {
    && |trace| == |events| + 1 && trace[0] == INIT
    && forall i :: 0 <= i < |events| ==> trace[i + 1] == Step(trace[i], events[i])
  }

  // ---------- the key invariant ----------

  /** Keys are unique, and each item holds a live context, under the key of that context. */
  ghost predicate Owned(items: seq<Item>, contexts: map<nat, Context>, keyOf: Context -> seq<byte>) {
    && (forall i, j :: 0 <= i < j < |items| ==> items[i].key != items[j].key)
    && forall i :: 0 <= i < |items| ==> items[i].data in contexts && items[i].key == keyOf(contexts[items[i].data])
  }

  predicate Holds(items: seq<Item>, id: nat) {
    exists i :: 0 <= i < |items| && items[i].data == id
  }

  /** Every live context is cached. */
  ghost predicate AllCached(items: seq<Item>, contexts: map<nat, Context>) {
    forall id :: id in contexts ==> Holds(items, id)
  }

  ghost predicate Numbered(contexts: map<nat, Context>, next: nat) {
    next > 0 && forall id :: id in contexts ==> 0 < id < next
  }

  /** What was freed is no longer live, and was freed once. */
  ghost predicate FreedOnce(freed: seq<nat>, contexts: map<nat, Context>, next: nat) {
    (forall i :: 0 <= i < |freed| ==> freed[i] < next && freed[i] !in contexts)
    && forall i, j :: 0 <= i < j < |freed| ==> freed[i] != freed[j]
  }

  ghost predicate Inv(w: World) {
    && Owned(w.cache.items, w.contexts, KeyOf) && AllCached(w.cache.items, w.contexts)
    && Numbered(w.contexts, w.next) && FreedOnce(w.cache.freed, w.contexts, w.next)
  }

  lemma OwnedDrop(items: seq<Item>, contexts: map<nat, Context>, i: nat, rest: map<nat, Context>,
                  keyOf: Context -> seq<byte>)
    requires Owned(items, contexts, keyOf) && i < |items| && rest == contexts - {items[i].data}
    ensures Owned(Drop(items, i), rest, keyOf) && Absent(Drop(items, i), items[i].key)
  {
    var w := Drop(items, i);
    assert forall j :: 0 <= j < |w| ==> w[j] == items[if j < i then j else j + 1];
  }

  lemma CachedDrop(items: seq<Item>, contexts: map<nat, Context>, i: nat, rest: map<nat, Context>)
    requires AllCached(items, contexts) && i < |items| && rest == contexts - {items[i].data}
    ensures AllCached(Drop(items, i), rest)
  {
    var w := Drop(items, i);
    forall id | id in rest
      ensures Holds(w, id)
    {
      assert Holds(items, id);
      var j :| 0 <= j < |items| && items[j].data == id;
      assert w[if j < i then j else j - 1].data == id;
    }
  }

  lemma OwnedPush(items: seq<Item>, contexts: map<nat, Context>, x: Item, c: Context, more: map<nat, Context>,
                  keyOf: Context -> seq<byte>)
    requires Owned(items, contexts, keyOf)
    requires x.data !in contexts && x.key == keyOf(c) && Absent(items, x.key) && more == contexts[x.data := c]
    ensures Owned(items + [x], more, keyOf)
  {
  }

  lemma CachedPush(items: seq<Item>, contexts: map<nat, Context>, x: Item, c: Context, more: map<nat, Context>)
    requires AllCached(items, contexts) && more == contexts[x.data := c]
    ensures AllCached(items + [x], more)
  {
    var after := items + [x];
    assert after[|items|] == x;
    forall id | id in more
      ensures Holds(after, id)
    {
      if id != x.data {
        assert Holds(items, id);
        var j :| 0 <= j < |items| && items[j].data == id;
        assert after[j].data == id;
      }
    }
  }

  lemma OwnedTouch(items: seq<Item>, contexts: map<nat, Context>, key: seq<byte>, now: real,
                   keyOf: Context -> seq<byte>)
    requires Owned(items, contexts, keyOf) && AllCached(items, contexts)
    ensures Owned(Touch(items, key, now), contexts, keyOf) && AllCached(Touch(items, key, now), contexts)
  {
    var i := Find(items, |items|, key);
    if i >= 0 {
      var x, rest := items[i], contexts - {items[i].data};
      OwnedDrop(items, contexts, i, rest, keyOf);
      CachedDrop(items, contexts, i, rest);
      assert contexts == rest[x.data := contexts[x.data]];
      OwnedPush(Drop(items, i), rest, x.(ts := now), contexts[x.data], contexts, keyOf);
      CachedPush(Drop(items, i), rest, x.(ts := now), contexts[x.data], contexts);
    }
  }

  /** A lookup on a sound table gives the context whose key it is, and NULL exactly when the key is absent. */
  lemma FoundIs(w: World, key: seq<byte>)
    requires Inv(w)
    ensures var id := Found(w, key);
            if id == NULL then Absent(w.cache.items, key) else id in w.contexts && KeyOf(w.contexts[id]) == key
  {
    var items := w.cache.items;
    assert items[..|items|] == items;
  }

  /** Freeing one context closes it. */
  lemma ClosedOne(contexts: map<nat, Context>, freed: seq<nat>, x: Item)
    requires x.data != NULL
    ensures Closed(contexts, freed + Release(x), |freed|) == contexts - {x.data}
  {
    assert (freed + Release(x))[|freed|..] == [x.data];
  }

  lemma ClosedNone(contexts: map<nat, Context>, freed: seq<nat>)
    ensures Closed(contexts, freed, |freed|) == contexts
  {
    assert freed[|freed|..] == [];
  }

  lemma FreedMore(freed: seq<nat>, contexts: map<nat, Context>, next: nat, x: Item)
    requires FreedOnce(freed, contexts, next) && x.data in contexts && x.data < next
    ensures FreedOnce(freed + Release(x), contexts - {x.data}, next)
  {
  }

  /** Evicting the first entry and closing its context. */
  lemma EvictKeeps(items: seq<Item>, freed: seq<nat>, contexts: map<nat, Context>, next: nat)
    requires Inv(World(State(items, freed), contexts, next)) && |items| > 0
    ensures Inv(World(State(items[1..], freed + Release(items[0])),
            Closed(contexts, freed + Release(items[0]), |freed|), next))
    ensures Closed(contexts, freed + Release(items[0]), |freed|) == contexts - {items[0].data}
  {
    var rest := contexts - {items[0].data};
    OwnedDrop(items, contexts, 0, rest, KeyOf);
    CachedDrop(items, contexts, 0, rest);
    assert Drop(items, 0) == items[1..];
    ClosedOne(contexts, freed, items[0]);
    FreedMore(freed, contexts, next, items[0]);
  }

  /** Adding a context with a new number, whose key is absent. */
  lemma PushKeeps(w: World, c: Context, now: real)
    requires Inv(w) && Absent(w.cache.items, KeyOf(c))
    ensures Inv(World(State(w.cache.items + [Item(KeyOf(c), w.next, now)], w.cache.freed), w.contexts[w.next := c],
            w.next + 1))
  {
    var x, more := Item(KeyOf(c), w.next, now), w.contexts[w.next := c];
    OwnedPush(w.cache.items, w.contexts, x, c, more, KeyOf);
    CachedPush(w.cache.items, w.contexts, x, c, more);
  }

  /** Opening a context whose key is absent keeps the table sound, and the context lives. */
  lemma OpenKeeps(w: World, c: Context, now: real)
    requires Inv(w) && Absent(w.cache.items, KeyOf(c))
    ensures Inv(Open(w, c, now))
    ensures w.next in Open(w, c, now).contexts
  {
    var x, more := Item(KeyOf(c), w.next, now), w.contexts[w.next := c];
    var items := w.cache.items + [x];
    PushKeeps(w, c, now);
    if |items| >= MAX_UDP_CONN_NUM {
      assert items[0] == w.cache.items[0];
      EvictKeeps(items, w.cache.freed, more, w.next + 1);
    } else {
      ClosedNone(more, w.cache.freed);
    }
  }

  lemma StartKeeps(w: World, c: Context, socketOk: bool, sendOk: bool, now: real)
    requires Inv(w) && Absent(w.cache.items, KeyOf(c))
    ensures Inv(Start(w, c, socketOk, sendOk, now))
  {
    OpenKeeps(w, c, now);
  }

  lemma TouchKeeps(w: World, key: seq<byte>, now: real)
    requires Inv(w)
    ensures Inv(w.(cache := Touched(w.cache, key, now)))
    ensures Absent(w.cache.items, key) ==> Touched(w.cache, key, now) == w.cache
  {
    OwnedTouch(w.cache.items, w.contexts, key, now, KeyOf);
  }

  /** A context that server_recv_cb finds is one of the same source, so its test by sockaddr_cmp never fails. */
  lemma FoundIsUsable(w: World, af: Af, src: Addr)
    requires Inv(w) && Found(w, HashKey(af, src)) != NULL
    ensures Usable(w, Found(w, HashKey(af, src)), src)
    ensures w.contexts[Found(w, HashKey(af, src))] == Context(af, src)
  {
    var id := Found(w, HashKey(af, src));
    FoundIs(w, HashKey(af, src));
    HashKeyInjective(w.contexts[id].af, w.contexts[id].src, af, src);
  }

  /** server_recv_cb inserts only after a miss on the key it inserts. */
  lemma ReceivedKeeps(w: World, src: Addr, dst: Addr, socketOk: bool, sendOk: bool, now: real)
    requires Inv(w)
    ensures Inv(Received(w, src, dst, socketOk, sendOk, now))
    ensures var key := HashKey(Family(dst), src);
            var touched := w.(cache := Touched(w.cache, key, now));
            if Absent(w.cache.items, key) then Found(w, key) == NULL && touched == w
            else Received(w, src, dst, socketOk, sendOk, now) == touched
  {
    var key := HashKey(Family(dst), src);
    FoundIs(w, key);
    TouchKeeps(w, key, now);
    if Found(w, key) != NULL {
      FoundIsUsable(w, Family(dst), src);
    } else {
      assert KeyOf(Context(Family(dst), src)) == key;
      StartKeeps(w, Context(Family(dst), src), socketOk, sendOk, now);
    }
  }

  /** So does resolv_cb. */
  lemma AnsweredKeeps(w: World, src: Addr, saved: nat, socketOk: bool, sendOk: bool, now: real)
    requires Inv(w)
    ensures Inv(Answered(w, src, saved, socketOk, sendOk, now))
    ensures var key := HashKey(AF_UNSPEC, src);
            var touched := w.(cache := Touched(w.cache, key, now));
            saved == NULL ==> if Absent(w.cache.items, key) then Found(w, key) == NULL && touched == w
                              else Answered(w, src, saved, socketOk, sendOk, now) == touched
  {
    var key := HashKey(AF_UNSPEC, src);
    FoundIs(w, key);
    TouchKeeps(w, key, now);
    if Found(w, key) == NULL {
      assert KeyOf(Context(AF_UNSPEC, src)) == key;
      StartKeeps(w, Context(AF_UNSPEC, src), socketOk, sendOk, now);
    }
  }

  // ---------- what the callbacks leave behind ----------

  /** Every live context is found under its own key. */
  lemma LiveIsFound(w: World, id: nat)
    requires Inv(w) && id in w.contexts
    ensures Found(w, KeyOf(w.contexts[id])) == id
  {
    var items := w.cache.items;
    assert Holds(items, id);
    var k :| 0 <= k < |items| && items[k].data == id;
    OnlyOne(items, k, KeyOf(w.contexts[id]));
  }

  /** A context is opened: it lives under its key, and the others stay, except that a full cache gives up the one
      that was used least recently. */
  ghost predicate Opened(w: World, w': World, c: Context) {
    && w'.next == w.next + 1 && w.next in w'.contexts && w'.contexts[w.next] == c && Found(w', KeyOf(c)) == w.next
    && if |w.cache.items| + 1 < MAX_UDP_CONN_NUM then
         w'.contexts == w.contexts[w.next := c] && w'.cache.freed == w.cache.freed
       else
         var victim := w.cache.items[0].data;
         w'.contexts == w.contexts[w.next := c] - {victim} && w'.cache.freed == w.cache.freed + [victim]
  }

  /** Nothing is opened or closed. */
  ghost predicate Unopened(w: World, w': World) {
    w'.contexts == w.contexts && w'.cache.freed == w.cache.freed && forall key :: Found(w', key) == Found(w, key)
  }

  lemma OpenIsExact(w: World, c: Context, now: real)
    requires Inv(w) && Absent(w.cache.items, KeyOf(c))
    ensures Opened(w, Open(w, c, now), c)
  {
    var x, more := Item(KeyOf(c), w.next, now), w.contexts[w.next := c];
    var items := w.cache.items + [x];
    OpenKeeps(w, c, now);
    if |items| >= MAX_UDP_CONN_NUM {
      assert items[0] == w.cache.items[0];
      ClosedOne(more, w.cache.freed, items[0]);
    } else {
      ClosedNone(more, w.cache.freed);
    }
    LiveIsFound(Open(w, c, now), w.next);
  }

  /** A lookup changes the order of the items and nothing that a later one finds. */
  lemma TouchFinds(w: World, key: seq<byte>, now: real)
    requires Inv(w)
    ensures Unopened(w, w.(cache := Touched(w.cache, key, now)))
  {
    var w' := w.(cache := Touched(w.cache, key, now));
    TouchKeeps(w, key, now);
    forall k
      ensures Found(w', k) == Found(w, k)
    {
      FoundIs(w, k);
      FoundIs(w', k);
      if Found(w, k) != NULL {
        LiveIsFound(w', Found(w, k));
      } else if Found(w', k) != NULL {
        LiveIsFound(w, Found(w', k));
      }
    }
  }

  /** server_recv_cb: exactly the first packet of a source to an address of a family opens a context, if its socket
      is made and the packet sent. */
  lemma ReceivedExactly(w: World, src: Addr, dst: Addr, socketOk: bool, sendOk: bool, now: real)
    requires Inv(w)
    ensures var w', af := Received(w, src, dst, socketOk, sendOk, now), Family(dst);
            if Absent(w.cache.items, HashKey(af, src)) && (af == AF_INET || af == AF_INET6) && socketOk && sendOk
            then Opened(w, w', Context(af, src))
            else Unopened(w, w')
  {
    var key := HashKey(Family(dst), src);
    ReceivedKeeps(w, src, dst, socketOk, sendOk, now);
    TouchFinds(w, key, now);
    FoundIs(w, key);
    if Absent(w.cache.items, key) {
      assert KeyOf(Context(Family(dst), src)) == key;
      OpenIsExact(w, Context(Family(dst), src), now);
    }
  }

  /** resolv_cb: the same for the answer to a query that was started without a context. */
  lemma AnsweredExactly(w: World, src: Addr, saved: nat, socketOk: bool, sendOk: bool, now: real)
    requires Inv(w)
    ensures var w' := Answered(w, src, saved, socketOk, sendOk, now);
            if saved == NULL && Absent(w.cache.items, HashKey(AF_UNSPEC, src)) && socketOk && sendOk
            then Opened(w, w', Context(AF_UNSPEC, src))
            else Unopened(w, w')
  {
    var key := HashKey(AF_UNSPEC, src);
    AnsweredKeeps(w, src, saved, socketOk, sendOk, now);
    TouchFinds(w, key, now);
    FoundIs(w, key);
    if Absent(w.cache.items, key) {
      assert KeyOf(Context(AF_UNSPEC, src)) == key;
      OpenIsExact(w, Context(AF_UNSPEC, src), now);
    }
  }

  /** A timeout removes and frees its own context and nothing else. */
  lemma TimeoutIsExact(w: World, id: nat) returns (i: nat)
    requires Inv(w) && id in w.contexts
    ensures i < |w.cache.items| && w.cache.items[i].data == id
    ensures TimedOut(w, id) == World(State(Drop(w.cache.items, i), w.cache.freed + [id]), w.contexts - {id}, w.next)
    ensures Inv(TimedOut(w, id))
  {
    var items := w.cache.items;
    assert Holds(items, id);
    var k :| 0 <= k < |items| && items[k].data == id;
    i := k;
    var key := KeyOf(w.contexts[id]);
    OnlyOne(items, i, key);
    ClosedOne(w.contexts, w.cache.freed, items[i]);
    OwnedDrop(items, w.contexts, i, w.contexts - {id}, KeyOf);
    CachedDrop(items, w.contexts, i, w.contexts - {id});
    FreedMore(w.cache.freed, w.contexts, w.next, items[i]);
  }

  lemma OnlyOne(items: seq<Item>, i: nat, key: seq<byte>)
    requires i < |items| && items[i].key == key && forall i, j :: 0 <= i < j < |items| ==> items[i].key != items[j].key
    ensures Find(items, |items|, key) == i
  {
    assert items[..|items|] == items;
    assert items[..|items|][i].key == key;
  }

  lemma StepKeeps(w: World, e: Event)
    requires Inv(w)
    ensures Inv(Step(w, e))
  {
    match e
    case Packet(src, dst, socketOk, sendOk, now) => ReceivedKeeps(w, src, dst, socketOk, sendOk, now);
    case Answer(src, saved, socketOk, sendOk, now) => AnsweredKeeps(w, src, saved, socketOk, sendOk, now);
    case Timeout(id) =>
      if id in w.contexts {
        var _ := TimeoutIsExact(w, id);
      }
  }

  /** In every run, keys are unique, each cached context is live and stored under its own key, every live context
      is cached, and none is freed twice. */
  lemma {:induction false} RunKeeps(trace: seq<World>, events: seq<Event>, n: nat)
    requires IsRun(trace, events) && n <= |events|
    ensures Inv(trace[n])
  {
    if n > 0 {
      RunKeeps(trace, events, n - 1);
      StepKeeps(trace[n - 1], events[n - 1]);
      assert trace[n - 1 + 1] == Step(trace[n - 1], events[n - 1]);
    }
  }

  // ---------- which contexts live ----------

  /** The event opens a context, which gets the next number. */
  predicate Opens(w: World, e: Event) {
    match e
    case Packet(src, dst, socketOk, sendOk, _) =>
      && Absent(w.cache.items, HashKey(Family(dst), src)) && (Family(dst) == AF_INET || Family(dst) == AF_INET6)
      && socketOk && sendOk
    case Answer(src, saved, socketOk, sendOk, _) =>
      saved == NULL && Absent(w.cache.items, HashKey(AF_UNSPEC, src)) && socketOk && sendOk
    case Timeout(_) => false
  }

  /** The event closes a context: its timer runs out, or it makes room for a new one. */
  predicate Closes(w: World, e: Event, id: nat) {
    || (e.Timeout? && e.id == id)
    || (Opens(w, e) && 0 < |w.cache.items| && |w.cache.items| + 1 >= MAX_UDP_CONN_NUM && w.cache.items[0].data == id)
  }

  lemma StepContexts(w: World, e: Event, id: nat)
    requires Inv(w)
    ensures id in Step(w, e).contexts <==> (id in w.contexts && !Closes(w, e, id)) || (Opens(w, e) && id == w.next)
  {
    match e
    case Packet(src, dst, socketOk, sendOk, now) => ReceivedExactly(w, src, dst, socketOk, sendOk, now);
    case Answer(src, saved, socketOk, sendOk, now) => AnsweredExactly(w, src, saved, socketOk, sendOk, now);
    case Timeout(o) =>
      if o in w.contexts {
        var _ := TimeoutIsExact(w, o);
      }
  }

  ghost predicate OpensAt(trace: seq<World>, events: seq<Event>, i: nat, id: nat)
    requires i < |events| && i < |trace|
  {
    Opens(trace[i], events[i]) && id == trace[i].next
  }

  ghost predicate ClosesAt(trace: seq<World>, events: seq<Event>, i: nat, id: nat)
    requires i < |events| && i < |trace|
  {
    Closes(trace[i], events[i], id)
  }

  /** In every run a context lives if and only if some event opened it and none has closed it since. */
  lemma {:induction false} LiveExactly(trace: seq<World>, events: seq<Event>, id: nat, n: nat)
    requires IsRun(trace, events) && n <= |events|
    ensures id in trace[n].contexts <==>
            exists i :: 0 <= i < n && OpensAt(trace, events, i, id)
                        && forall j :: i < j < n ==> !ClosesAt(trace, events, j, id)
  {
    if n > 0 {
      LiveExactly(trace, events, id, n - 1);
      RunKeeps(trace, events, n - 1);
      StepContexts(trace[n - 1], events[n - 1], id);
      assert trace[n - 1 + 1] == Step(trace[n - 1], events[n - 1]);
      LiveStep(trace, events, id, n);
    }
  }

  /** The right side of that statement, one event later. */
  lemma LiveStep(trace: seq<World>, events: seq<Event>, id: nat, n: nat)
    requires 0 < n <= |events| <= |trace|
    ensures (exists i :: 0 <= i < n && OpensAt(trace, events, i, id)
                         && forall j :: i < j < n ==> !ClosesAt(trace, events, j, id)) <==>
            || OpensAt(trace, events, n - 1, id)
            || (!ClosesAt(trace, events, n - 1, id)
                && exists i :: 0 <= i < n - 1 && OpensAt(trace, events, i, id)
                               && forall j :: i < j < n - 1 ==> !ClosesAt(trace, events, j, id))
  {
  }
}
