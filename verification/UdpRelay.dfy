/**
 The callbacks of the server's UDP relay (src/udprelay.c built as MODULE_REMOTE) on the connection cache.
 Sockets are outside: whether one could be created and whether a packet could be sent are parameters.
 */
module UdpRelay {
  import opened Bytes
  import opened CacheSpec
  import opened ConnCache
  import opened UdpHeader
  import opened UdpSpec

  class Relay {
    const cache: Cache
    /** The live remote contexts, by address. */
    var contexts: map<nat, Context>
    var next: nat

    ghost function Current(): World
      reads this, cache
    {
      World(cache.Contents(), contexts, next)
    }

    ghost predicate Valid()
      reads this, cache, cache.table, cache.table.tbl.buckets, cache.table.view.members, cache.table.view.order
    {
      cache.Valid() && cache.maxEntries == MAX_UDP_CONN_NUM && Inv(Current())
    }

    /** init_udprelay */
    constructor (hash: seq<byte> -> nat)
      ensures Valid() && Current() == INIT
      ensures fresh(cache) && fresh(cache.table) && fresh(cache.table.tbl.buckets) && cache.table.view.members == {}
    {
      cache := new Cache(MAX_UDP_CONN_NUM, hash);
      contexts, next := map[], 1;
    }

    /** free_cb, for what the cache has freed since its log was n long. */
    method CloseFreed(n: nat)
      modifies this`contexts
      ensures contexts == Closed(old(contexts), cache.freed, n)
    {
      var freed := cache.freed;
      contexts := map id | id in contexts && (n > |freed| || id !in freed[n..]) :: contexts[id];
    }

    /** What both callbacks do when there is no context. */
    method Connect(c: Context, socketOk: bool, sendOk: bool, now: real)
      requires Valid() && Absent(cache.items, KeyOf(c))
      modifies this, cache, cache.table, cache.table.tbl.buckets, cache.table.view.members
      ensures Valid() && Current() == Start(old(Current()), c, socketOk, sendOk, now)
      ensures fresh(cache.table.tbl.buckets) || cache.table.tbl.buckets == old(cache.table.tbl.buckets)
      ensures fresh(cache.table.view.members - old(cache.table.view.members))
    {
      StartKeeps(Current(), c, socketOk, sendOk, now);
      if socketOk {
        var id := next;
        next := next + 1;
        if sendOk {
          var n := |cache.freed|;
          contexts := contexts[id := c];
          cache.Insert(KeyOf(c), id, now);
          CloseFreed(n);
        }
      }
    }

    /** cache_lookup of a key. */
    method Look(key: seq<byte>, now: real) returns (id: nat)
      requires Valid()
      modifies cache, cache.table, cache.table.tbl.buckets, cache.table.view.members
      ensures Valid() && Current() == old(Current()).(cache := Touched(old(Current()).cache, key, now))
      ensures id == Found(old(Current()), key)
      ensures id != NULL ==> id in contexts
      ensures id == NULL ==> Absent(cache.items, key)
      ensures fresh(cache.table.tbl.buckets) || cache.table.tbl.buckets == old(cache.table.tbl.buckets)
      ensures cache.table.view.members == old(cache.table.view.members)
    {
      TouchKeeps(Current(), key, now);
      FoundIs(Current(), key);
      id := cache.Lookup(key, now);
    }

    /** server_recv_cb, once the packet is decrypted and its header parsed. It asks for a name to be resolved when
        the header gives no address; the query carries the context that was found, if any. */
    method ServerRecv(src: Addr, dst: Addr, socketOk: bool, sendOk: bool, now: real) returns (query: bool, saved: nat)
      requires Valid()
      modifies this, cache, cache.table, cache.table.tbl.buckets, cache.table.view.members
      ensures Valid() && Current() == Received(old(Current()), src, dst, socketOk, sendOk, now)
      ensures query == (Family(dst) != AF_INET && Family(dst) != AF_INET6)
      ensures saved == if query then Found(old(Current()), HashKey(Family(dst), src)) else NULL
    {
      ReceivedKeeps(Current(), src, dst, socketOk, sendOk, now);
      var key := HashKey(Family(dst), src);
      if Found(Current(), key) != NULL {
        FoundIsUsable(Current(), Family(dst), src);
      }
      var id := Look(key, now);
      if id != NULL && !SockaddrEqual(src, contexts[id].src) {
        id := NULL;
      }
      query := Family(dst) != AF_INET && Family(dst) != AF_INET6;
      saved := if query then id else NULL;
      if id == NULL && !query {
        Connect(Context(Family(dst), src), socketOk, sendOk, now);
      }
    }

    /** resolv_cb, given an address for a packet from src; saved is the context that the query was started with. */
    method ResolvCb(src: Addr, saved: nat, socketOk: bool, sendOk: bool, now: real)
      requires Valid()
      modifies this, cache, cache.table, cache.table.tbl.buckets, cache.table.view.members
      ensures Valid() && Current() == Answered(old(Current()), src, saved, socketOk, sendOk, now)
    {
      AnsweredKeeps(Current(), src, saved, socketOk, sendOk, now);
      if saved == NULL {
        var id := Look(HashKey(AF_UNSPEC, src), now);
        if id == NULL {
          Connect(Context(AF_UNSPEC, src), socketOk, sendOk, now);
        }
      }
    }

    /** remote_timeout_cb of a live context: that context is closed, and no other. */
    method RemoteTimeout(id: nat)
      requires Valid() && id in contexts
      modifies this, cache, cache.table, cache.table.tbl.buckets, cache.table.view.members
      ensures Valid() && Current() == TimedOut(old(Current()), id)
      ensures contexts == old(contexts) - {id} && cache.freed == old(cache.freed) + [id]
    {
      ghost var i := TimeoutIsExact(Current(), id);
      var n := |cache.freed|;
      cache.Remove(KeyOf(contexts[id]));
      CloseFreed(n);
    }
  }
}
