/**
 Definitions that proofs look into only where they say so.

 A large definition that is unfolded wherever it is mentioned makes proofs slow, even those that only pass it on. Such a
 definition D is therefore written as

   forall k {:trigger InD(k)} :: InD(k) ==> body

 which means the same as its body, because InD holds of everything. The verifier unfolds it only where a proof mentions
 InD, as in `assert InD(0);`. Each definition hidden like this has a predicate of its own, all of them here.
 */
module Hiding {
  // AeadCodec.Remains
  ghost predicate InRemains(k: int) { true }

  // UtHash.Indexed, UtHash.Counted and UtHash.Relaxes
  ghost predicate InIndex(k: int) { true }
  ghost predicate InCounts(k: int) { true }

  // HashTable.ListOk and HashTable.Keyed
  ghost predicate InList(k: int) { true }
  ghost predicate InKeys(k: int) { true }

  // ConnCache.Cached
  ghost predicate InCache(k: int) { true }

  // TcpHeap.Servers, TcpHeap.Remotes, TcpHeap.Queries and TcpHeap.Links
  ghost predicate InServers(k: int) { true }
  ghost predicate InRemotes(k: int) { true }
  ghost predicate InQueries(k: int) { true }
  ghost predicate InLinks(k: int) { true }

  // TcpObjects.Attaches
  ghost predicate InAttach(k: int) { true }

  // Tunnel.Asks
  ghost predicate InClient(k: int) { true }

  // Base64.Follows and Base64.Reads
  ghost predicate InLow(k: int) { true }
  ghost predicate InRead(k: int) { true }

  // JsonAccept.Unlimited, JsonAccept.Leads and JsonAccept.Dies
  ghost predicate InRun(k: int) { true }

  // JsonMeaning.Told
  ghost predicate InTold(k: int) { true }

  // JsonMeaning.Continues
  ghost predicate InScan(k: int) { true }
}
