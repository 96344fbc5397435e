# Shadowsocks-libev with IP lock: a verified model

This project models the data path of shadowsocks-libev and of its per-port IP-lock extension in Dafny, and proves what that
code is for. Each component is modelled twice where the source changes state: as the specification of a step on plain
values, about which the theorems over whole runs are proved, and as classes and loops that update buffers, links and tables in
place as the C code does, each proved to be that step.

- **AEAD chunk stream** (`AeadSpec`, `AeadStream`, `AeadCodec`, `Buffers`): salt, counting nonces, length and payload chunks, and
  the reassembly buffer. Under every fragmentation of the TCP stream exactly the chunks fully received are delivered.
- **Replay filter** (`Bloom`, `PingPongBloom`, `SaltReplay`): the bit array, the two alternating filters, and salt acceptance by any
  number of interleaved connections and packets.
- **Stream ciphers** (`StreamSpec`, `StreamCodec`): the counter and padding logic of Salsa20 and ChaCha20 equals one exclusive-or with
  a byte keystream.
- **IP lock** (`RecentIps`, `IpLock`, `LockLists`, `LockCode`): the list of recent addresses, the protocol between accepts, closes
  and outside changes, and both lists over a whole run of it.
- **Hash table, cache and UDP relay** (`UtHash`, `HashTable`, `CacheSpec`, `ConnCache`, `UdpHeader`, `UdpSpec`, `UdpRelay`): bucket
  chains that double and agree with the ordered list, an LRU cache on that, and the connection table on the cache.
- **TCP relay** (`TcpHeader`, `RelaySpec`, `RelayWorld`, `RelayProof`, `RelayLife`, `Lifetimes`, `RelayEnds`, `RelayCounts`):
  callbacks as steps on server, remote and query objects with watchers, stages, partial sends and pointers; exactly which of
  them end a connection, and how much each sends. `TcpObjects`, `TcpHeap` and `TcpRelay` run the same callbacks on heap
  objects that point at each other.
- **Relay and codec together** (`RelayCodec`, `RelayDown`, `Tunnel`): what a client encrypts is what the remote is sent, and what
  the remote answers is what the client decrypts, under every fragmentation and interleaving; and the whole way from a SOCKS5
  client to its target.
- **SOCKS5 front end** (`Socks5`): the handshake of ss-local and the header that ss-server reads.
- **JSON** (`JsonText`, `JsonPass`, `JsonTwoPass`, `JsonLex`, `JsonMeaning`, `JsonGrammar`, `JsonAccept`, `JsonFree`, `JsonParse`,
  `JsonWide`): the two passes of the parser, what an accepted text means and exactly which texts are accepted, the freeing
  loop, and texts of any width.
- **Base64 and keys** (`Base64`, `KeyDerivation`).

Ciphers, hash functions, name policies and the results of system calls are parameters. The laws assumed of a cipher are
written out in `Cipher.Lawful` and `Method.Lawful`, and `LawfulExists` in both modules shows that they can be met. `Hiding` explains
how some definitions are kept out of proofs that do not need them.

Where the code and its promises differ, the code is followed, and lemmas say exactly when the difference arises, in most cases
with a concrete input or run:

- An AEAD packet with empty payload does not open (`AeadStream.PacketRoundTrip`).
- A second address is let in beside a connected one, after a lock file that could not be written or was changed outside
  (`IpLock.UnwrittenLockAdmitsTwo`, `IpLock.StepExact`, `IpLock.OneAddressExactly`). A lock file that is there but cannot be read drops
  the lock without emptying the lists (`LockLists.UnreadFileKeepsLists`, `LockLists.ResetsExactly`).
- A UDP ASSOCIATE request is answered once per fragment (`Socks5.AssociatedTwice`, `Socks5.FeedTwice`).
- A stopped connection may leave its remote behind for good (`RelayLife.StrandedIsReached`, `RelayLife.StrandedExactly`,
  `RelayLife.LeaksExactly`).
- A stopped connection receives into the buffer from which it may still have to send to its client, who then gets other bytes
  than those encrypted for it (`RelayDown.CorruptionIsReached`, `RelayDown.StepDown`, `RelayDown.DownExactly`).
- The JSON parser accepts a comma before a closing bracket or brace and a lone minus sign (`JsonGrammar.LenientTexts`,
  `JsonAccept.AcceptsExactly`).
- A surrogate pair in JSON is combined by "or" (`JsonText.SurrogatesMisread`, `JsonText.EscapeExactly`).
- A name that is an IPv6 literal gets no address in the UDP header (`UdpHeader.LoopbackMisread`, `UdpHeader.LiteralExactly`).
- The room for the entries of a JSON object is computed in an `int` (`JsonWide.RoomOverflows`, `JsonTwoPass.RoomExactly`); a text
  below some 85 MiB is always safe (`JsonTwoPass.EntriesGetTheirRoom`).

Check everything with `dafny verify dfyconfig.toml`.

## Model

| member | source | states |
|---|---|---|
| `Buffers.Buffer.Realloc` | server/shadowsocks-libev/src/crypto.c:55-67 | growing a buffer keeps its bytes and gives the room asked for |
| `Buffers.Buffer.Prepend` | server/shadowsocks-libev/src/crypto.c:81-90 | the content becomes the source's bytes followed by the old content |
| `AeadSpec.ChunkRoundTrip` | server/shadowsocks-libev/src/aead.c:498-629 | a sent chunk, followed by anything, is received as its payload and its own length |
| `AeadSpec.ChunkLayout` | server/shadowsocks-libev/src/aead.c:498-535 | in plain bytes: a chunk is the length, high byte first, under the nonce n, and the payload under the next nonce, each followed by its tag |
| `AeadSpec.ChunkRead` | server/shadowsocks-libev/src/aead.c:586-629 | conversely, what is taken for a chunk has this layout; of the length the low fourteen bits count, and it is not zero |
| `AeadSpec.BadExactly` | server/shadowsocks-libev/src/aead.c:586-629 | a chunk is refused if and only if it is long enough to be looked at and its length has a wrong tag or is zero, or all of its payload is there and has a wrong tag; it is waited on exactly until it is complete |
| `AeadSpec.PartialChunk` | server/shadowsocks-libev/src/aead.c:586-629 | every proper prefix of a sent chunk is waited on |
| `AeadSpec.ParseSplit` | server/shadowsocks-libev/src/aead.c:631-725 | decoding is incremental: a bad prefix stays bad, and a good one can be decoded first and the rest later |
| `AeadSpec.ParseSent` | server/shadowsocks-libev/src/aead.c:537-725 | a sent stream cut anywhere decodes to exactly the chunks that are whole in it, and the rest is kept |
| `AeadSpec.ParseChunks` | server/shadowsocks-libev/src/aead.c:631-725 | whole chunks before any tail that is no whole chunk are decoded exactly, and the decoding fails if and only if the tail is bad |
| `AeadSpec.PrefixIsCut` | server/shadowsocks-libev/src/aead.c:537-584 | every prefix of a sent stream is the stream cut after some number of whole chunks |
| `AeadStream.ReceiveProgress` | server/shadowsocks-libev/src/aead.c:631-725 | NEED_MORE leaves the nonce alone and outputs nothing; OK on new bytes never returns empty output |
| `AeadStream.ReplayRefused` | server/shadowsocks-libev/src/aead.c:666-722 | under a salt that the filter reports, a call fails as soon as the salt is past, and no context accepts data for the first time |
| `AeadStream.FragmentationIndependent` | server/shadowsocks-libev/src/aead.c:631-725 | for every byte stream and every cutting into nonempty fragments: the run fails exactly when the stream is bad, and otherwise has delivered what the whole stream decodes to and keeps exactly the unconsumed bytes |
| `AeadStream.CodecCorrect` | server/shadowsocks-libev/src/aead.c:537-725 | for any payloads sent and any fragments that are a prefix of what was sent: exactly the payloads of the k chunks fully received are delivered, exactly the bytes after them are kept, and the nonce is 2k |
| `AeadStream.BeforeSalt` | server/shadowsocks-libev/src/aead.c:637-683 | until the salt is past nothing is delivered, nothing fails, and everything is kept |
| `AeadStream.SendAllIsWire` | server/shadowsocks-libev/src/aead.c:537-584 | the concatenated outputs of any number of calls are the salt followed by the chunks under counting nonces |
| `AeadStream.WireLayout` | server/shadowsocks-libev/src/aead.c:537-584 | in plain bytes: the salt first, and then the chunk of each payload under the nonce 2k, with the key derived from the salt |
| `AeadStream.PacketRoundTrip` | server/shadowsocks-libev/src/aead.c:407-496 | a sealed packet opens to its payload if and only if the payload is not empty |
| `AeadStream.PacketLayout` | server/shadowsocks-libev/src/aead.c:407-446 | in plain bytes: a packet is the salt and the payload under the nonce 0 with its tag |
| `AeadCodec.DecryptCtx.ChunkDecrypt` | server/shadowsocks-libev/src/aead.c:586-629 | the call agrees with the specification of one chunk: waiting changes nothing, success writes the payload in place and advances the nonce by two |
| `AeadCodec.DecryptCtx.ReadChunks` | server/shadowsocks-libev/src/aead.c:685-712 | the chunk loop delivers all whole chunks of the buffer and keeps the rest, or waits with the buffer as it was |
| `AeadCodec.DecryptCtx.Decrypt` | server/shadowsocks-libev/src/aead.c:631-725 | one call on the real buffers is one step of the receiver that the fragmentation theorem is about, and records the salt exactly when that step does |
| `AeadCodec.EncryptCtx.ChunkEncrypt` | server/shadowsocks-libev/src/aead.c:498-535 | the chunk is appended at its offset, nothing before it changes, and the nonce advances by two |
| `AeadCodec.EncryptCtx.Encrypt` | server/shadowsocks-libev/src/aead.c:537-584 | one call on the real buffers is one step of the sender, with the salt first and recorded once |
| `AeadCodec.EncryptAll` | server/shadowsocks-libev/src/aead.c:407-446 | the buffer becomes the sealed packet, and its salt is recorded |
| `AeadCodec.DecryptAll` | server/shadowsocks-libev/src/aead.c:448-496 | success exactly when the packet opens and its salt is not reported; only then is the salt recorded |
| `Bloom.ProbeValue` | server/shadowsocks-libev/libbloom/bloom.c:59-66 | the i-th probe is a + i * b in 32-bit arithmetic |
| `Bloom.NoFalseNegative` | server/shadowsocks-libev/libbloom/bloom.c:48-77 | whatever was added is reported |
| `Bloom.ReportedExactly` | server/shadowsocks-libev/libbloom/bloom.c:48-77 | a buffer is reported if and only if each of its probes, given by the formula, was hit by a probe of some addition; an empty filter reports nothing |
| `Bloom.SetBitAt` | server/shadowsocks-libev/libbloom/bloom.c:30-45 | setting a bit in its byte sets that bit of the filter and no other |
| `Bloom.Filter.TestBitSetBit` | server/shadowsocks-libev/libbloom/bloom.c:30-45 | answers whether the bit was set, and sets exactly that bit when asked |
| `Bloom.Filter.CheckAdd` | server/shadowsocks-libev/libbloom/bloom.c:48-77 | answers 1 exactly when every probed bit was set before, even if probes repeat, and sets exactly the probed bits when adding |
| `Bloom.Filter.Check` | server/shadowsocks-libev/libbloom/bloom.c:123-126 | answers from the additions, and changes nothing |
| `Bloom.Filter.Add` | server/shadowsocks-libev/libbloom/bloom.c:129-132 | answers exactly what a check would have answered just before |
| `Bloom.Filter.Reset` | server/shadowsocks-libev/libbloom/bloom.c:156-161 | forgets every addition |
| `PingPongBloom.RecentReported` | server/shadowsocks-libev/src/ppbloom.c:62-95 | each of the last n / 2 additions is reported, at any time |
| `PingPongBloom.Init` | server/shadowsocks-libev/src/ppbloom.c:39-60 | fails exactly when n is below 2; otherwise both filters start empty, with n / 2 entries each |
| `PingPongBloom.PingPong.Check` | server/shadowsocks-libev/src/ppbloom.c:62-76 | answers 1 exactly when one of the two filters reports the buffer |
| `PingPongBloom.PingPong.Add` | server/shadowsocks-libev/src/ppbloom.c:78-95 | the current filter holds fewer than n / 2 additions, after the first switch the other holds exactly the n / 2 before those, and the older ones are forgotten |
| `SaltReplay.RunKeeps` | server/shadowsocks-libev/src/aead.c:666-725 | over every interleaving of connections, packets and own encryptions, each acceptance is recorded once, where it happened |
| `SaltReplay.ReplayWindow` | server/shadowsocks-libev/src/aead.c:448-496 | in every run, two acceptances of the same salt have at least n / 2 additions between them |
| `SaltReplay.ConnectionReplay` | server/shadowsocks-libev/src/aead.c:666-722 | two connections that both delivered data under one salt were recorded more than n / 2 additions apart, even if both passed the first check before either was recorded |
| `SaltReplay.DatagramRecorded` | server/shadowsocks-libev/src/aead.c:448-496 | a packet is accepted if and only if it opens and neither filter reports its salt, and its salt is then the next addition; otherwise nothing is added |
| `SaltReplay.DatagramReplay` | server/shadowsocks-libev/src/aead.c:448-496 | in every run, two packets with one salt that are both accepted have at least n / 2 additions between them |
| `StreamSpec.PaddedBlock` | server/shadowsocks-libev/src/stream.c:398-416 | shifting by the counter modulo 64 makes the block keystream a byte keystream |
| `StreamSpec.SendAllIsOneXor` | server/shadowsocks-libev/src/stream.c:353-435 | however the plaintext is split over calls, the output is the nonce and then the plaintext under one keystream |
| `StreamSpec.FragmentationIndependent` | server/shadowsocks-libev/src/stream.c:495-625 | however the bytes are split over calls, no call fails and exactly the bytes after the nonce are delivered, under one keystream |
| `StreamSpec.StreamCorrect` | server/shadowsocks-libev/src/stream.c:353-625 | any split over sends and any other split over receives, even inside the nonce: what has been received is what was sent, as far as the bytes got |
| `StreamSpec.ReplayRefused` | server/shadowsocks-libev/src/stream.c:495-625 | under a nonce that the filter reports, a call fails as soon as the nonce is complete, or at the first data after it, and no context accepts data for the first time |
| `StreamSpec.RecordedOnce` | server/shadowsocks-libev/src/stream.c:495-625 | however the bytes are split, the nonce is recorded exactly once, by the call that brings the first byte after it |
| `StreamCodec.EncryptCtx.Encrypt` | server/shadowsocks-libev/src/stream.c:353-435 | one call on the real buffers is one step of the sender |
| `StreamCodec.DecryptCtx.Decrypt` | server/shadowsocks-libev/src/stream.c:495-625 | one call on the real buffers is one step of the receiver, with the nonce checked, collected and recorded as the source does |
| `RecentIps.RecentList.Prune` | server/shadowsocks-libev/src/ip_lock.c:56-76 | the compaction in place keeps exactly the entries at most thirty seconds old, in order |
| `RecentIps.RecentList.Push` | server/shadowsocks-libev/src/ip_lock.c:78-112 | after pruning, the address is first, is there once, and at most eight entries are kept |
| `RecentIps.RecentList.Reset` | server/shadowsocks-libev/src/ip_lock.c:114-121 | the list is empty |
| `RecentIps.RecentCorrect` | server/shadowsocks-libev/src/ip_lock.c:56-121 | after any run under a clock that does not go back, a prune shows exactly the addresses pushed since the last reset: most recent first, once each, at most thirty seconds old, at most eight; the list is duplicate-free and ordered by time |
| `RecentIps.RankingIsByLastPush` | server/shadowsocks-libev/src/ip_lock.c:78-112 | the order in that statement is the order of the last push of each address |
| `IpLock.LockFileRoundTrip` | server/shadowsocks-libev/src/ip_lock.c:153-238 | an address written to the lock file is read back as itself |
| `IpLock.FirstLineExactly` | server/shadowsocks-libev/src/ip_lock.c:183-189 | what is read of the lock file ends at its first newline, or at 45 characters, or with the file |
| `IpLock.TrimmedExactly` | server/shadowsocks-libev/src/ip_lock.c:187-195 | white space at the end, and nothing else, is cut off |
| `IpLock.AdmittedExactly` | server/shadowsocks-libev/src/server.c:243-274 | a peer gets in if and only if it has no name, or the lock as the file gives it is free, its own, or held by an address without a connection; what lock and file are then, for every outcome of writing the file |
| `IpLock.ClosedExactly` | server/shadowsocks-libev/src/server.c:1790-1809 | a connection that closes leaves the others, and the lock, as they were |
| `IpLock.OthersBounded` | server/shadowsocks-libev/src/server.c:243-274 | in every reachable state, the distinct named peers connected, other than the locked one, are at most as many as the reloads that changed the lock |
| `IpLock.StepExact` | server/shadowsocks-libev/src/server.c:243-274 | while all named peers connected share the locked address, an event ends this if and only if it is an accept of another named peer, the locked address is connected, and the reload that comes first gives the lock up |
| `IpLock.OneAddressExactly` | server/shadowsocks-libev/src/server.c:1859-1922 | all named peers connected share the locked address throughout a run if and only if no such accept happens in it |
| `IpLock.ReloadChanges` | server/shadowsocks-libev/src/ip_lock.c:153-201 | a reload changes the lock if and only if the file is gone while something is locked, or its time and what can be read of it differ from what is in memory |
| `IpLock.QuietRun` | server/shadowsocks-libev/src/ip_lock.c:153-238 | a run without outside changes and with files that can be read and written never sees the lock change |
| `IpLock.OneAddress` | server/shadowsocks-libev/src/server.c:1859-1922 | in such a run all named peers connected at the same time share the locked address |
| `IpLock.UnwrittenLockAdmitsTwo` | server/shadowsocks-libev/src/ip_lock.c:209-238 | a lock file that cannot be written lets a second, different address in beside the first: a concrete run |
| `LockLists.ListsAreRecent` | server/shadowsocks-libev/src/ip_lock.c:56-121 | in every run under a clock that does not go back, recent_incoming and blocked_ips, once pruned, are exactly the peers let in, or turned away, since the lists were last emptied: most recent first, once each, at most thirty seconds old, at most eight. Who was let in is read off the connections, and when the lists were emptied off the lock, not off the lists |
| `LockLists.RecordedIsFirst` | server/shadowsocks-libev/src/ip_lock.c:78-112 | a peer that is recorded is first in its list, with the time of the call, unless it has expired when the status is written |
| `LockLists.ResetsExactly` | server/shadowsocks-libev/src/ip_lock.c:153-238 | when an address loses the lock, the lists are emptied if and only if it is not lost to a file that cannot be read; in general, if and only if the reload changes the lock other than through such a file, or the lock is then taken from an address that is not connected |
| `LockLists.UnreadFileKeepsLists` | server/shadowsocks-libev/src/ip_lock.c:175-185 | an address loses the lock to a file that cannot be read, another one takes it, and both lists stay: a concrete case |
| `LockCode.Trim` | server/shadowsocks-libev/src/ip_lock.c:187-195 | the loop leaves the line without the white space at its end |
| `LockCode.AddressLock.Reload` | server/shadowsocks-libev/src/ip_lock.c:153-201 | the lock follows the file, and both arrays are emptied exactly when someone loses the lock to a file that is gone or names another address |
| `LockCode.AddressLock.Set` | server/shadowsocks-libev/src/ip_lock.c:209-238 | the address is locked and written, and both arrays are emptied exactly when another address had the lock |
| `LockCode.AddressLock.CountConnectionsForIp` | server/shadowsocks-libev/src/server.c:173-191 | counts the live connections of an address |
| `LockCode.AddressLock.CheckAllowed` | server/shadowsocks-libev/src/server.c:243-274 | a named peer that is allowed holds the lock afterwards; one that is not finds it held by a connected peer |
| `LockCode.AddressLock.AcceptCb` | server/shadowsocks-libev/src/server.c:1859-1922 | the peer joins the connections exactly when allowed, a peer turned away is first in blocked_ips and one let in first in recent_incoming, lock and both lists make the step that the theorems over runs are about, and the bound on peers other than the locked one is kept |
| `LockCode.AddressLock.CloseServer` | server/shadowsocks-libev/src/server.c:1790-1809 | exactly one connection goes, the lock stays, both lists are pruned with the status, and the bound is kept |
| `UtHash.BitsDivide` | server/shadowsocks-libev/src/uthash.h:320-323 | masking and shifting by k bits are remainder and quotient of division by 2^k |
| `UtHash.IdealMaxlenIsCeiling` | server/shadowsocks-libev/src/uthash.h:802-804 | ideal_chain_maxlen is the number of items divided by the number of buckets, rounded up |
| `UtHash.MultiplierExactly` | server/shadowsocks-libev/src/uthash.h:814-819 | the expand multiplier of a bucket is 0 up to the ideal length of its chain, and then how often the ideal length fits its count |
| `UtHash.MoveOne` | server/shadowsocks-libev/src/uthash.h:809-824 | an element put on the chain it hashes to joins exactly that chain; all other chains are as they were |
| `UtHash.MoveChain` | server/shadowsocks-libev/src/uthash.h:808-824 | the inner loop of a doubling moves one whole chain while relinking it |
| `UtHash.Rehash` | server/shadowsocks-libev/src/uthash.h:805-829 | a doubling puts every element on the chain of its hash in the doubled array, and on no other; the excess and the thresholds are what the new counts imply |
| `UtHash.BucketDrop` | server/shadowsocks-libev/src/uthash.h:750-760 | an element leaves its chain and its count, and the others are as they were |
| `HashTable.Expand` | server/shadowsocks-libev/src/uthash.h:791-837 | a doubling keeps the index, and its statistics are what the new chains imply |
| `HashTable.AddToBucket` | server/shadowsocks-libev/src/uthash.h:736-747 | the table doubles exactly when the bucket's count reaches ten times its multiplier and expansion is not off; its statistics are then what the new chains imply |
| `HashTable.OffExactly` | server/shadowsocks-libev/src/uthash.h:830-835 | after any expansions, expansion is off if and only if two in a row were ineffective, that is, left more than half of the elements in excess |
| `HashTable.OneChain` | server/shadowsocks-libev/src/uthash.h:284-370 | every element of the list is on exactly one chain, the one numbered by its hash modulo the number of buckets |
| `HashTable.CountsSum` | server/shadowsocks-libev/src/uthash.h:736-837 | the counts of the buckets add up to the number of items, which is the length of the list |
| `HashTable.Table.Add` | server/shadowsocks-libev/src/uthash.h:284-312 | an element goes to the end of the list, whether or not its key is new, and list and index stay consistent, through any doubling |
| `HashTable.Table.Remove` | server/shadowsocks-libev/src/uthash.h:337-369 | exactly that element leaves the list, and list and index stay consistent, also when the table goes with its last element |
| `HashTable.Table.Find` | server/shadowsocks-libev/src/uthash.h:714-733 | gives the element with the key if and only if there is one in the list |
| `HashTable.Table.Count` | server/shadowsocks-libev/src/uthash.h:1003-1004 | the length of the list |
| `HashTable.Table.Next` | server/shadowsocks-libev/src/uthash.h:993-999 | iteration follows the order of the list |
| `CacheSpec.OrderedByLastUse` | server/shadowsocks-libev/src/cache.c:119-306 | over every run that inserts new keys, the entries are ordered by the call that last inserted or looked up their key, and carry the time of that call |
| `CacheSpec.VictimIsLeastRecent` | server/shadowsocks-libev/src/cache.c:267-306 | an insertion into a full cache evicts the entry whose last use is the oldest; the new entry stays when the capacity is two or more |
| `CacheSpec.NeverFull` | server/shadowsocks-libev/src/cache.c:267-306 | after any run the cache holds at most max_entries - 1 entries |
| `CacheSpec.ClearRemovesPrefix` | server/shadowsocks-libev/src/cache.c:119-147 | under a monotone clock cache_clear removes exactly a prefix of the order, namely the entries older than the age |
| `CacheSpec.NothingLostOrFreedTwice` | server/shadowsocks-libev/src/cache.c:79-306 | over every run a non-NULL datum is cached or freed exactly as often as it was inserted |
| `CacheSpec.KeysExactly` | server/shadowsocks-libev/src/cache.c:119-306 | which keys are held after a call: an insertion adds one and drops the first when the cache is full, a look-up changes none, a removal drops one, clearing drops those too old |
| `CacheSpec.DatumIsLastInserted` | server/shadowsocks-libev/src/cache.c:208-306 | in every run that inserts new keys, what is held under a key is what was inserted last under it |
| `ConnCache.Cache.Insert` | server/shadowsocks-libev/src/cache.c:267-306 | on the hash table itself: the entry is appended and the first one evicted and freed when the cache is full |
| `ConnCache.Cache.Lookup` | server/shadowsocks-libev/src/cache.c:208-229 | the entry found moves to the end with a new time, and its datum is returned, or NULL |
| `ConnCache.Cache.KeyExist` | server/shadowsocks-libev/src/cache.c:231-250 | the same, and answers whether the key was there |
| `ConnCache.Cache.Remove` | server/shadowsocks-libev/src/cache.c:161-186 | exactly the entry with the key goes, and its datum is freed |
| `ConnCache.Cache.Clear` | server/shadowsocks-libev/src/cache.c:119-147 | the loop over a list that shrinks under it removes exactly the entries older than the age |
| `ConnCache.Cache.Delete` | server/shadowsocks-libev/src/cache.c:79-108 | every datum still cached is freed, in order, unless the data are to be kept; the cache is then empty |
| `UdpHeader.HeaderRoundTrip` | server/shadowsocks-libev/src/udprelay.c:211-322 | a header built for an IPv4 or IPv6 address is parsed to the same peer, whatever follows, and the offset is its length |
| `UdpHeader.ParsedFields` | server/shadowsocks-libev/src/udprelay.c:245-322 | where the fields of a parsed header come from, in plain bytes: type, address or name, and the port with its high byte first |
| `UdpHeader.ParsedRebuilds` | server/shadowsocks-libev/src/udprelay.c:211-322 | conversely, a header of type 1 or 4 is what its parsed address is built into |
| `UdpHeader.LiteralExactly` | server/shadowsocks-libev/src/udprelay.c:269-292 | a name that is an address literal is parsed to the address it stands for if and only if it is not an IPv6 literal other than that of the zero address |
| `UdpHeader.LoopbackMisread` | server/shadowsocks-libev/src/udprelay.c:283-288 | the name ::1 is parsed to the zero address: a concrete input |
| `UdpSpec.HashKeyInjective` | server/shadowsocks-libev/src/udprelay.c:196-207 | different families or addresses have different keys |
| `UdpSpec.FoundIsUsable` | server/shadowsocks-libev/src/udprelay.c:1187-1202 | a context found under the key has the same family and source, so the mismatch branch of sockaddr_cmp is never taken |
| `UdpSpec.ReceivedKeeps` | server/shadowsocks-libev/src/udprelay.c:1187-1411 | a packet inserts a context only after a miss on the key it inserts, and the key invariant is kept |
| `UdpSpec.AnsweredKeeps` | server/shadowsocks-libev/src/udprelay.c:658-742 | so does the answer to a DNS query |
| `UdpSpec.ReceivedExactly` | server/shadowsocks-libev/src/udprelay.c:1187-1411 | a packet opens a context, found under its key from then on, if and only if its source has none for the family, the family is IPv4 or IPv6, the socket is made and the packet sent; exactly the least recently used context goes for it, and only if the cache is full; otherwise contexts and keys stay |
| `UdpSpec.AnsweredExactly` | server/shadowsocks-libev/src/udprelay.c:658-742 | the same for the answer to a DNS query that was started without a context |
| `UdpSpec.StepContexts` | server/shadowsocks-libev/src/udprelay.c:632-1411 | of all events exactly these open and close a context: a first packet or answer, its timeout, and its eviction |
| `UdpSpec.LiveExactly` | server/shadowsocks-libev/src/udprelay.c:632-1411 | in every run a context is live if and only if such an event has opened it and none has closed it since |
| `UdpSpec.LiveIsFound` | server/shadowsocks-libev/src/udprelay.c:1187-1202 | every live context is found under its own key |
| `UdpSpec.TimeoutIsExact` | server/shadowsocks-libev/src/udprelay.c:632-644 | a timeout removes and frees exactly its own context |
| `UdpSpec.RunKeeps` | server/shadowsocks-libev/src/udprelay.c:632-1411 | in every run keys are unique, each cached context is live and stored under its own key, every live context is cached, and none is freed twice |
| `UdpRelay.Relay.ServerRecv` | server/shadowsocks-libev/src/udprelay.c:1187-1426 | the callback on the cache is the specified step, and says whether a name must be resolved and with which saved context |
| `UdpRelay.Relay.ResolvCb` | server/shadowsocks-libev/src/udprelay.c:658-742 | the callback on the cache is the specified step |
| `UdpRelay.Relay.RemoteTimeout` | server/shadowsocks-libev/src/udprelay.c:632-644 | the callback removes its own context from the live ones and adds it once to those freed |
| `RelaySpec.StreamUpKeeps` | server/shadowsocks-libev/src/server.c:1101-1122 | sending what was decrypted, in full, in part or not at all, loses and reorders nothing, and stops reading exactly when something is left |
| `RelaySpec.FlushUpKeeps` | server/shadowsocks-libev/src/server.c:1533-1644 | so does sending what is left, which starts the streaming stage once it is empty |
| `RelaySpec.StreamDownKeeps` | server/shadowsocks-libev/src/server.c:1446-1530 | the same toward the client |
| `RelaySpec.FlushDownKeeps` | server/shadowsocks-libev/src/server.c:1308-1358 | the same toward the client |
| `RelaySpec.AttachKeeps` | server/shadowsocks-libev/src/server.c:1263-1288 | linking a new remote moves the whole pending payload to it, less what fast open has sent |
| `RelayProof.StepKeeps` | server/shadowsocks-libev/src/server.c:1042-1809 | every callback that may run keeps objects, watchers, stages and buffers consistent |
| `RelayProof.RelaysInOrder` | server/shadowsocks-libev/src/server.c:1042-1644 | in every run: bytes sent to the remote plus those pending are the decrypted payload after the header, in order; until the server stops the same holds toward the client; once streaming, a direction has bytes pending exactly when its source is not read and its sink is waited for |
| `RelayProof.PointersAgree` | server/shadowsocks-libev/src/server.c:1646-1809 | in every run a streaming server has a live remote, and servers, remotes and queries point at each other or not at all |
| `RelayEnds.EndsExactly` | server/shadowsocks-libev/src/server.c:1042-1809 | of all callbacks exactly these end a connection: its timeout, the end or an error of either socket, a failed send or getpeername, a refused connection, a blocked name, an empty answer, a failed encryption |
| `RelayEnds.StopsExactly` | server/shadowsocks-libev/src/server.c:1042-1305 | exactly these stop a server: text that does not decrypt, and a first text whose header is not accepted |
| `RelayEnds.RemotesExactly` | server/shadowsocks-libev/src/server.c:1042-1809 | of all callbacks exactly these open a remote, and exactly these end one |
| `RelayEnds.ConnectedExactly` | server/shadowsocks-libev/src/server.c:1042-1809 | in every run a connection is there if and only if it was accepted and nothing of this kind has ended it since |
| `RelayEnds.RemoteExactly` | server/shadowsocks-libev/src/server.c:1042-1809 | the same for remotes |
| `RelayCounts.SendsExactly` | server/shadowsocks-libev/src/server.c:1042-1644 | every callback hands a socket exactly as many bytes as that socket takes, in both directions, and no other callback sends anything |
| `RelayLife.NoContextError` | server/shadowsocks-libev/src/server.c:1042-1325 | the exit "server context error" is unreachable, and so are the branches for a missing remote or an empty pending buffer |
| `RelayLife.StopIsAbsorbing` | server/shadowsocks-libev/src/server.c:394-398 | a stopped server stays stopped until it is closed, whatever event comes |
| `RelayLife.LookedOnce` | server/shadowsocks-libev/src/resolv.c:237-390 | the client callback and the release of a query run on the second of its two answers and not before |
| `RelayLife.OnlyDnsAnswers` | server/shadowsocks-libev/src/resolv.c:237-390 | no other callback answers or frees a query |
| `RelayLife.LateAnswerTouchesNothing` | server/shadowsocks-libev/src/server.c:1388-1396 | an answer for a server that was closed touches no server and no remote |
| `RelayLife.AnsweredAtMostOnce` | server/shadowsocks-libev/src/resolv.c:364-390 | in every run each query is answered at most once, and is gone afterwards |
| `RelayLife.LeftBehind` | server/shadowsocks-libev/src/server.c:1049-1077 | a stopped server whose client goes or whose socket breaks leaves its remote behind; the remote's own callback can still close it if and only if nothing was pending toward the client |
| `RelayLife.StrandedExactly` | server/shadowsocks-libev/src/server.c:1042-1809 | of all callbacks exactly one kind strands a remote: the client of its stopped server goes, or the socket breaks, with something pending toward the client |
| `RelayLife.LeaksExactly` | server/shadowsocks-libev/src/server.c:1042-1809 | in every run a remote is stranded if and only if such a callback has happened to it |
| `RelayLife.LeftBehindForever` | server/shadowsocks-libev/src/server.c:1446-1470 | a remote left behind unread is there, unchanged, throughout the rest of the run, whatever happens in it |
| `RelayLife.StrandedIsReached` | server/shadowsocks-libev/src/server.c:1042-1530 | a run of six callbacks that leaves a remote behind like this: a concrete run from the start |
| `RelayCodec.StepOnly` | server/shadowsocks-libev/src/server.c:1042-1809 | a callback changes, opens or closes no server but the one it is about |
| `RelayCodec.RunHas` | server/shadowsocks-libev/src/server.c:1042-1305 | in every run a server whose data decrypts, and whose first text starts with a header it accepts, never stops, and its payload is all that was decrypted for it but the header |
| `RelayCodec.EndToEnd` | server/shadowsocks-libev/src/server.c:1042-1644 | in every run, for a client whose encrypted stream arrives in any fragments: what was sent to the remote, followed by what waits, is exactly the payloads of the chunks that have arrived whole, without the header |
| `RelayCodec.AddressAccepted` | server/shadowsocks-libev/src/server.c:1135-1254 | the header that ss-local makes is accepted with any bytes after it, unless its name is blocked or malformed |
| `RelayDown.StepDown` | server/shadowsocks-libev/src/server.c:1042-1530 | of all callbacks exactly one kind breaks the order toward a client: data for a stopped server that changes bytes it still has to send |
| `RelayDown.DownExactly` | server/shadowsocks-libev/src/server.c:1042-1530 | throughout a run the order toward a client is kept if and only if no such data comes in |
| `RelayDown.CorruptionIsReached` | server/shadowsocks-libev/src/server.c:1042-1083 | a run of six callbacks after which the client is sent another byte than its answer: a concrete run from the start |
| `RelayDown.RunAnswers` | server/shadowsocks-libev/src/server.c:1446-1530 | in every run what a server has for its client is what was encrypted of the answers of its remote, in order, and nothing else |
| `RelayDown.BackToClient` | server/shadowsocks-libev/src/server.c:1308-1530 | in every run without such data: what was sent to the client, followed by what waits, is the salt and a chunk for every answer; a client that has received any part of it, in any fragments, has decrypted exactly the answers whose chunks are whole |
| `Tunnel.LocalToTarget` | server/shadowsocks-libev/src/local.c:553-613 | for any header that the server accepts, sent as a chunk of its own before any chunks of payload: what has reached the target, or waits to, is the beginning of the payload, and all of it once everything has arrived |
| `Tunnel.ClientToTarget` | server/shadowsocks-libev/src/local.c:331-613 | the same from the first byte of a SOCKS5 client on, for every fragmentation on both sides and every run of the server with other connections beside |
| `TcpObjects.ReceiveForRemote` | server/shadowsocks-libev/src/server.c:1079-1122 | on the fields of the two objects: the pair becomes what the order theorem is about, and a pair to be closed is as it was |
| `TcpObjects.FlushToRemote` | server/shadowsocks-libev/src/server.c:1533-1644 | the same for what is left to send to the remote |
| `TcpObjects.SendToClient` | server/shadowsocks-libev/src/server.c:1490-1530 | the same toward the client |
| `TcpObjects.FlushToClient` | server/shadowsocks-libev/src/server.c:1308-1358 | the same for what is left to send to the client |
| `TcpObjects.AttachRemote` | server/shadowsocks-libev/src/server.c:1263-1288 | a new remote and its server point at each other, and the payload so far has moved over |
| `TcpHeap.CloseAndFreeRemote` | server/shadowsocks-libev/src/server.c:1676-1704 | following the pointer of the remote is enough: no live server points at it afterwards, and all other objects are as they were |
| `TcpHeap.CloseAndFreeServer` | server/shadowsocks-libev/src/server.c:1753-1809 | following the pointers of the server is enough: no live remote and no live query points at it afterwards |
| `TcpRelay.NeverDangling` | server/shadowsocks-libev/src/server.c:1646-1809 | between callbacks every pointer of a live object is NULL or leads to a live object that points back |
| `TcpRelay.AcceptCb` | server/shadowsocks-libev/src/server.c:1706-1751 | a new server object, being read, in STAGE_INIT, and the heap stays consistent |
| `TcpRelay.ServerRecvCb` | server/shadowsocks-libev/src/server.c:1042-1305 | on heap objects the callback makes the specified step in every stage, writes to live objects only and keeps the heap consistent |
| `TcpRelay.ServerSendCb` | server/shadowsocks-libev/src/server.c:1308-1358 | the same for server_send_cb |
| `TcpRelay.ServerTimeoutCb` | server/shadowsocks-libev/src/server.c:1360-1374 | the same for server_timeout_cb, which changes nothing but pointers |
| `TcpRelay.RemoteRecvCb` | server/shadowsocks-libev/src/server.c:1446-1530 | the same for remote_recv_cb |
| `TcpRelay.RemoteSendCb` | server/shadowsocks-libev/src/server.c:1533-1644 | the same for remote_send_cb |
| `TcpRelay.DnsQueryCb` | server/shadowsocks-libev/src/resolv.c:237-361 | the same for both callbacks, with resolv_cb and resolv_free_cb of server.c run at the end |
| `TcpRelay.ChooseIpv4First` | server/shadowsocks-libev/src/resolv.c:392-401 | the first IPv4 address, otherwise the first address, otherwise none |
| `TcpRelay.ChooseIpv6First` | server/shadowsocks-libev/src/resolv.c:403-412 | the first IPv6 address, otherwise the first address, otherwise none |
| `TcpRelay.ChooseBest` | server/shadowsocks-libev/src/resolv.c:364-376 | the best address for the mode, and one is found if and only if there is any |
| `TcpRelay.ConnectToRemote` | server/shadowsocks-libev/src/server.c:1263-1288 | a new remote linked both ways, or the server closed, with the rest of the heap as it was |
| `Socks5.FeedTwice` | server/shadowsocks-libev/src/local.c:331-887 | cutting a fragment in two makes no difference to stage, header and payload; to the replies it makes none if and only if no UDP ASSOCIATE request was in the buffer |
| `Socks5.FragmentsDoNotMatter` | server/shadowsocks-libev/src/local.c:783-887 | any fragmentation reaches the same stage, header and payload as the whole |
| `Socks5.AssociatedTwice` | server/shadowsocks-libev/src/local.c:351-355 | a UDP ASSOCIATE request followed by one more byte is answered once or twice, depending on the cut: a concrete input |
| `Socks5.ConnectReached` | server/shadowsocks-libev/src/local.c:331-887 | a client that offers no authentication and asks for a target reaches that target's header and leaves exactly its payload, however its bytes arrive |
| `Socks5.FeedExactly` | server/shadowsocks-libev/src/local.c:331-887 | what becomes of all bytes a client can send, in terms of the bytes: the exact conditions for waiting, for each refusal with its reply, for an association, and for a connection with its header and payload |
| `Socks5.FedExactly` | server/shadowsocks-libev/src/local.c:331-887 | the same for any fragments; the replies to a UDP ASSOCIATE request are as many as the fragments that come when it is there |
| `Socks5.HeaderUnderstood` | server/shadowsocks-libev/src/server.c:1135-1254 | the header is read by ss-server as the same address type, address and port, and the offset is its length |
| `TcpHeader.AcceptedFields` | server/shadowsocks-libev/src/server.c:1135-1254 | an accepted header is its type byte, the address and the port, in this order, with the payload right after it; exactly a name that is no literal is resolved |
| `Socks5.LocalServer.ServerRecvCb` | server/shadowsocks-libev/src/local.c:783-887 | the stage loop on the buffer is the specified step |
| `Socks5.LocalServer.SelectMethod` | server/shadowsocks-libev/src/local.c:831-880 | the branch of STAGE_INIT is the specified one, with the bytes used up shifted out |
| `Socks5.LocalServer.ServerHandshake` | server/shadowsocks-libev/src/local.c:331-443 | so is the handshake |
| `JsonText.NumberEnds` | server/shadowsocks-libev/src/json.c:740-866 | after a number no character that the second pass would skip is accepted |
| `JsonText.Utf8Count` | server/shadowsocks-libev/src/json.c:341-380 | the first pass counts as many bytes for an escape as the second writes |
| `JsonText.Utf8Decodes` | server/shadowsocks-libev/src/json.c:341-380 | what is written for a character is its UTF-8 form, by the definition in RFC 3629, and nothing shorter stands for it |
| `JsonText.HexDigits` | server/shadowsocks-libev/src/json.c:54-71 | exactly the hexadecimal digits have a value, which is their own |
| `JsonText.PlainEscape` | server/shadowsocks-libev/src/json.c:305-339 | an escape that is no surrogate stands for the number of its four digits |
| `JsonText.EscapeExactly` | server/shadowsocks-libev/src/json.c:321-339 | a pair of surrogate escapes is read as the character it stands for if and only if bit 6 of the first is clear |
| `JsonText.SurrogatesMisread` | server/shadowsocks-libev/src/json.c:321-339 | the escapes of U+20000 are read as U+10000: a concrete input |
| `JsonPass.Progress1` | server/shadowsocks-libev/src/json.c:280-925 | every iteration of the first pass moves on in the text, or stays and lowers a rank, so it ends on every text |
| `JsonPass.Progress2` | server/shadowsocks-libev/src/json.c:280-925 | every iteration of the second pass moves on in the text |
| `JsonPass.FirstPass` | server/shadowsocks-libev/src/json.c:268-930 | the loop ends on every text, with the values it has counted or an error |
| `JsonPass.SecondPass` | server/shadowsocks-libev/src/json.c:268-930 | the loop ends, with what it has written or an error; JsonMeaning.ParsedAsSaid and JsonAccept.AcceptsExactly say what and when |
| `JsonTwoPass.NumberRun` | server/shadowsocks-libev/src/json.c:645-866 | the first pass, digit by digit, and the second, by skipping, leave a number at the same place; it is a double if and only if it has a point or an exponent, and otherwise has its decimal value |
| `JsonTwoPass.RunGrows` | server/shadowsocks-libev/src/json.c:109-199 | values keep their number, parent and kind through the first pass, except that an integer may become a double |
| `JsonTwoPass.Simulate` | server/shadowsocks-libev/src/json.c:109-199 | from states that agree, an accepting first pass is followed by a second that visits the same values |
| `JsonTwoPass.TwoPassesAgree` | server/shadowsocks-libev/src/json.c:268-930 | if the first pass accepts, so does the second; each array and object has exactly the counted slots filled, each string has exactly the counted bytes and a NUL, each pool of names ends exactly at its end, and the values form a tree |
| `JsonMeaning.ParsedAsSaid` | server/shadowsocks-libev/src/json.c:228-930 | an accepted text has exactly the values that it says: for each in turn its kind, its parent, the bytes of a string with a NUL, the value of an integer or boolean, and in an object its name, in the slot that holds it. What a text says is defined without passes, flags or counts in JsonLex |
| `JsonMeaning.Tell` | server/shadowsocks-libev/src/json.c:268-930 | from any two states that agree, the passes together turn the rest of the text into what it says |
| `JsonAccept.AcceptsExactly` | server/shadowsocks-libev/src/json.c:268-930 | the first pass accepts only texts of the grammar, and every one of them below 4 GiB. The grammar, in JsonGrammar, is that of RFC 8259 with four differences that are stated there |
| `JsonAccept.ValueRun` | server/shadowsocks-libev/src/json.c:520-925 | where a value may come, the pass reads exactly what the grammar reads as a value, or the text is refused |
| `JsonGrammar.LenientTexts` | server/shadowsocks-libev/src/json.c:527-533 | two texts that RFC 8259 does not have are accepted: a comma before a closing bracket, and a lone minus sign |
| `JsonTwoPass.ValuesSizeExact` | server/shadowsocks-libev/src/json.c:144-150 | the room for the entries of an object, computed in an int, is right if and only if it is below 2^31 bytes, and too small otherwise |
| `JsonTwoPass.EntriesGetTheirRoom` | server/shadowsocks-libev/src/json.c:144-150 | it is right for every object of a text below 2^31 / 24 bytes |
| `JsonTwoPass.RoomExactly` | server/shadowsocks-libev/src/json.c:144-155 | the second pass fills an object within the bytes computed for its entries if and only if their size is below 2^31 |
| `JsonWide.WideAccepted` | server/shadowsocks-libev/src/json.c:268-930 | a text with an object of any number of entries is accepted, with that number counted |
| `JsonWide.RoomOverflows` | server/shadowsocks-libev/src/json.c:144-155 | an accepted text whose object gets 8 bytes for 178956971 entries, all of which are filled: a concrete input |
| `JsonTwoPass.NeverOutOfBounds` | server/shadowsocks-libev/src/json.c:109-165 | in no state of the second pass has anything been written past what was counted; in bytes, nothing past what was allocated for an object whose entries take less than 2^31 bytes |
| `JsonFree.FreedOnce` | server/shadowsocks-libev/src/json.c:979-1027 | every value of a tree is freed exactly once |
| `JsonFree.FreedBeforeParent` | server/shadowsocks-libev/src/json.c:979-1027 | every value is freed before its parent |
| `JsonFree.FreeEx` | server/shadowsocks-libev/src/json.c:979-1027 | the loop, with parent pointers and lengths counted down in place, ends and frees in exactly that order |
| `JsonParse.Parse` | server/shadowsocks-libev/src/json.c:228-930 | both passes together: only texts of the grammar are accepted, and all of them below 4 GiB; the result is a tree of complete values that are what the text says, with their kinds, names, strings and integers |
| `JsonParse.ParsedIsFreed` | server/shadowsocks-libev/src/json.c:979-1027 | what is parsed from an accepted text is freed completely, each value once and before its parent |
| `Base64.Encode` | server/shadowsocks-libev/src/base64.c:78-106 | fails exactly when the input is too long or the output too small; otherwise writes the text, with padding and terminator, in exactly BASE64_SIZE bytes, and leaves the rest alone |
| `Base64.Decode` | server/shadowsocks-libev/src/base64.c:51-70 | fails exactly on a character outside the alphabet; otherwise writes the decoded bytes, as many as there is room for |
| `Base64.RoundTrip` | server/shadowsocks-libev/src/base64.c:51-106 | decoding the text of any byte string gives it back |
| `Base64.LettersAre` | server/shadowsocks-libev/src/base64.c:78-106 | the sixty-four letters are those of section 5 of RFC 4648, in order |
| `Base64.GroupsAreBits` | server/shadowsocks-libev/src/base64.c:91-99 | the four groups of three bytes are their bits, highest first |
| `Base64.Vectors` | server/shadowsocks-libev/src/base64.c:78-106 | three test vectors of section 10 of RFC 4648 |
| `Base64.WindowIsGroup` | server/shadowsocks-libev/src/base64.c:91-99 | the shifted 32-bit accumulator shows the next six bits, wherever its upper bits have overflowed |
| `KeyDerivation.CountBlocks` | server/shadowsocks-libev/src/crypto.c:311-315 | N is the output length divided by the hash length, rounded up |
| `KeyDerivation.CeilIsFewest` | server/shadowsocks-libev/src/crypto.c:311-315 | that is the fewest blocks that give L bytes |
| `KeyDerivation.HkdfExpand` | server/shadowsocks-libev/src/crypto.c:286-353 | fails exactly when the key is shorter than a hash or N exceeds 255; otherwise gives the first L bytes of blocks of which the first is the hash of info and 1, and each next one the hash of the one before, info and its number |
| `KeyDerivation.DeriveKey` | server/shadowsocks-libev/src/crypto.c:205-246 | the key is the first bytes of blocks of which the first is the hash of the password, and each next one the hash of the one before and the password, with as many blocks as needed and no more |

## Left out

- AeadCodec.DecryptCtx.Decrypt: after CRYPTO_ERROR only the status is specified, not the buffers, because every caller drops the context; the chunk buffer exists from the start instead of being allocated on the first call.
- AeadCodec.EncryptCtx.Encrypt: payloads of more than 0x3FFF bytes, which the source rules out by an assertion, are required not to occur.
- StreamCodec.EncryptCtx.Encrypt: only the Salsa20 and ChaCha20 path; the block counter must not wrap, and CFB, CTR and RC4 ciphers are updates of a foreign library.
- StreamCodec.DecryptCtx.Decrypt: the same.
- PingPongBloom.Init: the sizes that bloom_init computes in floating point are given.
- LockCode.AddressLock.AcceptCb: the text of the status file is not modelled, only that writing it prunes the lists.
- HashTable.Table.Add: hash values and bucket numbers do not wrap at 32 bits, and allocation succeeds.
- ConnCache.Cache.Insert: the key must not be cached yet; that this always holds in the UDP relay is UdpSpec.ReceivedKeeps and UdpSpec.AnsweredKeeps.
- UdpRelay.Relay.ServerRecv: receiving, decrypting and sending are parameters; the lifetime of a context saved in a pending query is not tracked.
- TcpRelay.ServerRecvCb: ciphers, sockets, access control and fast open come in as results; the count of handshake fragments, timers, keepalive and connection tracking are left out.
- TcpRelay.DnsQueryCb: the query and its lookups are one object, because they are allocated and freed together; shutdown of the resolver is left out, and the address that is chosen matters only through the result of the connection.
- RelayProof.RelaysInOrder: toward the client nothing is claimed here once the server has stopped; RelayDown.DownExactly says exactly when the order survives that.
- RelayCodec.EndToEnd: the replay filter does not report the salt, and the first chunk holds the whole header, which the source needs too.
- Socks5.HeaderUnderstood: a name of 255 bytes fills `host[255]` of server.c and leaves no room for its terminator, so what the source reads after it is not determined; the model takes the 255 bytes.
- Socks5.LocalServer.ServerHandshake: the reply is sent in full and the remote is created; access control lists, which only choose between proxy and direct connection, and the size of the socket buffer are left out.
- JsonPass.FirstPass: comments are off, allocation succeeds, and line and column numbers and the values of doubles are not computed.
- JsonAccept.AcceptsExactly: for texts of 4 GiB and more only one direction is claimed, because the parser's limits on lengths may then refuse them.
- JsonFree.FreeEx: the release of the slots and strings of a value is part of freeing the value; the cleanup after a parse error is not modelled.
- Base64.Encode: the lengths are not negative.
- KeyDerivation.HkdfExpand: HMAC and MD5 are functions with outputs of one length; their own failures are left out.
- The status file, the manager, the control API and its key store: plumbing with no hard property.
- The ACL and rule matching, which rest on a decision diagram and regular expressions of other libraries.
- tunnel.c and redir.c, which repeat the relay.
