# A verified model of clusteredBigCache

This project models clusteredBigCache, an in-memory cache with per-entry expiry
that replicates itself over a mesh of nodes, and proves what its parts promise
to each other. It has three layers.

**The memory of one shard.** `FreeList.dfy` is the allocator of freed byte
ranges: a tree keyed by the first and last byte of each range, and eight size
buckets over the same item objects. `BytesQueue.dfy` is the byte array that
hands out indexes. `Shard.dfy`, `BigCache.dfy` and `Iterator.dfy` are the cache
over it. The objects are classes updated in place; the geometry they keep is
stated over values in `FreeRanges.dfy`, `FreeIndex.dfy`, `Layout.dfy`,
`Memory.dfy` and `ShardIndex.dfy`. Two results are about whole runs of the
queue: under Push and Delete, as the cache uses it (`QueueRun.RunAndRead`), and
under Push and Pop (`FifoRun.RunFifo` with `FifoSpec.HandedOutReads` and
`FifoSpec.ServedInLine`). The outcome is that a shard, with its hash map, array,
free list, entry codec, expiry table, clients and eviction goroutine, behaves for
every interleaving of their locked sections as a plain map does
(`ShardRun.RunAndGet`).

**Expiry.** `TtlManager.dfy` is the table of expiry seconds with its one timer.
`ExpirySystem.dfy` is the step system of a shard: set and del change the map in
one step and the expiry table in a later one, and the eviction goroutine receives
a tick, pops a batch and deletes it in three. `ExpiryClients.dfy` says what that
guarantees to clients that keep out of each other's way, and exactly when an entry
outlives its second or is evicted before it.

**The cluster.** `Messages.dfy` holds the binary messages and the framing on a
connection. `Cluster.dfy` holds a node and its links as objects, proved against
the functions of `ClusterSpec.dfy`. `ClusterRun.dfy` runs any number of nodes
over a soup of messages that may be delayed, repeated, reordered or lost;
`Network.dfy` performs every act of such a run on the objects
(`Networks.RunCluster`). `ClusterRegistry.dfy` says who stays registered with
whom, `ClusterGets.dfy` that no get returns twice, `ClusterData.dfy` which acts can
ever touch an entry and what client calls achieve, `ClusterLinks.dfy` that every
link handles its messages in order and is silent once it is down, and
`ClusterPaths.dfy` what the messages that do arrive achieve.

`dafny verify dfyconfig.toml` checks the whole project.

## Where the code does not do what it seems to promise

Each of these is modelled as the code behaves, with the exact condition proved.

- Adding a range that is free on both sides drops the left neighbour from the
  books: its bytes are leaked, never handed out twice
  (`FreeRanges.AddedBytes`, `Shards.Shard.Accounting`). Three pushes and three
  deletions do it: `QueueWitness.TwoSidedLeak`.
- A free range of exactly 4096 bytes is in no bucket, so `Find` never returns it
  (`FreeLists.FreeList.Find`, `QueueWitness.NeverFound`).
- The queue is not first in, first out once it grows while wrapped. Arrival order
  survives a push exactly when the queue is not wrapped, need not grow or may not
  (`Layouts.KeepsArrivalOrder`); otherwise another block always gets in front of
  the oldest (`FifoSpec.TurningBreaksOrder`), and the filling of the gap is
  served as if it had been pushed. `FifoWitness.GrowthOvertakes` is such a run.
  What pops serve in every run is `FifoSpec.ServedInLine`.
- An empty payload whose header ends the array cannot be read back or deleted
  (`BytesQueues.BytesQueue.LiveIndex`, `QueueRun.RunAndRead`,
  `QueueWitness.EmptyAtTheEnd`).
- `Reset` leaves a sound queue exactly when nothing was free
  (`BytesQueues.BytesQueue.Reset`).
- The documentation of `HardMaxCacheSize` says that at the limit the oldest
  entries give way. A `set` that the limit refuses instead reports success with
  expiry 0, keeps the lock, and leaves a slot that points to a freed block
  whenever there was an earlier entry (`Shards.Shard.Set`,
  `ShardIndex.StaleSlot`). An entry as long as the limit is always refused
  (`ShardRun.OversizedSet`); `ShardRun.RefusedSet` builds such a shard. The limit
  itself is kept (`ShardRun.RunShard`).
- A slot holds 32 bits of its index, and an entry 16 bits of its key length. A
  stored entry means something exactly when its index fits 32 bits, its size fits
  32 bits and its key length modulo 2^16 is at most 65517; a longer key then means
  its own front, with the rest of the key in front of the value
  (`ShardIndex.StoredSlot`, `KeyedBlob.LongKeyAlias`).
- `del` takes the key off the expiry table after releasing the shard lock. As long
  as no set with an expiry overlaps an unfinished del of its key, every live entry
  that should expire is on the books (`ExpiryClients.NoOverlapNoneStranded`); a
  set that does overlap one can be stranded by it
  (`ExpiryClients.OverlapStrands`, if and only if). A stranded entry stays for
  ever: `ExpiryWitness.LateWithdrawalOutlives` is such a run for every key.
- The eviction goroutine receives a tick before it takes the lock, and then pops
  the earliest second whatever the clock says. As long as no client gets at the
  expiry table in between, only expired entries are evicted
  (`ExpiryClients.OnlyExpiredAreEvicted`); otherwise the entries of a later second
  can go before their time (`ExpiryClients.EarlyEviction`, if and only if).
  `ExpiryWitness.EvictedBeforeItsTime` is such a run for every two keys.
- Offsets behind a key are 16-bit sums, so keys read back exactly up to 65517
  bytes in an entry, 65525 in a PUT and 65533 in a GET response.
- A shard count of zero passes the power-of-two test, and so does the least
  64-bit integer. The second panics; the first divides by zero if there is a
  capacity limit (`Sharding.PowerOfTwoTest`, `BigCaches.NewBigCache`).
- The shards share the capacity limit exactly when the limit in bytes fits a signed
  64-bit integer (`BigCaches.LimitIsShared`).
- A frame whose header announces less than the two bytes of its code makes the
  reader wait for 4 GiB (`Framing.ShortLengthWaits`).
- A replicated entry that is received exactly at its expiry instant never expires
  (`ReplicatedExpiry.ExpiryLost`).
- Tearing down a link unregisters whatever is registered under the id it is known
  by (`ClusterRegistry.StepRegistered`). A refused duplicate takes the good link's
  registration with it, and so does a link that was only dialled for a proposed
  peer and broke before that peer introduced itself; two introductions at once
  leave the first link up but unregistered. `ClusterWitness.DuplicateLinkLoses`,
  `ClusterWitness.DialledLinkLoses` and `ClusterWitness.RacingLinkReplaces` are
  runs from the very start.
- A reply that reaches a get before it listens or after it has given up is dropped,
  and the request waits no more (`ClusterPaths.RemoteGetCompletes`).
- The comment above `networkSender` gives the length two bytes; the code, and
  this model, use four.

## Model

| member | source | states |
|---|---|---|
| FreeRanges.AddedSeparated | bigcache/queue/freeList.go:38-68 | adding a range disjoint from the tracked ones leaves ranges that neither overlap nor touch |
| FreeRanges.AddedBytes | bigcache/queue/freeList.go:42-68 | free bytes after an add are the old ones plus the new range, minus exactly the left neighbour when both neighbours are free |
| FreeRanges.TakenBytes | bigcache/queue/freeList.go:201-232 | a successful find removes precisely the bytes it hands out from the free set |
| FreeRanges.TakenSeparated | bigcache/queue/freeList.go:201-232 | what a find leaves behind still neither overlaps nor touches |
| FreeIndex.UntrackedConsistent | bigcache/queue/freeList.go:43-60 | removing an item's two keys and its bucket entry keeps tree and buckets in agreement |
| FreeIndex.TrackedConsistent | bigcache/queue/freeList.go:62-65 | entering an item under its first and last byte and in the bucket of its size keeps them in agreement |
| FreeIndex.SplitConsistent | bigcache/queue/freeList.go:213-219 | the in-place split keeps them in agreement although the item changes start and size, provided the size class stays |
| FreeIndex.Neighbours | bigcache/queue/freeList.go:43-52 | the two tree lookups of add find exactly the adjacent free ranges, despite keys being both starts and ends |
| FreeLists.ListPos | bigcache/queue/freeList.go:145-153 | first position of an item by identity, or -1 exactly when it is absent |
| FreeLists.FreeList.RemoveFromSizeList | bigcache/queue/freeList.go:70-122 | the item leaves its bucket and no other item moves between buckets, also for the size that has none |
| FreeLists.FreeList.PutIntoSizeList | bigcache/queue/freeList.go:124-143 | the item joins the bucket of its size only, or none at 4096 bytes |
| FreeLists.FreeList.Add | bigcache/queue/freeList.go:38-68 | keeps the whole invariant and tracks exactly the ranges the specification of add gives |
| FreeLists.OnlyLastBucketSplits | bigcache/queue/freeList.go:186-219 | only bucket 7 can take the in-place split, and the remainder stays in its class |
| FreeLists.FreeList.SplitInPlace | bigcache/queue/freeList.go:213-219 | moving the start of an item up keeps the whole invariant and hands out its front |
| FreeLists.FreeList.FindInSizeList | bigcache/queue/freeList.go:201-232 | hands out the front of a fitting range of one bucket, or proves that the bucket has none; in all three removal branches |
| FreeLists.FreeList.Find | bigcache/queue/freeList.go:155-199 | fails exactly when every tracked range is shorter or has 4096 bytes; else takes from the smallest size class that fits |
| Layouts.Conservation | bigcache/queue/bytes_queue.go:226-235 | live, free and leaked bytes add up to the bytes between the margins |
| Layouts.AtTailSound | bigcache/queue/bytes_queue.go:128-139 | a block at the tail keeps live, free and leaked bytes a partition of the region |
| Layouts.WrapSound | bigcache/queue/bytes_queue.go:84-85 | moving the tail back to the left margin keeps every block in place |
| Layouts.SpaceAfterTailExact | bigcache/queue/bytes_queue.go:211-216 | a block behind the tail keeps the partition exactly when it is no longer than the space computed there |
| Layouts.SpaceBeforeHeadExact | bigcache/queue/bytes_queue.go:218-223 | a block at the left margin keeps the partition exactly when it is no longer than the space computed before the head |
| Layouts.RefusedExactly | bigcache/queue/bytes_queue.go:83-91 | a block is refused exactly when no sound block fits behind the tail or at the left margin and a positive limit is at most capacity and block together |
| Layouts.PlacedExactly | bigcache/queue/bytes_queue.go:83-113 | a block that is not refused goes behind the tail if it fits there, else to the left margin if it fits there, else the array grows to twice its size, the block included if it is the larger, clipped to the limit |
| Layouts.WrappedGap | bigcache/queue/bytes_queue.go:211-223 | a wrapped queue keeps 36 bytes before its head, and takes exactly the blocks that leave them |
| Layouts.GrownSound | bigcache/queue/bytes_queue.go:99-126 | growth keeps the partition, with the gap of a wrapped queue filled by a live blob |
| Layouts.PreparedSound | bigcache/queue/bytes_queue.go:83-107 | growth always suffices: after wrap or reallocation the whole block fits behind the tail, whatever the limit clips |
| Layouts.StaysWithinLimit | bigcache/queue/bytes_queue.go:99-107 | an array within the limit never grows past it |
| Layouts.TooBig | bigcache/queue/bytes_queue.go:71-91 | a block as long as the limit is always refused, whatever is free |
| Layouts.ReusedSound | bigcache/queue/bytes_queue.go:71-81 | a reused range overlaps no live block and lies inside the array |
| Layouts.DeletedSound | bigcache/queue/bytes_queue.go:226-235 | freeing a block keeps the partition into live, free and leaked bytes |
| Layouts.DeletedBytes | bigcache/queue/bytes_queue.go:226-235 | the bytes a deleted block's header announces become free, and no other bytes change hands but those that add drops |
| Layouts.PoppedSound | bigcache/queue/bytes_queue.go:146-164 | popping the head block keeps the partition across both ways the head returns to the margin |
| Layouts.HeadIsLive | bigcache/queue/bytes_queue.go:146-148 | without deletions the head of a non-empty queue is the start of a block |
| Layouts.AtTailOrder | bigcache/queue/bytes_queue.go:93-96 | a pushed block is last from head to tail |
| Layouts.PoppedOrder | bigcache/queue/bytes_queue.go:152-161 | the head block is first and the rest keep their order |
| Layouts.GrownOrder | bigcache/queue/bytes_queue.go:115-120 | growth turns a wrapped queue round: wrapped blocks, blob, older blocks |
| Layouts.GrownLosesFront | bigcache/queue/bytes_queue.go:115-120 | growing a wrapped queue always takes the front place from the oldest block |
| Layouts.KeepsArrivalOrder | bigcache/queue/bytes_queue.go:83-120 | making room keeps arrival order exactly when the queue is not wrapped, need not grow, or may not grow |
| Memory.WriteBlock | bigcache/queue/bytes_queue.go:128-143 | a block written beside the live ones reads back and changes no other payload |
| Memory.Reallocated | bigcache/queue/bytes_queue.go:109-113 | copying up to the right margin keeps every payload |
| Memory.LiveReads | bigcache/queue/bytes_queue.go:207-208 | reading a live block yields its payload, up to the 32 bits of its length |
| BytesQueues.BytesQueue.constructor | bigcache/queue/bytes_queue.go:42-55 | a sound empty queue of the given capacity |
| BytesQueues.BytesQueue.Reset | bigcache/queue/bytes_queue.go:58-64 | indexes are reset and the queue is sound exactly when the free list was empty |
| BytesQueues.BytesQueue.Copy | bigcache/queue/bytes_queue.go:141-143 | writes as much as there is room for and nothing else |
| BytesQueues.BytesQueue.AppendBlock | bigcache/queue/bytes_queue.go:128-139 | one header and payload at the tail; the right margin follows only when the tail has passed the head |
| BytesQueues.BytesQueue.AllocateAdditionalMemory | bigcache/queue/bytes_queue.go:99-126 | a larger array in which every index still reads its payload and a wrapped gap reads as zero bytes |
| BytesQueues.BytesQueue.MakeRoom | bigcache/queue/bytes_queue.go:83-91 | room for the whole block, or refusal exactly when there is no room and a positive limit is at most capacity plus need; never refused below that limit |
| BytesQueues.BytesQueue.Push | bigcache/queue/bytes_queue.go:68-97 | fresh index that reads the data; all other indexes unchanged; order of service as specified; fails exactly when nothing fits and the limit forbids growing; the array grows exactly when the block fits nowhere, to the stated capacity |
| BytesQueues.BytesQueue.Peek | bigcache/queue/bytes_queue.go:193-209 | the three refusals in their order, else the announced window of the array |
| BytesQueues.BytesQueue.LiveIndex | bigcache/queue/bytes_queue.go:193-209 | a live index reads its payload and is refused exactly when it is an empty one at the very end |
| BytesQueues.BytesQueue.Get | bigcache/queue/bytes_queue.go:173-176 | a window that holds what was pushed at a live index, and what lies at any other that can be sliced |
| BytesQueues.BytesQueue.Delete | bigcache/queue/bytes_queue.go:226-235 | exactly that index stops being live and the bytes its header announces become free, for payloads of any length; no byte of the array changes |
| BytesQueues.BytesQueue.Pop | bigcache/queue/bytes_queue.go:146-164 | returns the payload at the head, which in FIFO use is the one pushed longest ago |
| CacheQueue.CacheUse | bigcache/queue/bytes_queue.go:83-97 | a queue that is never popped never wraps, and every index it hands out is at most its tail |
| QueueRun.RunAndRead | bigcache/queue/bytes_queue.go:68-235 | in every run of Push and Delete of any data each index not yet deleted reads what was pushed, up to the 32 bits of its length; refused only for an empty payload; the count is the number of such indexes |
| QueueRun.TracksCount | bigcache/queue/bytes_queue.go:79-235 | as many handed-out indexes as live blocks |
| QueueWitness.TwoSidedLeak | bigcache/queue/freeList.go:42-68 | for any three payloads below 2^28 bytes: pushed in order and deleted first, third, second, nothing is live, the last two blocks are one free range and the first is on no list |
| QueueWitness.NeverFound | bigcache/queue/freeList.go:155-199 | a free list holding one range of 4096 bytes finds nothing, however few bytes are asked for |
| QueueWitness.EmptyAtTheEnd | bigcache/queue/bytes_queue.go:193-209 | an empty payload that takes up the end of a five-byte array is accepted and can be neither read nor deleted |
| FifoSpec.HandedOutReads | bigcache/queue/bytes_queue.go:68-164 | in every run of Push and Pop, every index handed out reads the bytes pushed there until its Pop, across wrap-around and growth in either state; everything else live is zero filling |
| FifoSpec.StepHolds | bigcache/queue/bytes_queue.go:68-164 | one push or pop keeps that, a new index was not in use, and a pop serves what was pushed there or filling |
| FifoSpec.ServedInLine | bigcache/queue/bytes_queue.go:68-164 | in every run pops serve from the front of a line that pushes join at the end and that a growth while wrapped rearranges once: wrapped blocks, filling, older blocks |
| FifoSpec.FirstInFirstOut | bigcache/queue/bytes_queue.go:68-164 | as long as no push grows a wrapped queue, pops serve exactly what a plain first-in first-out queue serves |
| FifoSpec.TurningBreaksOrder | bigcache/queue/bytes_queue.go:99-126 | a push that does grow a wrapped queue always puts another block in front of the one that has waited longest |
| FifoWitness.GrowthOvertakes | bigcache/queue/bytes_queue.go:83-126 | for any contents of given lengths a run in which the second block is overtaken by the third and by filling that was never pushed |
| FifoRun.Perform | bigcache/queue/bytes_queue.go:68-164 | one operation on the object is one step of the specification of Push and Pop |
| FifoRun.RunFifo | bigcache/queue/bytes_queue.go:42-164 | any pushes and pops on a queue of any capacity and limit lead to the state and the outcomes of the specification, up to a pop whose block is longer than its header tells |
| KeyedBlob.ReadBack | bigcache/encoding.go:34-56 | key and value read back exactly when the 16-bit offset does not wrap |
| KeyedBlob.LongKeyAlias | bigcache/encoding.go:16-56 | a key too long for its two length bytes gives the bytes of its own front with the rest of the key put before the value |
| Encoding.WrapEntry | bigcache/encoding.go:16-32 | the scratch buffer, enlarged if needed, holds the encoding of the entry |
| Encoding.EntryReadBack | bigcache/encoding.go:34-67 | timestamp and hash always read back; key and value exactly for keys of at most 65517 bytes |
| Encoding.EntryLayout | bigcache/encoding.go:15-32 | byte by byte: expiry and hash in eight bytes each, key length in two, least significant first, then key and value |
| LittleEndian.PutAt | bigcache/encoding.go:25-27 | the byte at place i is n / 256^i modulo 256 |
| Encoding.ResetKeyFromEntry | bigcache/encoding.go:68-70 | only the eight hash bytes of the entry change in the array |
| ShardIndex.SameCount | bigcache/shard.go:224-229 | a shard has as many live blocks as entries |
| ShardIndex.EntryDetermined | bigcache/encoding.go:16-67 | an entry is determined by its bytes |
| ShardIndex.StoredSlot | bigcache/shard.go:81-86 | a slot pointed at a pushed entry belongs to a plain map exactly when index and size fit 32 bits and the key length modulo 2^16 is readable, and then to exactly one: the old map with what a reader takes the entry for |
| ShardIndex.StaleSlot | bigcache/shard.go:72-93 | after a refused set the slots are sound exactly when there was no earlier entry under that hash |
| Shards.Shard.Slot | bigcache/shard.go:43-48 | every slot leads to a readable block that encodes its entry, so the read errors of the source cannot occur |
| Shards.Shard.Get | bigcache/shard.go:33-60 | answers as the plain map: the value exactly when the stored key is the one asked for |
| Shards.Shard.SetLocked | bigcache/shard.go:70-93 | the part of set under the lock: the old entry is withdrawn and freed, the new one stored for any key and size, or refused with the lock kept and the slot stale |
| Shards.Shard.Set | bigcache/shard.go:62-94 | for any key, value and duration: the plain map gains what a reader takes the entry for whenever the queue can hold it and index and entry are readable; the key is then on the books for the second in which its time runs out and off those for its hash's old second, and no other record is touched; when refused 0 is returned and the lock kept |
| Shards.Shard.DelLocked | bigcache/shard.go:131-152 | the part of del under the lock: the hash leaves the plain map and its second is found |
| Shards.Shard.Del | bigcache/shard.go:131-159 | undisturbed, the plain map loses the hash and the key its record at that second and no other record, or not found exactly when it was absent |
| Shards.Shard.EvictDel | bigcache/shard.go:96-129 | removes exactly the entries named by the batch whose stored second is the batch's, in any order of the set |
| Shards.Shard.CopyKeys | bigcache/shard.go:190-202 | every index of the hash map once |
| Shards.Shard.Len | bigcache/shard.go:224-229 | the size of the plain map, which is the queue's count |
| Shards.Shard.Accounting | bigcache/queue/bytes_queue.go:226-235 | in cache use live, free and leaked bytes make up tail minus one |
| ShardRun.Perform | bigcache/shard.go:62-159 | each locked section of clients and eviction goroutine, and each tick received, takes the abstract state one step of the expiry system; a set is refused only when the queue has no room and cut only when its index does not fit 32 bits |
| ShardRun.RunShard | bigcache/shard.go:62-159 | any sequence of steps leads the objects where the step system says, within the capacity limit; it ends early only where the 64-bit integers of the source end, at a set for which the queue has no room, or at a set whose index does not fit 32 bits |
| ShardRun.RunAndGet | bigcache/shard.go:33-159 | after any such run that no set has blocked or cut a shard answers a lookup and its size as the plain map does |
| ShardRun.SetWhole | bigcache/shard.go:62-94 | an undivided set leads the shard where the whole call leads the step system, up to a refused or cut slot |
| ShardRun.DelWhole | bigcache/shard.go:131-159 | an undivided del leads the shard where the whole call leads the step system |
| ShardRun.OversizedSet | bigcache/shard.go:62-94 | every shard refuses an entry as long as its limit, returns 0, stays locked and leaves an earlier entry's slot pointing at nothing |
| ShardRun.RefusedSet | bigcache/shard.go:72-93 | a shard and two sets that end with the lock held and the first entry's slot pointing at a freed block |
| TtlSpec.PutTimely | bigcache/ttl.go:35-60 | after a put the timer waits for the earliest recorded second |
| TtlSpec.RemoveTimely | bigcache/ttl.go:63-83 | after a remove the timer waits for the earliest second left |
| TtlSpec.PutRecords | bigcache/ttl.go:35-60 | a put adds one record and touches no other |
| TtlSpec.RemoveRecords | bigcache/ttl.go:63-83 | a remove withdraws one record and touches no other |
| TtlSpec.DurationExact | bigcache/ttl.go:135-145 | the unsigned difference turned into a signed duration is the true time left, also when past, exactly within the reach of 64-bit nanoseconds |
| TtlSpec.FiresInItsSecond | bigcache/ttl.go:135-145 | a timer for a future second fires within that second, never before |
| ExpirySystem.ExpiryExact | bigcache/shard.go:63-68 | an entry expires in the second in which its duration has passed, or never without one |
| ExpirySystem.RegisteredRecords | bigcache/shard.go:72-89 | a set books its key for the new second, takes it off the books for the old one and touches no other record |
| ExpirySystem.WithdrawnRecords | bigcache/shard.go:72-79 | dropping a slot takes its key off the books for that slot's second and touches no other record |
| TtlManagers.TtlManager.Put | bigcache/ttl.go:35-60 | the table and timer of the specification, by all three ways to arm |
| TtlManagers.TtlManager.Remove | bigcache/ttl.go:63-83 | the table and timer of the specification, re-arming only when the earliest second goes |
| TtlManagers.TtlManager.ResetTimer | bigcache/ttl.go:135-145 | arms the timer for exactly the given second |
| TtlManagers.TtlManager.OnTick | bigcache/ttl.go:96 | the tick is received without the lock: the timer is spent and the table as it was |
| TtlManagers.TtlManager.OnFirst | bigcache/ttl.go:98-108 | takes the batch of the earliest second, if there is one, whatever the clock says |
| TtlManagers.TtlManager.OnNext | bigcache/ttl.go:110-128 | takes another batch only for the current second, else re-arms |
| ExpirySystem.RunKeeps | bigcache/ttl.go:35-145 | every interleaving keeps: while the goroutine waits the timer is armed for the earliest second, and stored keys sit under their hashes |
| ExpirySystem.StepStranding | bigcache/shard.go:62-159 | one step takes a live entry off the books exactly when it is a withdrawal of its key at its second, with no record of it elsewhere |
| ExpirySystem.OnlyLateWithdrawalsStrand | bigcache/shard.go:62-159 | in every reachable state the live entries that should expire but are recorded nowhere are exactly the ones a late withdrawal has struck and nothing has renewed or removed since |
| ExpirySystem.NoExpiredEntryIsLive | bigcache/ttl.go:94-132 | when all recorded seconds lie ahead, no batch is in flight and no set is half done, the only expired live entries are those struck by a late withdrawal |
| ExpirySystem.TimerWatchesEarliest | bigcache/ttl.go:35-145 | between passes the timer is armed for the earliest second, for which some key is recorded |
| ExpirySystem.OnlyBatchesEvict | bigcache/shard.go:96-129 | in every run an entry goes only by its own slot being set or deleted or by a batch popped for its second |
| ExpirySystem.PassProgress | bigcache/ttl.go:94-132 | every pass that starts on time strictly shrinks the set of overdue seconds |
| ExpirySystem.PassGoesOn | bigcache/ttl.go:110-132 | a pass goes on exactly when the earliest second is the current one, taking exactly its keys; otherwise every record stays and the timer waits for the earliest |
| ExpirySystem.PassTakesItsSecond | bigcache/ttl.go:94-132 | a pass never leaves the current second for earliest, and ends with the timer waiting for the earliest |
| ExpirySystem.FirstTick | bigcache/ttl.go:24 | an unused shard is ticked first after ten hours |
| ExpirySystem.SpentUntilNextSet | bigcache/ttl.go:94-108 | after a tick that finds nothing no tick is received, whatever happens, until a set is recorded |
| ExpirySystem.DrainExact | bigcache/ttl.go:94-132 | left alone, passes end with exactly the entries that have no expiry, a later one, or no record under their hash |
| ExpiryClients.NoOverlapNoneStranded | bigcache/shard.go:62-159 | in every run in which no set with an expiry overlaps an unfinished del of its key, every live entry that should expire is on the books |
| ExpiryClients.NoOverlapNoneExpired | bigcache/ttl.go:94-132 | so no expired entry is live once all recorded seconds lie ahead, no batch is in flight and no set is half done |
| ExpiryClients.OverlapStrands | bigcache/shard.go:131-159 | a set with an expiry that nothing else keeps on the books: when it is finished, and then a del of its key at its second, the entry is stranded exactly when the set overlapped that del |
| ExpiryClients.UndividedOnTheBooks | bigcache/shard.go:62-159 | when every set and del runs to its end before the next event, every live entry that should expire is in the tree at its second or in the batch in flight |
| ExpiryClients.SetCallLeads | bigcache/shard.go:62-94 | what a whole set does to map and table |
| ExpiryClients.DelCallLeads | bigcache/shard.go:131-159 | what a whole del, which reads the second of its entry, does to map and table |
| ExpiryClients.OnlyExpiredAreEvicted | bigcache/ttl.go:94-132 | in every run in which no client gets at the table between a tick and its pop, an entry goes only by its own slot being set or deleted or because its second has come |
| ExpiryClients.EarlyEviction | bigcache/ttl.go:96-108 | in every invariant state in which a tick has been received, popping and deleting the batch removes an entry whose second lies ahead exactly when that is the earliest second and the entry is booked there |
| ExpiryWitness.ForgottenForEver | bigcache/shard.go:96-159 | an entry with no record under its hash survives every further event except a set or del of that hash |
| ExpiryWitness.LateWithdrawalOutlives | bigcache/shard.go:131-159 | for every key, value and duration a run of set, del, set and a late withdrawal after which the entry answers lookups for ever |
| ExpiryWitness.EvictedBeforeItsTime | bigcache/ttl.go:94-108 | for every two keys, and every lifetime of a second or more of the later one, a run from the start in which that one is found, its second lies ahead, and the eviction removes it |
| Sharding.PowerOfTwoTest | bigcache/utils.go:14-16 | on 64-bit integers the bit test accepts exactly zero, the least integer and the powers of two |
| Sharding.MaskIsMod | bigcache/bigcache.go:131-133 | masking with a power of two minus one is the remainder, and in range |
| Sharding.PartsAddUp | bigcache/bigcache.go:94-100 | the sizes of the parts by remainder sum to the size of the whole map |
| BigCaches.NewBigCache | bigcache/bigcache.go:30-62 | for every 64-bit count and limit: refused, a panic at the least integer and at zero with a limit, no shards at zero without one, or an empty cache of that many shards, each with its share of the limit, exactly for powers of two |
| BigCaches.LimitIsShared | bigcache/config.go:58-67 | shards times the limit of a shard is at most the limit of the cache, and less than one byte a shard below it, exactly when the limit in bytes fits 63 bits |
| BigCaches.BigCache.GetShard | bigcache/bigcache.go:131-133 | the shard of a hash is its remainder |
| BigCaches.BigCache.Get | bigcache/bigcache.go:65-69 | the sharded cache answers as one plain map |
| BigCaches.BigCache.Set | bigcache/bigcache.go:72-76 | with any limit and any key: one hash of the one map changes to what a reader takes the entry for, under exactly the conditions of its shard; its shard's table books the key for the second in which its time runs out; no other record, shard or table notices |
| BigCaches.BigCache.Delete | bigcache/bigcache.go:79-83 | exactly that hash leaves the one map, and exactly its key's record the table of its shard |
| BigCaches.BigCache.OnFirst | bigcache/ttl.go:98-108 | the batch a shard's goroutine takes names keys of that shard only |
| BigCaches.BigCache.OnNext | bigcache/ttl.go:110-128 | so does every further batch of the pass |
| BigCaches.BigCache.EvictBatch | bigcache/shard.go:96-129 | deleting one shard's batch deletes from the one map what a single shard holding everything would delete |
| BigCaches.BigCache.Len | bigcache/bigcache.go:94-100 | the size of the one map |
| Iterators.EntryInfoIterator.SetNext | bigcache/iterator.go:59-85 | moves to an entry not visited before, or returns false exactly when all have been |
| Iterators.EntryInfoIterator.Value | bigcache/iterator.go:100-122 | the hash it stands on, the second stored there, and a key and value such that looking the key up gives the value; or the invalid-state error |
| Iterators.Collect | bigcache/iterator.go:59-122 | a walk over a quiet cache yields every hash exactly once, each with a key that looks up its value and with its second, and then false for ever |
| Messages.PutMessage.Serialize | message/putMessage.go:16-27 | the buffer holds expiry, key length, key and data |
| Messages.PutMessage.DeSerialize | message/putMessage.go:30-36 | the fields as 16-bit offsets delimit them |
| Messages.PutReadBack | message/putMessage.go:16-36 | a PUT reads back exactly for keys of at most 65525 bytes |
| Messages.PutLayout | message/putMessage.go:16-27 | byte by byte: expiry in eight bytes, key length in two, least significant first, then key and data |
| Messages.GetRspMessage.Serialize | message/getRspMessage.go:15-25 | the buffer holds key length, pending key and data |
| Messages.GetRspMessage.DeSerialize | message/getRspMessage.go:28-33 | the fields as 16-bit offsets delimit them |
| Messages.GetRspReadBack | message/getRspMessage.go:15-33 | a GET response reads back exactly for pending keys of at most 65533 bytes |
| Messages.GetRspLayout | message/getRspMessage.go:15-25 | byte by byte: key length in two bytes, then pending key and data |
| Messages.SendPut | message/putMessage.go:16-36 | serializing and deserializing a PUT is the identity on its fields |
| Messages.SendGetRsp | message/getRspMessage.go:15-33 | serializing and deserializing a GET response is the identity on its fields |
| Framing.NetworkSender | Cluster/remoteNode.go:362-379 | the connection carries the frames of the messages one after the other |
| Framing.NetworkConsumer | Cluster/remoteNode.go:317-341 | the whole messages at the front of the stream, and the bytes left over |
| Framing.ParseFrames | Cluster/remoteNode.go:317-379 | framed and concatenated messages decode to exactly that sequence, whatever follows |
| Framing.ParseExact | Cluster/remoteNode.go:317-342 | for every stream, malformed or not: the messages taken from it, framed again, and the rest are the stream, and the rest holds no whole frame |
| Framing.ShortLengthWaits | Cluster/remoteNode.go:327-332 | a length below two waits for 4 GiB |
| Framing.Transfer | Cluster/remoteNode.go:317-379 | what was sent is what arrives, for a stream cut anywhere in the next frame |
| ReplicatedExpiry.ReceivedExpiry | Cluster/remoteNode.go:615-626 | on a node that stores within a second of reading the clock: a future expiry within 292 years arrives unchanged or one second early, never late; one past for less than a second becomes the receiver's second, an older one what the conversion of a negative number makes of it; none stays none |
| ReplicatedExpiry.ExpiryLost | Cluster/remoteNode.go:615-626 | on such a node an expiry is lost exactly when received at its own instant, or a second or more later where the conversion brings the sum to zero |
| ClusterRegistry.StepRegistered | Cluster/remoteNode.go:382-496 | an act ends a registration exactly when it tears down a link known under that id, be the id given by its peer or only proposed when it was dialled; a VERIFY that misses the entry gives it to its own link; every other act keeps it |
| ClusterRegistry.RegisteredUntilClosed | Cluster/clusteredBigCache.go:241-265 | in every run a registered link stays registered under its id until one of these acts |
| ClusterRegistry.NamesakeUnregisters | Cluster/clusteredBigCache.go:241-244 | tearing down another link known under the id unregisters the peer and leaves the registered link untouched |
| ClusterRegistry.DuplicateUnregisters | Cluster/remoteNode.go:382-496 | from any state, a second connection to a registered peer that is verified, refused and closed leaves the first link untouched but unregistered |
| ClusterWitness.DialledLinkLoses | Cluster/clusteredBigCache.go:312-340 | a run from the start: a link dialled for a proposed peer breaks before that peer introduces itself there, and the peer's own link, up and registered, is registered no more |
| ClusterWitness.DuplicateLinkLoses | Cluster/remoteNode.go:466-496 | a run from the start: a second connection is refused and torn down, and the first, still up, is registered no more |
| ClusterWitness.RacingLinkReplaces | Cluster/clusteredBigCache.go:253-265 | a run from the start: two introductions of one peer at once leave the first link up but the second registered |
| Clusters.ClusteredBigCache.HandleVerify | Cluster/remoteNode.go:466-496 | registers the link unless both sides are passive or the id is seen to be taken |
| Clusters.ClusteredBigCache.Replicate | Cluster/clusteredBigCache.go:366-373 | queues the message for exactly the registered peers that are not passive, in any order |
| Clusters.ClusteredBigCache.Put | Cluster/clusteredBigCache.go:342-376 | stores locally only on an active node and queues the PUT for the active peers |
| Clusters.ClusteredBigCache.Get | Cluster/clusteredBigCache.go:379-406 | a local hit, no peers, or the request queued for the active peers |
| Clusters.ClusteredBigCache.Delete | Cluster/clusteredBigCache.go:420-441 | deletes locally only on an active node and queues the DEL for the active peers |
| ClusterData.OnlyTouched | Cluster/clusteredBigCache.go:342-441 | what a node holds under a hash changes, comes or goes only by a client of that node putting or deleting a key of that hash while it is started and active, by a PUT or DEL for that hash it handles, or by expiry |
| ClusterData.StaysUntilTouched | Cluster/clusteredBigCache.go:342-441 | in every run an entry stays as it is until one of these acts |
| ClusterData.PutAchieves | Cluster/clusteredBigCache.go:342-376 | an active node reads the data until the second in which its time runs out, and exactly the active peers are queued a PUT that decodes to all of that |
| ClusterData.DeleteAchieves | Cluster/clusteredBigCache.go:420-441 | an active node no longer finds the key, and exactly the active peers are queued the DEL |
| ClusterData.GetAchieves | Cluster/clusteredBigCache.go:379-406 | a get returns at once exactly when an active node holds the key, with what it holds; else, unless nobody is registered, it queues one request for each active peer and waits |
| ClusterData.NotStartedNothing | Cluster/clusteredBigCache.go:344-346 | calls on a node that has not started change nothing |
| ClusterData.GetAfterPut | Cluster/clusteredBigCache.go:342-390 | what was put on a started active node the next get there returns, whatever peers it has and whatever happens in between that does not touch the entry |
| ClusterData.PutThenGet | Cluster/clusteredBigCache.go:342-390 | a put and then a get on such a node return the data at once, from any state that keeps the invariant |
| ClusterData.PassiveHoldsNothing | Cluster/clusteredBigCache.go:342-441 | in every run a passive node holds nothing |
| Clusters.ClusteredBigCache.HandleGetRequest | Cluster/remoteNode.go:585-590 | the answer carries the pending key and the value found, or no data |
| Clusters.ClusteredBigCache.HandlePut | Cluster/remoteNode.go:615-626 | the decoded entry is stored with the second the receiver's clock gives, also when the expiry is past |
| Clusters.ClusteredBigCache.HandleMessage | Cluster/remoteNode.go:422-456 | each kind of message has the effect of the specification; a disconnected link drains without any |
| Clusters.ClusteredBigCache.HandleGetRsp | Cluster/remoteNode.go:592-613 | a binary response ends the wait of the request the specification says, and of no other; its data reach the get only while that listens |
| ClusterInvariant.SuffixIsFixed | Cluster/remoteNode.go:580-582 | the fixed suffix length makes the key recoverable from a pending key |
| ClusterInvariant.ResolvedGood | Cluster/remoteNode.go:592-613 | a response can only answer a request for the key it was looked up under |
| ClusterInvariant.VerifiedGood | Cluster/remoteNode.go:466-496 | the handshake registers only true identities and never two passive nodes |
| ClusterInvariant.HandledGood | Cluster/remoteNode.go:422-456 | handling any message keeps the node good, sends only good messages and answers gets only with what was put |
| ClusterLinks.InOrder | Cluster/remoteNode.go:402-456 | in every run and on every link, what has been handled and what still waits is what waited before and what has arrived since, in that order |
| ClusterLinks.HandledInOrder | Cluster/remoteNode.go:402-456 | from the start, what a link has handled is a front of what has arrived on it |
| ClusterLinks.DownForGood | Cluster/remoteNode.go:344-399 | in every run a link that is down stays down, takes nothing in and never sends again |
| ClusterLinks.TakenDown | Cluster/remoteNode.go:382-399 | a broken or torn down link is down; tearing it down ends its handler and every request that waits on it |
| ClusterLinks.PongForPing | Cluster/remoteNode.go:519-524 | a PING handled on a link that is up is answered with a PONG, and nothing else happens |
| ClusterGets.HandledCalls | Cluster/remoteNode.go:592-613 | a message that replies to a get finds it listening and ends it; every other message leaves all gets as they stood |
| ClusterPaths.Handed | Cluster/remoteNode.go:402-456 | a packet delivered to a waiting end that takes it, and handled, does exactly what its message asks for |
| ClusterPaths.HandshakeCompletes | Cluster/remoteNode.go:458-496 | two nodes that do not know each other and are not both passive: after connecting and both introductions each has registered the other and the links carry client traffic to an active side |
| ClusterPaths.PutArrives | Cluster/clusteredBigCache.go:342-376 | from any reachable state: after the acts put, send, deliver and handle over an active link the key reads the data on the far node, with the received expiry, and on the putting node if active |
| ClusterPaths.DeleteArrives | Cluster/clusteredBigCache.go:420-441 | from any reachable state: after the acts delete, send, deliver and handle the key is gone on the far node, and on the deleting node if active |
| ClusterPaths.GetResolved | Cluster/remoteNode.go:592-613 | a response ends the wait of its request, and the get returns its data exactly when it listens and there is any |
| ClusterPaths.RemoteGetCompletes | Cluster/clusteredBigCache.go:379-417 | from any invariant state, whatever the get itself does in the meantime: after request, answer and response over one link it has returned exactly what the far node holds under the key if that is not missing or empty and it was listening by then, else nothing; the request waits no more |
| ClusterRun.RunKeeps | Cluster/remoteNode.go:402-626 | every run of any number of honest nodes keeps the cluster invariant |
| ClusterRun.GetReturnsOnlyPut | Cluster/clusteredBigCache.go:342-417 | whatever is reordered, repeated or lost, a get that returns data returns a value some client put under that key |
| ClusterGets.AtMostOneReturn | Cluster/clusteredBigCache.go:379-417 | in every run no get returns twice, whichever peers answer it, how often and when |
| ClusterRun.NothingSentToPassive | Cluster/clusteredBigCache.go:366-438 | no PUT, DEL or GET request is ever addressed to a passive node |
| ClusterRun.NoPassivePair | Cluster/remoteNode.go:475-481 | no two passive nodes are registered with each other |
| ClusterRun.OnlyHandshakeBeforeRegistration | Cluster/remoteNode.go:402-419 | until a link is registered only VERIFY and VERIFYOK wait on it and it is not connected |
| ClusterRun.BodiesDecode | message/putMessage.go:30-36 | every PUT and GET response on the wire decodes, so no handler slices past it |
| Networks.Perform | Cluster/clusteredBigCache.go:159-465 | every act on the node and link objects, from start and connect to workers, handlers and teardown, takes them one step of the cluster |
| Networks.RunCluster | Cluster/clusteredBigCache.go:80-465 | in every run on the objects the gets return what the run of the cluster says, each at most once, and only values put under their keys |

## Left out

- TCP connections, dialling, listening, retries and pings: I/O plumbing; a link is a byte stream or a message sequence.
- The start and stop choreography of a link's goroutines: it rests on a library that is not part of this model; a link may close at any step.
- JSON messages (verify, sync, get request, delete): taken as read on arrival.
- The AVL tree, hash set, concurrent map and slice list: an ordered map, a set and a map.
- The FNV-1a hash and random ids: any hash function, any suffix of eight bytes.
- Data races inside one locked section: each locked section is one step, and so is set's work under both locks. `del` reads the second it withdraws from out of a block it has freed, after unlocking; the model lets it read any second.
- Mixing Pop with Delete: nothing in the repository calls both on one queue, and the results about Push and Pop assume no deletion.
- Floating-point rounding of `duration.Seconds()`: seconds are cut from integer nanoseconds; for durations above about 194 days the float may round up to the next second.
- Negative durations given to a local set: what the conversion of a negative float gives is left open by the language. For replicated expiries it is a parameter of the model.
- Clocks beyond 292 years from a recorded second: excluded by precondition of the expiry table, and the bound is exact (`TtlSpec.DurationExact`).
- BytesQueues.BytesQueue.Delete: an index that is no longer live is excluded, because the source then frees again what lies there; no caller in the repository does that.
- BytesQueues.BytesQueue.Pop: a head block longer than its 32-bit header tells is excluded, because the head then moves into its middle, and so is a head that Delete has freed; `FifoRun.RunFifo` ends before the first.
- Clusters.ClusteredBigCache.Put: the local cache is the plain map that `BigCache.dfy` refines, not the object itself. A node always builds its cache without a capacity limit (Cluster/clusteredBigCache.go:82-88, bigcache/config.go:39-51), so that its sets are never refused.
- Replica convergence and mesh completeness: reordering workers and teardown by id mean the code does not provide them.
- Removal callbacks, statistics, logging, configuration defaults and cache-wide reset: bookkeeping beside the properties proved here.
- The sync messages that spread peer addresses, and reconnecting: a node may dial any other at any time, for any proposed id.
