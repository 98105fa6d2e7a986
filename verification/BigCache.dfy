// bigcache/bigcache.go: a cache of several shards, each key living in the
// shard its hash selects.
module BigCaches {
  import opened Layouts
  import opened BytesQueues
  import opened CacheQueue
  import opened KeyedBlob
  import opened Encoding
  import opened Results
  import opened TtlSpec
  import opened ExpirySystem
  import opened ShardIndex
  import opened Sharding
  import opened Shards

  class BigCache {
    var shards: seq<Shard>
    const hash: Hasher
    var shardMask: nat
    ghost var store: Store  // the one plain map the cache stands for
    ghost var Repr: set<object>

    ghost predicate Owned()
      reads this, Repr
    {
      && this in Repr
      && (forall i | 0 <= i < |shards| ::
            && shards[i] in Repr && shards[i].Repr <= Repr && this !in shards[i].Repr
            && shards[i].Valid() && shards[i].hasher == hash && shards[i].ttlTable in shards[i].Repr)
      && (forall i, j | 0 <= i < j < |shards| :: shards[i].Repr !! shards[j].Repr)
    }

    // Every shard holds its own part of the map, and its expiry table names
    // its own keys only.
    ghost predicate Valid()
      reads this, Repr
      ensures Valid() ==> this in Repr
    {
      && Owned()
      && PowerOfTwo(|shards|) && shardMask == |shards| - 1
      && (forall i | 0 <= i < |shards| :: shards[i].store == Part(store, |shards|, i))
      && (forall i | 0 <= i < |shards| :: Homed(hash, shards[i].ttlTable.View(), |shards|, i))
    }

    constructor (config: nat, capacity: nat, maxCapacity: int, bufferSize: nat, hash: Hasher, now: Time)
      requires PowerOfTwo(config)
      ensures Valid() && fresh(Repr) && store == map[] && this.hash == hash && |shards| == config
      ensures forall i | 0 <= i < |shards| :: shards[i].entries.maxCapacity == maxCapacity
    {
      hide Shard.Valid, PowerOfTwo;
      NotEmpty(config);
      this.hash := hash;
      shardMask, store, shards := config - 1, map[], [];
      Repr := {this};
      new;
      while |shards| < config
        invariant |shards| <= config && fresh(Repr) && Owned() && shardMask == config - 1 && store == map[]
        invariant forall i | 0 <= i < |shards| :: shards[i].store == map[] && shards[i].ttlTable.timeTree == map[]
        invariant forall i | 0 <= i < |shards| :: shards[i].entries.maxCapacity == maxCapacity
      {
        var shard := new Shard(capacity, maxCapacity, bufferSize, hash, now);
        TableOwned(shard);
        AddShard(shard);
      }
    }

    method AddShard(shard: Shard)
      requires Owned() && shard.Valid() && shard.hasher == hash && shard.ttlTable in shard.Repr
      requires shard.Repr !! Repr
      modifies this`shards, this`Repr
      ensures Owned() && shards == old(shards) + [shard] && Repr == old(Repr) + shard.Repr
    {
      hide Shard.Valid;
      shards, Repr := shards + [shard], Repr + shard.Repr;
    }

    // The shard that a hash selects.
    function GetShard(hashedKey: nat): (i: nat)
      reads this, Repr
      requires Valid()
      ensures i == hashedKey % |shards| < |shards|
    {
      MaskIsMod(hashedKey, |shards|);
      And(hashedKey, shardMask)
    }

    // The entries of the selected shard are the map's entries at that hash.
    lemma InItsShard(h: nat)
      requires Valid()
      ensures var i := GetShard(h);
              && (h in shards[i].store <==> h in store)
              && (h in store ==> shards[i].store[h] == store[h])
    {
      hide Shard.Valid, PowerOfTwo, Homed;
      var i := GetShard(h);
      assert shards[i].store == Part(store, |shards|, i);
    }

    method Get(key: Key) returns (r: Result<seq<byte>>)
      requires Valid()
      ensures r == Lookup(store, key, hash(key))
    {
      hide Shard.Valid;
      var hashedKey := hash(key);
      InItsShard(hashedKey);
      r := shards[GetShard(hashedKey)].Get(key, hashedKey);
    }

    // Stores an entry in the shard of its hash. What can keep it from being
    // stored is what keeps that shard from storing it; the other shards do not
    // notice.
    method Set(key: Key, entry: seq<byte>, duration: nat, now: Time) returns (r: Time, index: int)
      requires Valid() && duration < 0x8000_0000_0000_0000 && IsUint64(hash(key))
      requires shards[GetShard(hash(key))].ttlTable.InReach(now)
      modifies Repr
      ensures shards == old(shards)
      ensures var h := hash(key); var e := Entry(Expiry(now, duration), key, entry); var i := old(GetShard(h));
              && (forall j | 0 <= j < |shards| && j != i ::
                    && shards[j].Valid() && shards[j].store == old(shards[j].store)
                    && shards[j].ttlTable.View() == old(shards[j].ttlTable.View()))
              && Rebooks(old(shards[i].ttlTable.View()), shards[i].ttlTable.View(), key, SecondOf(old(store), h), now,
                         duration, shards[i].locked, r)
              && if CanHold(old(shards[i].WithoutSlot(h)), HEADER_ENTRY_SIZE + |EntryBytes(h, e)|,
                            shards[i].entries.maxCapacity) then
                   && r == e.expiry && 0 < index <= old(shards[i].entries.tail)
                   && (index < UINT32_LIMIT && Readable(e) ==>
                         && Valid() && old(Repr) <= Repr && fresh(Repr - old(Repr))
                         && store == old(store)[h := Kept(e)])
                 else r == 0 && shards[i].locked
    {
      hide Valid, Shard.WithoutSlot, CanHold, Kept, Readable, EntryBytes, Rebooks, SecondOf;
      r, index := SetIn(GetShard(hash(key)), key, entry, duration, now);
    }

    // Every shard but one holds its part of the map.
    ghost predicate Besides(i: nat)
      reads this, Repr
    {
      && this in Repr && PowerOfTwo(|shards|) && shardMask == |shards| - 1
      && (forall j | 0 <= j < |shards| && j != i ::
            && shards[j] in Repr && shards[j].Repr <= Repr && this !in shards[j].Repr
            && shards[j].Valid() && shards[j].hasher == hash && shards[j].ttlTable in shards[j].Repr
            && shards[j].store == Part(store, |shards|, j) && Homed(hash, shards[j].ttlTable.View(), |shards|, j))
      && (forall j, k | 0 <= j < k < |shards| && j != i && k != i :: shards[j].Repr !! shards[k].Repr)
    }

    // The map follows what has happened to that one.
    ghost method Rejoin(i: nat, after: Store)
      requires Besides(i) && i < |shards| && shards[i] in Repr
      requires shards[i].Valid() && shards[i].hasher == hash && shards[i].ttlTable in shards[i].Repr
      requires this !in shards[i].Repr && Homed(hash, shards[i].ttlTable.View(), |shards|, i)
      requires forall j | 0 <= j < |shards| && j != i :: shards[i].Repr !! shards[j].Repr
      requires shards[i].store == Part(after, |shards|, i)
      requires forall j | 0 <= j < |shards| && j != i :: Part(after, |shards|, j) == Part(store, |shards|, j)
      modifies this`store, this`Repr
      ensures Valid() && store == after && Repr == old(Repr) + shards[i].Repr
      ensures forall j | 0 <= j < |shards| :: shards[j].Valid() && shards[j].store == old(shards[j].store)
    {
      hide Shard.Valid, PowerOfTwo, Homed, Part;
      store, Repr := after, Repr + shards[i].Repr;
    }

    method SetIn(i: nat, key: Key, entry: seq<byte>, duration: nat, now: Time) returns (r: Time, index: int)
      requires Valid() && duration < 0x8000_0000_0000_0000 && IsUint64(hash(key))
      requires i < |shards| && hash(key) % |shards| == i && shards[i].ttlTable.InReach(now)
      modifies Repr
      ensures shards == old(shards)
      ensures forall j | 0 <= j < |shards| && j != i :: shards[j].Valid() && shards[j].store == old(shards[j].store)
      ensures var h := hash(key); var e := Entry(Expiry(now, duration), key, entry);
              if CanHold(old(shards[i].WithoutSlot(h)), HEADER_ENTRY_SIZE + |EntryBytes(h, e)|,
                         shards[i].entries.maxCapacity) then
                && r == e.expiry && 0 < index <= old(shards[i].entries.tail)
                && (index < UINT32_LIMIT && Readable(e) ==>
                      && Valid() && old(Repr) <= Repr && fresh(Repr - old(Repr))
                      && store == old(store)[h := Kept(e)])
              else r == 0 && shards[i].locked
      ensures forall j | 0 <= j < |shards| && j != i :: shards[j].ttlTable.View() == old(shards[j].ttlTable.View())
      ensures Rebooks(old(shards[i].ttlTable.View()), shards[i].ttlTable.View(), key, SecondOf(old(store), hash(key)),
                      now, duration, shards[i].locked, r)
    {
      hide Rebooks, SecondOf, Valid, Shard.Valid, Shard.Owned, Shard.WithoutSlot, CanHold, Kept, Readable, EntryBytes,
           Homed, Part, Besides, PowerOfTwo;
      ghost var e := Entry(Expiry(now, duration), key, entry);
      ghost var h := hash(key);
      ghost var holds := CanHold(shards[i].WithoutSlot(h), HEADER_ENTRY_SIZE + |EntryBytes(h, e)|,
                                 shards[i].entries.maxCapacity);
      PartsPut(store, |shards|, h, Kept(e));
      r, index := SetShard(i, key, entry, duration, now);
      if holds && index < UINT32_LIMIT && Readable(e) {
        Rejoin(i, store[h := Kept(e)]);
      }
    }

    method SetShard(i: nat, key: Key, entry: seq<byte>, duration: nat, now: Time) returns (r: Time, index: int)
      requires Valid() && duration < 0x8000_0000_0000_0000 && IsUint64(hash(key))
      requires i < |shards| && hash(key) % |shards| == i && shards[i].ttlTable.InReach(now)
      modifies Repr - {this}
      ensures Besides(i) && shards[i] in Repr
      ensures old(shards[i].Repr) <= Repr && fresh(shards[i].Repr - old(shards[i].Repr))
      ensures forall j | 0 <= j < |shards| && j != i :: shards[j].Valid() && shards[j].store == old(shards[j].store)
      ensures forall j | 0 <= j < |shards| && j != i :: shards[i].Repr !! shards[j].Repr
      ensures var h := hash(key); var e := Entry(Expiry(now, duration), key, entry);
              if CanHold(old(shards[i].WithoutSlot(h)), HEADER_ENTRY_SIZE + |EntryBytes(h, e)|,
                         shards[i].entries.maxCapacity) then
                && r == e.expiry && 0 < index <= old(shards[i].entries.tail)
                && (index < UINT32_LIMIT && Readable(e) ==>
                      && shards[i].Valid() && shards[i].store == old(Part(store, |shards|, i))[h := Kept(e)]
                      && shards[i].hasher == hash && shards[i].ttlTable in shards[i].Repr && this !in shards[i].Repr
                      && Homed(hash, shards[i].ttlTable.View(), |shards|, i))
              else r == 0 && shards[i].locked
      ensures forall j | 0 <= j < |shards| && j != i :: shards[j].ttlTable.View() == old(shards[j].ttlTable.View())
      ensures Rebooks(old(shards[i].ttlTable.View()), shards[i].ttlTable.View(), key, SecondOf(old(store), hash(key)),
                      now, duration, shards[i].locked, r)
    {
      hide Rebooks, Timely, Shard.Valid, Shard.Owned, PowerOfTwo, Shard.WithoutSlot, CanHold, Withdrawn, TtlSpec.Put,
           Linked, Kept, Readable, EntryBytes, Homed, Registered, Part;
      var shard := shards[i];
      SamePart(store, |shards|, hash(key));
      hide SecondOf;
      HomedSet(hash, shard.ttlTable.View(), |shards|, i, shard.store, key, Expiry(now, duration), duration);
      r, index := shard.Set(key, hash(key), entry, duration, now);
    }

    method Delete(key: Key, now: Time) returns (r: Result<()>)
      requires Valid() && shards[GetShard(hash(key))].ttlTable.InReach(now)
      modifies Repr
      ensures Valid() && old(Repr) <= Repr && fresh(Repr - old(Repr)) && shards == old(shards)
      ensures r == if hash(key) in old(store) then Ok(()) else Err(EntryNotFound)
      ensures store == old(store) - {hash(key)}
      // The key is off the books of its shard for its hash's second, and no
      // other record is touched.
      ensures var i := old(GetShard(hash(key)));
              && (forall j | 0 <= j < |shards| && j != i :: shards[j].ttlTable.View() == old(shards[j].ttlTable.View()))
              && OnlyMoves(old(shards[i].ttlTable.View()), shards[i].ttlTable.View(), key,
                           SecondOf(old(store), hash(key)), None)
    {
      hide Shard.Valid, PowerOfTwo, Withdrawn, Linked, Homed, Registered, Part, OnlyMoves, Timely;
      var hashedKey := hash(key);
      var i := GetShard(hashedKey);
      var shard := shards[i];
      InItsShard(hashedKey);
      PartsDrop(store, |shards|, hashedKey);
      HomedSet(hash, shard.ttlTable.View(), |shards|, i, shard.store, key, 0, 0);
      r := shard.Del(key, hashedKey, now);
      store, Repr := store - {hashedKey}, Repr + shard.Repr;
    }

    // The eviction goroutine of a shard takes a batch out of its table. All
    // keys of the batch belong to that shard.
    method OnFirst(i: nat) returns (batch: Option<Batch>)
      requires Valid() && i < |shards|
      modifies shards[i].ttlTable
      ensures Valid() && Repr == old(Repr) && shards == old(shards) && store == old(store)
      ensures (shards[i].ttlTable.View(), batch) == First(old(shards[i].ttlTable.View()))
      ensures batch.Some? ==> HomedBatch(hash, batch.value, |shards|, i)
    {
      hide PowerOfTwo, Linked, BytesQueue.Valid;
      HomedFirst(hash, shards[i].ttlTable.View(), |shards|, i);
      batch := shards[i].ttlTable.OnFirst();
    }

    method OnNext(i: nat, now: Time) returns (batch: Option<Batch>)
      requires Valid() && i < |shards| && shards[i].ttlTable.InReach(now)
      modifies shards[i].ttlTable
      ensures Valid() && Repr == old(Repr) && shards == old(shards) && store == old(store)
      ensures (shards[i].ttlTable.View(), batch) == Next(old(shards[i].ttlTable.View()), now)
      ensures batch.Some? ==> HomedBatch(hash, batch.value, |shards|, i)
    {
      hide PowerOfTwo, Linked, BytesQueue.Valid;
      HomedNext(hash, shards[i].ttlTable.View(), now, |shards|, i);
      batch := shards[i].ttlTable.OnNext(now);
    }

    // Deleting the batch of one shard deletes from the one map what a single
    // shard holding everything would delete.
    method EvictBatch(i: nat, batch: Batch)
      requires Valid() && i < |shards| && HomedBatch(hash, batch, |shards|, i)
      modifies shards[i].Repr, this
      ensures Valid() && old(Repr) <= Repr && fresh(Repr - old(Repr)) && shards == old(shards)
      ensures store == Evicted(hash, old(store), batch)
    {
      hide Shard.Valid, PowerOfTwo, Linked, Homed, Evicted, HomedBatch, Part;
      var shard := shards[i];
      EvictedParts(hash, store, |shards|, batch, i);
      shard.EvictDel(batch.at, batch.keys);
      store, Repr := Evicted(hash, store, batch), Repr + shard.Repr;
    }

    method Len() returns (len: nat)
      requires Valid()
      ensures len == |store|
    {
      hide Shard.Valid, PowerOfTwo;
      len := 0;
      ghost var sizes: seq<nat> := [];
      for i := 0 to |shards|
        invariant |sizes| == i && len == Sum(sizes)
        invariant forall j | 0 <= j < i :: sizes[j] == |Part(store, |shards|, j)|
      {
        var n := shards[i].Len();
        assert (sizes + [n])[..i] == sizes;
        sizes := sizes + [n];
        len := len + n;
      }
      NotEmpty(|shards|);
      PartsAddUp(store, |shards|, |shards|, sizes);
    }
  }

  // A table that names only keys of shard i out of n.
  ghost predicate Homed(H: Hasher, ttl: Ttl, n: nat, i: nat)
    requires 1 <= n
  {
    forall t, k | Recorded(ttl, t, k) :: H(k) % n == i
  }

  ghost predicate HomedBatch(H: Hasher, batch: Batch, n: nat, i: nat)
    requires 1 <= n
  {
    forall k | k in batch.keys :: H(k) % n == i
  }

  lemma HomedSet(H: Hasher, ttl: Ttl, n: nat, i: nat, store: Store, key: Key, expiry: Time, duration: nat)
    requires 1 <= n && Homed(H, ttl, n, i) && H(key) % n == i
    ensures Homed(H, Registered(ttl, store, key, H(key), expiry, duration), n, i)
    ensures Homed(H, Withdrawn(ttl, store, key, H(key)), n, i)
  {
    if H(key) in store {
      RemoveRecords(ttl, store[H(key)].expiry, key);
    }
    PutRecords(Withdrawn(ttl, store, key, H(key)), expiry, key);
    hide Recorded, Remove, TtlSpec.Put;
  }

  lemma HomedPop(H: Hasher, ttl: Ttl, n: nat, i: nat)
    requires 1 <= n && Homed(H, ttl, n, i) && ttl.tree.Keys != {}
    ensures var (left, batch) := TtlSpec.Popped(ttl); Homed(H, left, n, i) && HomedBatch(H, batch, n, i)
  {
    var k := Min(ttl.tree.Keys);
    forall v | v in ttl.tree[k] ensures H(v) % n == i {
      assert Recorded(ttl, k, v);
    }
    forall t, v | Recorded(TtlSpec.Popped(ttl).0, t, v) ensures H(v) % n == i {
      assert Recorded(ttl, t, v);
    }
  }

  lemma HomedFirst(H: Hasher, ttl: Ttl, n: nat, i: nat)
    requires 1 <= n && Homed(H, ttl, n, i)
    ensures var (left, batch) := First(ttl); Homed(H, left, n, i) && (batch.Some? ==> HomedBatch(H, batch.value, n, i))
  {
    if ttl.tree.Keys != {} {
      HomedPop(H, ttl, n, i);
    }
  }

  lemma HomedNext(H: Hasher, ttl: Ttl, now: Time, n: nat, i: nat)
    requires 1 <= n && Homed(H, ttl, n, i)
    ensures var (left, batch) := Next(ttl, now);
            Homed(H, left, n, i) && (batch.Some? ==> HomedBatch(H, batch.value, n, i))
  {
    if ttl.tree.Keys != {} {
      HomedPop(H, ttl, n, i);
      var armed := ttl.(timer := Armed(Min(ttl.tree.Keys)));
      assert forall t, k :: Recorded(armed, t, k) <==> Recorded(ttl, t, k);
    }
  }

  lemma EvictedParts(H: Hasher, store: Store, n: nat, batch: Batch, i: nat)
    requires 1 <= n && i < n && HomedBatch(H, batch, n, i)
    ensures Part(Evicted(H, store, batch), n, i) == Evicted(H, Part(store, n, i), batch)
    ensures forall j | 0 <= j < n && j != i :: Part(Evicted(H, store, batch), n, j) == Part(store, n, j)
  {
  }

  // A shard and the whole map have the same entry under a hash of that shard.
  lemma SamePart(store: Store, n: nat, h: nat)
    requires 1 <= n
    ensures SecondOf(Part(store, n, h % n), h) == SecondOf(store, h)
  {
  }

  // Integer division as the source's language does it, towards zero.
  function Quotient(a: int, b: int): int
    requires b != 0
  {
    if (a < 0) == (b < 0) then Magnitude(a) / Magnitude(b) else -(Magnitude(a) / Magnitude(b))
  }

  function Magnitude(a: int): nat {
    if a < 0 then -a else a
  }

  // The limit of one shard in bytes, out of the limit of the cache in
  // megabytes; 0 for none.
  function MaximumShardSize(hardMaxCacheSize: int, shards: int): int
    requires shards != 0
  {
    if hardMaxCacheSize > 0 then Quotient(ToInt64(hardMaxCacheSize * 0x10_0000), shards) else 0
  }

  // The shards share the limit, up to less than one byte for each, exactly when
  // the limit in bytes fits a signed 64-bit integer. Without a limit there is
  // none for a shard.
  lemma LimitIsShared(hardMaxCacheSize: int, shards: int)
    requires 0 < shards < -INT64_MIN
    ensures hardMaxCacheSize <= 0 ==> MaximumShardSize(hardMaxCacheSize, shards) == 0
    ensures 0 < hardMaxCacheSize ==>
              var limit := MaximumShardSize(hardMaxCacheSize, shards);
              shards * limit <= hardMaxCacheSize * 0x10_0000 < shards * limit + shards <==>
              hardMaxCacheSize * 0x10_0000 < -INT64_MIN
  {
    if 0 < hardMaxCacheSize {
      var bytes := hardMaxCacheSize * 0x10_0000;
      QuotientExact(ToInt64(bytes), shards);
      ToInt64Exact(bytes);
    }
  }

  lemma QuotientExact(a: int, b: int)
    requires 0 < b
    ensures 0 <= a ==> b * Quotient(a, b) <= a < b * Quotient(a, b) + b
    ensures a < 0 ==> b * Quotient(a, b) <= 0
  {
    var q := Magnitude(a) / b;
    assert Magnitude(a) == b * q + Magnitude(a) % b;
    assert 0 <= b * q;
    assert a < 0 ==> b * Quotient(a, b) == -(b * q);
  }

  lemma ToInt64Exact(n: int)
    requires 0 <= n
    ensures n < -INT64_MIN ==> ToInt64(n) == n
    ensures -INT64_MIN <= n ==> ToInt64(n) <= n + 2 * INT64_MIN
  {
  }

  datatype NewOutcome = Refused(error: Error) | Panics | NoShards | Made(cache: BigCache)

  // The constructor of the source refuses counts that fail its test. The least
  // integer passes it and cannot size the list of shards. Zero passes it, too:
  // a cache with a limit then divides by zero, and one without has no shard to
  // select.
  method NewBigCache(config: int, capacity: nat, hardMaxCacheSize: int, bufferSize: nat, hash: Hasher, now: Time)
    returns (r: NewOutcome)
    requires INT64_MIN <= config < -INT64_MIN
    ensures match r
            case Refused(e) =>
              e == ShardsNotPowerOfTwo && config != 0 && config != INT64_MIN && !(0 < config && PowerOfTwo(config))
            case Panics => config == INT64_MIN || (config == 0 && 0 < hardMaxCacheSize)
            case NoShards => config == 0 && hardMaxCacheSize <= 0
            case Made(c) =>
              && 0 < config && PowerOfTwo(config) && c.Valid() && fresh(c.Repr) && c.store == map[]
              && |c.shards| == config && c.hash == hash
              && forall i | 0 <= i < config ::
                   var limit := c.shards[i].entries.maxCapacity;
                   && limit == MaximumShardSize(hardMaxCacheSize, config)
                   && (hardMaxCacheSize <= 0 ==> limit == 0)
                   && (0 < hardMaxCacheSize * 0x10_0000 < -INT64_MIN ==>
                         config * limit <= hardMaxCacheSize * 0x10_0000 < config * limit + config)
  {
    PowerOfTwoTest(config);
    hide PowerOfTwo, MaximumShardSize;
    if !PassesPowerOfTwoTest(config) {
      return Refused(ShardsNotPowerOfTwo);
    }
    if config < 0 {
      return Panics;
    }
    if config == 0 {
      return if hardMaxCacheSize > 0 then Panics else NoShards;
    }
    var limit := MaximumShardSize(hardMaxCacheSize, config);
    LimitIsShared(hardMaxCacheSize, config);
    var cache := new BigCache(config, capacity, limit, bufferSize, hash, now);
    return Made(cache);
  }

  lemma TableOwned(shard: Shard)
    requires shard.Valid()
    ensures shard.ttlTable in shard.Repr
  {
    hide Linked;
  }

  lemma NotEmpty(n: nat)
    requires PowerOfTwo(n)
    ensures 1 <= n
  {
  }
}
