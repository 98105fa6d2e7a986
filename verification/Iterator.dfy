// bigcache/iterator.go: walks the shards one after the other over a copy of
// each shard's indexes.
module Iterators {
  import opened BytesQueues
  import opened Memory
  import opened KeyedBlob
  import opened Encoding
  import opened Results
  import opened TtlSpec
  import opened ExpirySystem
  import opened ShardIndex
  import opened Sharding
  import opened Shards
  import opened BigCaches

  datatype EntryInfo = EntryInfo(timestamp: Time, hash: nat, key: Key, value: seq<byte>)

  // keys lists every index of the hash map once.
  ghost predicate Lists(keys: seq<int>, hashmap: HashMap) {
    && (forall i | 0 <= i < |keys| :: keys[i] in hashmap.Values)
    && (forall h | h in hashmap :: hashmap[h] in keys)
    && (forall i, j | 0 <= i < j < |keys| :: keys[i] != keys[j])
  }

  // Hashes whose index is among the first k keys.
  ghost function Walked(keys: seq<int>, hashmap: HashMap, k: nat): set<nat>
    requires k <= |keys|
  {
    set h | h in hashmap.Keys && hashmap[h] in keys[..k]
  }

  // The hash that the k-th key stands for.
  ghost function HashAt(keys: seq<int>, hashmap: HashMap, k: nat): (h: nat)
    requires k < |keys| && Lists(keys, hashmap)
    ensures h in hashmap && hashmap[h] == keys[k]
  {
    assert keys[k] in hashmap.Values;
    var h :| h in hashmap && hashmap[h] == keys[k]; h
  }

  ghost predicate OneToOne(hashmap: HashMap) {
    forall h, g | h in hashmap && g in hashmap && h != g :: hashmap[h] != hashmap[g]
  }

  lemma WalkOne(keys: seq<int>, hashmap: HashMap, k: nat)
    requires k < |keys| && Lists(keys, hashmap) && OneToOne(hashmap)
    ensures HashAt(keys, hashmap, k) !in Walked(keys, hashmap, k)
    ensures Walked(keys, hashmap, k + 1) == Walked(keys, hashmap, k) + {HashAt(keys, hashmap, k)}
  {
    var h := HashAt(keys, hashmap, k);
    assert keys[..k + 1] == keys[..k] + [keys[k]];
    assert forall i | 0 <= i < k :: keys[i] != keys[k];
  }

  lemma WalkAll(keys: seq<int>, hashmap: HashMap)
    requires Lists(keys, hashmap)
    ensures Walked(keys, hashmap, |keys|) == hashmap.Keys
    ensures Walked(keys, hashmap, 0) == {}
  {
    assert keys[..|keys|] == keys;
  }

  // Hashes of the shards before the i-th.
  ghost function Earlier(c: BigCache, i: int): set<nat>
    reads c
  {
    if c.shards == [] then {} else set h | h in c.store.Keys && h % |c.shards| < i
  }

  lemma FirstShard(c: BigCache)
    requires c.Valid()
    ensures 1 <= |c.shards| && Earlier(c, 0) == {} && Earlier(c, |c.shards|) == c.store.Keys
  {
  }

  // Shard i holds exactly the hashes that separate two neighbouring stages.
  lemma Stage(c: BigCache, i: nat)
    requires c.Valid() && i < |c.shards|
    ensures c.shards[i].Valid()
    ensures c.shards[i].hashmap.Keys == c.shards[i].store.Keys && OneToOne(c.shards[i].hashmap)
    ensures Earlier(c, i + 1) == Earlier(c, i) + c.shards[i].hashmap.Keys
    ensures Earlier(c, i) !! c.shards[i].hashmap.Keys
    ensures c.shards[i].hashmap.Keys <= c.store.Keys
    ensures forall h | h in c.shards[i].hashmap :: h in c.store && c.shards[i].store[h] == c.store[h]
  {
    hide PowerOfTwo, BytesQueue.Valid, SlotOk;
    assert c.shards[i].store == Part(c.store, |c.shards|, i);
  }

  method CopyOf(c: BigCache, i: nat) returns (keys: seq<int>)
    requires c.Valid() && i < |c.shards|
    ensures Lists(keys, c.shards[i].hashmap) && |keys| == |c.shards[i].store|
  {
    hide BigCache.Valid, Shard.Valid;
    Stage(c, i);
    keys := c.shards[i].CopyKeys();
  }

  lemma OneMore(c: BigCache, i: nat, keys: seq<int>, k: nat)
    requires c.Valid() && i < |c.shards| && k < |keys| && Lists(keys, c.shards[i].hashmap)
    ensures var m := c.shards[i].hashmap; var h := HashAt(keys, m, k);
            && h in c.store
            && h !in Earlier(c, i) + Walked(keys, m, k)
            && Earlier(c, i) + Walked(keys, m, k + 1) == Earlier(c, i) + Walked(keys, m, k) + {h}
  {
    hide BigCache.Valid, Lists, Earlier;
    Stage(c, i);
    WalkOne(keys, c.shards[i].hashmap, k);
    hide Walked;
    WalkWithin(keys, c.shards[i].hashmap, k);
  }

  lemma WalkWithin(keys: seq<int>, hashmap: HashMap, k: nat)
    requires k <= |keys|
    ensures Walked(keys, hashmap, k) <= hashmap.Keys
  {
  }

  lemma ShardDone(c: BigCache, i: nat, keys: seq<int>)
    requires c.Valid() && i < |c.shards| && Lists(keys, c.shards[i].hashmap)
    ensures Earlier(c, i) + Walked(keys, c.shards[i].hashmap, |keys|) == Earlier(c, i + 1)
  {
    hide BigCache.Valid, Lists, Earlier, Walked;
    Stage(c, i);
    WalkAll(keys, c.shards[i].hashmap);
  }

  lemma EmptyShard(c: BigCache, i: nat)
    requires c.Valid() && i < |c.shards| && |c.shards[i].store| == 0
    ensures c.shards[i].store == map[] && Earlier(c, i + 1) == Earlier(c, i)
  {
    hide BigCache.Valid, Earlier;
    Stage(c, i);
  }

  lemma {:induction false} LaterEmpty(c: BigCache, i: nat)
    requires c.Valid() && i < |c.shards|
    requires forall j | i < j < |c.shards| :: c.shards[j].store == map[]
    ensures Earlier(c, i + 1) == c.store.Keys
    decreases |c.shards| - i
  {
    hide BigCache.Valid, Earlier;
    FirstShard(c);
    if i + 1 < |c.shards| {
      EmptyShard(c, i + 1);
      LaterEmpty(c, i + 1);
    }
  }

  // The first shard from `from` on that is not empty, and a copy of its
  // indexes; the number of shards, and the last copy made, if there is none.
  method NextFilled(c: BigCache, from: nat, elements: seq<int>) returns (i: nat, keys: seq<int>)
    requires c.Valid() && from <= |c.shards|
    ensures from <= i <= |c.shards|
    ensures forall j | from <= j < i :: c.shards[j].store == map[]
    ensures Earlier(c, i) == Earlier(c, from)
    ensures i < |c.shards| ==> keys != [] && Lists(keys, c.shards[i].hashmap)
    ensures i == |c.shards| ==> keys == if from < |c.shards| then [] else elements
  {
    hide BigCache.Valid, Lists, Earlier;
    i, keys := from, elements;
    while i < |c.shards|
      invariant from <= i <= |c.shards|
      invariant forall j | from <= j < i :: c.shards[j].store == map[]
      invariant Earlier(c, i) == Earlier(c, from)
      invariant keys == if from < i then [] else elements
    {
      keys := CopyOf(c, i);
      if |keys| > 0 {
        return;
      }
      EmptyShard(c, i);
      i := i + 1;
    }
  }

  // Reads the four fields of the entry in a slot.
  method ReadInfo(c: BigCache, i: nat, index: int, ghost h: nat) returns (info: EntryInfo)
    requires c.Valid() && i < |c.shards| && h in c.shards[i].hashmap && c.shards[i].hashmap[h] == index
    ensures h in c.store && info.hash == h && info.timestamp == c.store[h].expiry
    ensures Lookup(c.store, info.key, h) == Ok(info.value)
  {
    Stage(c, i);
    hide BigCache.Valid, Linked, Wrapped, EntryBytes, Low32, ReadTimestampFromEntry, ReadHashFromEntry,
         ReadKeyFromEntry, ReadEntry, BytesQueue.Valid;
    var shard := c.shards[i];
    shard.Slot(h);
    EntryFields(h, shard.store[h]);
    var got := shard.entries.Get(index);
    var entry := got.value.buf[got.value.lo..got.value.hi];
    info := EntryInfo(ReadTimestampFromEntry(entry), ReadHashFromEntry(entry),
                      ReadKeyFromEntry(entry).value, ReadEntry(entry).value);
  }

  class EntryInfoIterator {
    const cache: BigCache
    var currentShard: int
    var currentIndex: int
    var elements: seq<int>
    var valid: bool
    ghost var exhausted: bool  // the walk has looked past the last entry

    // The hashes visited so far.
    ghost function Visited(): set<nat>
      reads this, cache, cache.Repr
      requires Valid()
    {
      if exhausted then cache.store.Keys
      else Earlier(cache, currentShard) + Walked(elements, cache.shards[currentShard].hashmap, currentIndex + 1)
    }

    ghost predicate Valid()
      reads this, cache, cache.Repr
    {
      && cache.Valid() && this !in cache.Repr
      && 0 <= currentShard < |cache.shards|
      && -1 <= currentIndex
      && (exhausted ==> !valid && |elements| <= currentIndex
                        && forall i | currentShard < i < |cache.shards| :: cache.shards[i].store == map[])
      && (!exhausted ==> currentIndex < |elements| && Lists(elements, cache.shards[currentShard].hashmap)
                         && valid == (0 <= currentIndex))
    }

    // The hash the iterator stands on.
    ghost function Current(): nat
      reads this, cache, cache.Repr
      requires Valid() && valid
    {
      HashAt(elements, cache.shards[currentShard].hashmap, currentIndex)
    }

    constructor (cache: BigCache)
      requires cache.Valid()
      ensures Valid() && this.cache == cache && !valid && Visited() == {}
    {
      hide BigCache.Valid, Lists;
      FirstShard(cache);
      this.cache := cache;
      currentShard, currentIndex, valid, exhausted := 0, -1, false, false;
      var keys := CopyOf(cache, 0);
      elements := keys;
      new;
      WalkAll(elements, cache.shards[0].hashmap);
    }

    // Stands on the first entry of shard i.
    method LandOn(i: nat)
      requires cache.Valid() && this !in cache.Repr && i < |cache.shards|
      requires elements != [] && Lists(elements, cache.shards[i].hashmap)
      modifies this`currentIndex, this`currentShard, this`valid, this`exhausted
      ensures Valid() && valid
      ensures Current() in cache.store && Current() !in Earlier(cache, i)
      ensures Visited() == Earlier(cache, i) + {Current()}
    {
      hide BigCache.Valid, Lists, Walked, Earlier;
      currentIndex := 0;
      currentShard := i;
      valid, exhausted := true, false;
      WalkAll(elements, cache.shards[i].hashmap);
      OneMore(cache, i, elements, 0);
    }

    // Moves to the next entry and returns true if there is one.
    method SetNext() returns (more: bool)
      requires Valid()
      modifies this
      ensures Valid() && more == valid
      ensures more <==> old(Visited()) != cache.store.Keys
      ensures more ==> Current() in cache.store && Current() !in old(Visited())
                       && Visited() == old(Visited()) + {Current()}
      ensures !more ==> Visited() == cache.store.Keys
    {
      hide BigCache.Valid, Lists, Walked, Earlier;
      valid := false;
      currentIndex := currentIndex + 1;
      if |elements| > currentIndex {
        valid := true;
        OneMore(cache, currentShard, elements, currentIndex);
        return true;
      }
      ghost var seen := old(Visited());
      assert seen == Earlier(cache, currentShard + 1) by {
        if !exhausted { ShardDone(cache, currentShard, elements); } else { LaterEmpty(cache, currentShard); }
      }
      var i, keys := NextFilled(cache, currentShard + 1, elements);
      elements := keys;
      if i < |cache.shards| {
        LandOn(i);
        return true;
      }
      exhausted := true;
      FirstShard(cache);
      return false;
    }

    // The entry the iterator stands on.
    method Value() returns (r: Result<EntryInfo>)
      requires Valid()
      ensures !valid ==> r == Err(InvalidIteratorState)
      ensures valid ==> && r.Ok? && r.value.hash == Current() && Current() in cache.store
                        && r.value.timestamp == cache.store[Current()].expiry
                        && Lookup(cache.store, r.value.key, Current()) == Ok(r.value.value)
    {
      if !valid {
        return Err(InvalidIteratorState);
      }
      var info := ReadInfo(cache, currentShard, elements[currentIndex], Current());
      return Ok(info);
    }
  }

  // The hashes of a list of entries.
  ghost function Hashes(infos: seq<EntryInfo>): set<nat> {
    if infos == [] then {} else Hashes(infos[..|infos| - 1]) + {infos[|infos| - 1].hash}
  }

  lemma {:induction false} HashesOf(infos: seq<EntryInfo>)
    ensures forall h :: h in Hashes(infos) <==> exists i :: 0 <= i < |infos| && infos[i].hash == h
  {
    if infos != [] {
      var n := |infos| - 1;
      HashesOf(infos[..n]);
      forall h ensures h in Hashes(infos) <==> exists i :: 0 <= i < |infos| && infos[i].hash == h {
        if i :| 0 <= i < n && infos[..n][i].hash == h {
          assert infos[i].hash == h;
        }
        if i :| 0 <= i < |infos| && infos[i].hash == h {
          assert i < n ==> infos[..n][i].hash == h;
        }
        assert infos[n].hash == h ==> h in Hashes(infos);
      }
    }
  }

  // Every entry of a list tells what the map holds under its hash, and no hash
  // comes twice.
  ghost predicate Faithful(infos: seq<EntryInfo>, store: Store) {
    && (forall i | 0 <= i < |infos| ::
          var info := infos[i];
          && info.hash in store && info.timestamp == store[info.hash].expiry
          && Lookup(store, info.key, info.hash) == Ok(info.value))
    && (forall i, j | 0 <= i < j < |infos| :: infos[i].hash != infos[j].hash)
  }

  lemma FaithfulMore(infos: seq<EntryInfo>, store: Store, info: EntryInfo)
    requires Faithful(infos, store) && info.hash in store && info.hash !in Hashes(infos)
    requires info.timestamp == store[info.hash].expiry && Lookup(store, info.key, info.hash) == Ok(info.value)
    ensures Faithful(infos + [info], store) && Hashes(infos + [info]) == Hashes(infos) + {info.hash}
  {
    HashesOf(infos);
    assert (infos + [info])[..|infos|] == infos;
    hide Hashes, Lookup;
    forall i | 0 <= i < |infos| ensures infos[i].hash != info.hash {
      assert infos[i].hash in Hashes(infos);
    }
  }

  // A whole walk over a cache that nobody changes: every entry exactly once
  // with its stored fields, and false ever after.
  method Collect(cache: BigCache, extra: nat) returns (infos: seq<EntryInfo>, again: bool)
    requires cache.Valid()
    ensures |infos| == |cache.store|
    ensures forall h | h in cache.store :: exists i :: 0 <= i < |infos| && infos[i].hash == h
    ensures forall i | 0 <= i < |infos| ::
              var info := infos[i];
              && info.hash in cache.store && info.timestamp == cache.store[info.hash].expiry
              && Lookup(cache.store, info.key, info.hash) == Ok(info.value)
    ensures forall i, j | 0 <= i < j < |infos| :: infos[i].hash != infos[j].hash
    ensures !again
  {
    hide BigCache.Valid, EntryInfoIterator.Valid, EntryInfoIterator.Visited, Hashes, Lookup;
    var it := new EntryInfoIterator(cache);
    infos, again := [], false;
    NoHashes();
    while true
      invariant it.Valid() && it.cache == cache && fresh(it)
      invariant it.Visited() == Hashes(infos) <= cache.store.Keys && |infos| == |Hashes(infos)|
      invariant Faithful(infos, cache.store)
      decreases cache.store.Keys - Hashes(infos)
    {
      var more := it.SetNext();
      if !more {
        break;
      }
      var info := it.Value();
      FaithfulMore(infos, cache.store, info.value);
      infos := infos + [info.value];
    }
    HashesOf(infos);
    assert |cache.store| == |cache.store.Keys|;
    again := Further(it, extra);
  }

  lemma NoHashes()
    ensures Hashes([]) == {}
  {
  }

  // Asks an iterator that has visited everything for more.
  method Further(it: EntryInfoIterator, extra: nat) returns (again: bool)
    requires it.Valid() && it.Visited() == it.cache.store.Keys
    modifies it
    ensures !again
  {
    hide BigCache.Valid, EntryInfoIterator.Valid, EntryInfoIterator.Visited;
    again := false;
    for k := 0 to extra
      invariant it.Valid() && it.Visited() == it.cache.store.Keys && !again
    {
      var more := it.SetNext();
      again := again || more;
    }
  }
}
