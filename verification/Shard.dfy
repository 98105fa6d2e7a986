// bigcache/shard.go: one shard of the cache. The hash map holds the queue
// index of every entry; the entry itself lies encoded in the queue's array.
module Shards {
  import opened FreeRanges
  import opened FreeLists
  import opened Layouts
  import opened Memory
  import opened BytesQueues
  import opened CacheQueue
  import opened KeyedBlob
  import opened Encoding
  import opened Results
  import opened TtlSpec
  import opened TtlManagers
  import opened ExpirySystem
  import opened ShardIndex
  import LE = LittleEndian

  class Shard {
    var hashmap: HashMap
    const entries: BytesQueue
    var entryBuffer: array<byte>
    const ttlTable: TtlManager
    const hasher: Hasher
    var locked: bool        // the write lock, between operations
    ghost var store: Store  // the plain map this shard stands for
    ghost var Repr: set<object>

    ghost predicate Owned()
      reads this, Repr
    {
      && {this, entries, ttlTable, entryBuffer} <= Repr
      && entries.Repr <= Repr
      && {this, ttlTable, entryBuffer} !! entries.Repr
      && entries.Valid()
    }

    // The shard never pops, so the queue never wraps.
    ghost predicate Valid()
      reads this, Repr
      ensures Valid() ==> this in Repr
    {
      && Owned()
      && entries.head == LEFT_MARGIN_INDEX
      && Linked(hashmap, entries.Payloads(), store)
      && !locked
    }

    constructor (initialCapacity: nat, maxCapacity: int, bufferSize: nat, hasher: Hasher, now: Time)
      ensures Valid() && fresh(Repr) && store == map[] && this.hasher == hasher
      ensures entries.maxCapacity == maxCapacity && entries.View() == EmptyLayout(initialCapacity) && hashmap == map[]
      ensures ttlTable.View() == Ttl(map[], Armed(now + 36000))
    {
      hide BytesQueue.Valid, BytesQueue.Payloads, BytesQueue.Fifo, SlotOk;
      hashmap, store, locked := map[], map[], false;
      entries := new BytesQueue(initialCapacity, maxCapacity);
      entryBuffer := new byte[bufferSize](_ => 0);
      ttlTable := new TtlManager(now);
      this.hasher := hasher;
      new;
      Repr := {this, entries, ttlTable, entryBuffer} + entries.Repr;
    }

    // Reading a slot yields the encoding of its entry.
    lemma Slot(h: nat)
      requires Valid() && h in hashmap
      ensures h in store && Encodable(h, store[h])
      ensures hashmap[h] in entries.live && hashmap[h] != 0
      ensures entries.Refusal(hashmap[h]) == None && entries.Readable(hashmap[h])
      ensures entries.Payloads()[hashmap[h]] == EntryBytes(h, store[h])
      ensures Low32(EntryBytes(h, store[h])) == EntryBytes(h, store[h])
      ensures entries.live[hashmap[h]] < UINT32_LIMIT
    {
      hide BytesQueue.Valid, Contents, Low32, Wrapped;
      assert SlotOk(hashmap, entries.Payloads(), h, store[h]);
      LiveKeys(entries);
      entries.LiveIndex(hashmap[h]);
    }

    method Get(key: Key, hashedKey: nat) returns (r: Result<seq<byte>>)
      requires Valid()
      ensures r == Lookup(store, key, hashedKey)
    {
      hide BytesQueue.Valid, Linked, Wrapped, ReadKeyFromEntry, ReadEntry, EntryBytes, Low32;
      var itemIndex := if hashedKey in hashmap then hashmap[hashedKey] else 0;
      if hashedKey in hashmap {
        Slot(hashedKey);
      }
      if itemIndex == 0 {
        SameKeys(hashmap, entries.Payloads(), store);
        return Err(EntryNotFound);
      }
      var got := entries.Get(itemIndex);
      assert got.Ok?;  // a slot's index is never refused, so the source's error branch is dead
      var wrappedEntry := got.value.buf[got.value.lo..got.value.hi];
      ghost var e := store[hashedKey];
      EntryFields(hashedKey, e);
      if Some(key) != ReadKeyFromEntry(wrappedEntry) {
        return Err(EntryNotFound);
      }
      return Ok(ReadEntry(wrappedEntry).value);
    }

    // Zeroes the hash field of the entry at an index, in place, and frees it.
    method Release(wrappedEntry: Slice, itemIndex: int)
      requires Owned() && itemIndex in entries.live && entries.live[itemIndex] < UINT32_LIMIT
      requires HEADERS_SIZE_IN_BYTES + HEADER_ENTRY_SIZE <= entries.live[itemIndex]
      requires entries.Refusal(itemIndex) == None
      requires wrappedEntry == Slice(entries.buf, itemIndex + HEADER_ENTRY_SIZE, itemIndex + entries.live[itemIndex])
      requires InBounds(wrappedEntry)
      modifies entries, entries.buf, entries.freelist, this`Repr
      ensures Owned() && old(Repr) <= Repr && fresh(Repr - old(Repr))
      ensures entries.View() == Deleted(old(entries.View()), itemIndex)
      ensures entries.Payloads() == old(entries.Payloads()) - {itemIndex}
    {
      hide BytesQueue.Valid, BytesQueue.Payloads, Deleted;
      QueueOwns(entries);
      ResetInQueue(entries, wrappedEntry, itemIndex);
      var r := entries.Delete(itemIndex);
      Repr := Repr + entries.Repr;
    }

    // The wrapped entry of a slot and the second it is stored with.
    method ReadSlot(itemIndex: int, ghost h: nat) returns (wrappedEntry: Slice, timestamp: Time)
      requires Valid() && h in hashmap && itemIndex == hashmap[h]
      ensures itemIndex in entries.live && entries.live[itemIndex] < UINT32_LIMIT
      ensures HEADERS_SIZE_IN_BYTES + HEADER_ENTRY_SIZE <= entries.live[itemIndex]
      ensures entries.Refusal(itemIndex) == None
      ensures wrappedEntry == Slice(entries.buf, itemIndex + HEADER_ENTRY_SIZE, itemIndex + entries.live[itemIndex])
      ensures InBounds(wrappedEntry)
      ensures h in store && timestamp == store[h].expiry
    {
      hide BytesQueue.Valid, Linked, Wrapped, EntryBytes, Low32, ReadTimestampFromEntry;
      Slot(h);
      EntryFields(h, store[h]);
      entries.LiveIndex(itemIndex);
      var got := entries.Get(itemIndex);
      wrappedEntry := got.value;
      timestamp := ReadTimestampFromEntry(wrappedEntry.buf[wrappedEntry.lo..wrappedEntry.hi]);
    }

    // Frees the block of a slot; the slot itself is the caller's to clear.
    method ReleaseSlot(wrappedEntry: Slice, itemIndex: int, ghost h: nat)
      requires Valid() && h in hashmap && itemIndex == hashmap[h]
      requires itemIndex in entries.live && entries.live[itemIndex] < UINT32_LIMIT
      requires HEADERS_SIZE_IN_BYTES + HEADER_ENTRY_SIZE <= entries.live[itemIndex]
      requires entries.Refusal(itemIndex) == None
      requires wrappedEntry == Slice(entries.buf, itemIndex + HEADER_ENTRY_SIZE, itemIndex + entries.live[itemIndex])
      requires InBounds(wrappedEntry)
      modifies entries, entries.buf, entries.freelist, this`Repr
      ensures Owned() && old(Repr) <= Repr && fresh(Repr - old(Repr))
      ensures entries.head == LEFT_MARGIN_INDEX
      ensures entries.tail == old(entries.tail) && entries.capacity == old(entries.capacity)
      ensures entries.View() == Deleted(old(entries.View()), itemIndex)
      ensures entries.Payloads() == old(entries.Payloads()) - {itemIndex}
      ensures Linked(hashmap - {h}, entries.Payloads(), store - {h})
    {
      hide BytesQueue.Valid, BytesQueue.Payloads, Linked, InBounds;
      LinkedDrop(hashmap, entries.Payloads(), store, h);
      Release(wrappedEntry, itemIndex);
    }

    // The array is not larger than the configured limit, if there is one.
    predicate WithinLimit(capacity: int) {
      0 < entries.maxCapacity ==> capacity <= entries.maxCapacity
    }

    // The queue once the block of a slot has been freed.
    ghost function WithoutSlot(h: nat): Layout
      reads this, entries, entries.freelist
    {
      if h in hashmap && hashmap[h] in entries.live then Deleted(entries.View(), hashmap[h]) else entries.View()
    }

    // First half of set: the old entry under this hash, whatever its key, is
    // withdrawn and freed; its slot still holds the freed index.
    method ClearPrevious(key: Key, hashedKey: nat, now: Time)
      requires Valid() && ttlTable.InReach(now)
      modifies entries, entries.buf, entries.freelist, ttlTable, this`Repr
      ensures Owned() && old(Repr) <= Repr && fresh(Repr - old(Repr))
      ensures entries.head == LEFT_MARGIN_INDEX
      ensures entries.View() == old(WithoutSlot(hashedKey))
      ensures entries.tail == old(entries.tail) && entries.capacity == old(entries.capacity)
      ensures entries.Payloads() == old(PayloadsAfterFree(hashmap, entries.Payloads(), hashedKey))
      ensures Linked(hashmap - {hashedKey}, entries.Payloads(), store - {hashedKey})
      ensures ttlTable.View() == Withdrawn(old(ttlTable.View()), store, key, hashedKey)
    {
      hide BytesQueue.Valid, BytesQueue.Payloads, Linked, InBounds, TtlSpec.Remove, Encodable;
      var previousIndex := if hashedKey in hashmap then hashmap[hashedKey] else 0;
      SameKeys(hashmap, entries.Payloads(), store);
      QueueOwns(entries);
      if hashedKey in hashmap {
        Slot(hashedKey);
      } else {
        LinkedSame(hashmap, entries.Payloads(), store, hashedKey);
      }
      if previousIndex != 0 {
        var previousEntry, timestamp := ReadSlot(previousIndex, hashedKey);
        ttlTable.Remove(timestamp, key, now);
        ReleaseSlot(previousEntry, previousIndex, hashedKey);
      }
    }

    // Encodes an entry in the scratch buffer and pushes it.
    method WrapAndPush(hashedKey: nat, e: Entry) returns (r: Result<int>)
      requires Owned() && entries.head == LEFT_MARGIN_INDEX
      modifies entries.Repr, entryBuffer, this`entryBuffer, this`Repr
      ensures Owned() && old(Repr) <= Repr && fresh(Repr - old(Repr))
      ensures entries.head == LEFT_MARGIN_INDEX
      ensures r.Ok? <==>
              CanHold(old(entries.View()), HEADER_ENTRY_SIZE + |EntryBytes(hashedKey, e)|, entries.maxCapacity)
      ensures r.Ok? ==> 0 < r.value <= old(entries.tail) && r.value !in old(entries.Payloads())
                        && entries.Payloads() == old(entries.Payloads())[r.value := EntryBytes(hashedKey, e)]
      ensures r.Err? ==> entries.Payloads() == old(entries.Payloads()) && entries.View() == old(entries.View())
      ensures WithinLimit(old(entries.capacity)) ==> WithinLimit(entries.capacity)
    {
      hide BytesQueue.Valid, BytesQueue.Payloads, CanHold, Wrapped;
      var w := WrapEntry(e.expiry, hashedKey, e.key, e.value, entryBuffer);
      entryBuffer, Repr := w.buf, Repr + {w.buf};
      r := PushOne(entries, w.buf[..w.hi]);
      Repr := Repr + entries.Repr;
    }

    // Second half of set: pushes the new entry and points its slot at it. The
    // slot holds the low 32 bits of the index.
    method StoreNew(hashedKey: nat, e: Entry) returns (ok: bool, index: int)
      requires Owned() && entries.head == LEFT_MARGIN_INDEX && IsUint64(hashedKey) && IsUint64(e.expiry)
      requires Linked(hashmap - {hashedKey}, entries.Payloads(), store - {hashedKey}) && !locked
      modifies entries.Repr, entryBuffer, this
      ensures Owned() && old(Repr) <= Repr && fresh(Repr - old(Repr)) && locked == old(locked)
      ensures ok <==> CanHold(old(entries.View()), HEADER_ENTRY_SIZE + |EntryBytes(hashedKey, e)|, entries.maxCapacity)
      ensures ok ==> 0 < index <= old(entries.tail) && hashmap == old(hashmap)[hashedKey := index % UINT32_LIMIT]
                     && index !in old(entries.Payloads())
                     && entries.Payloads() == old(entries.Payloads())[index := EntryBytes(hashedKey, e)]
      ensures ok && index < UINT32_LIMIT && Readable(e) ==> Valid() && store == old(store)[hashedKey := Kept(e)]
      ensures !ok ==> hashmap == old(hashmap) && entries.Payloads() == old(entries.Payloads())
      ensures !ok ==> entries.View() == old(entries.View())
      ensures WithinLimit(old(entries.capacity)) ==> WithinLimit(entries.capacity)
    {
      hide BytesQueue.Valid, BytesQueue.Payloads, Linked, CanHold, EntryBytes, Kept, Readable;
      var pushed := WrapAndPush(hashedKey, e);
      if pushed.Err? {
        return false, 0;
      }
      index := pushed.value;
      StoredSlot(hashmap - {hashedKey}, old(entries.Payloads()), store - {hashedKey}, hashedKey, index, e,
                 (store - {hashedKey})[hashedKey := Kept(e)]);
      assert hashmap[hashedKey := index % UINT32_LIMIT] == (hashmap - {hashedKey})[hashedKey := index % UINT32_LIMIT];
      assert store[hashedKey := Kept(e)] == (store - {hashedKey})[hashedKey := Kept(e)];
      hashmap := hashmap[hashedKey := pushed.value % UINT32_LIMIT];
      store := store[hashedKey := Kept(e)];
      return true, index;
    }

    // The part of set under the shard's lock. When the queue is full the
    // source returns without releasing it, and the slot keeps the index of a
    // block that has been freed.
    method SetLocked(key: Key, hashedKey: nat, entry: seq<byte>, expiryTimestamp: Time, now: Time)
      returns (ok: bool, index: int)
      requires Valid() && ttlTable.InReach(now) && IsUint64(hashedKey) && IsUint64(expiryTimestamp)
      modifies Repr
      ensures Owned() && old(Repr) <= Repr && fresh(Repr - old(Repr))
      ensures ttlTable.View() == Withdrawn(old(ttlTable.View()), old(store), key, hashedKey)
      ensures var e := Entry(expiryTimestamp, key, entry); var size := HEADER_ENTRY_SIZE + |EntryBytes(hashedKey, e)|;
              var left := old(PayloadsAfterFree(hashmap, entries.Payloads(), hashedKey));
              && (ok <==> CanHold(old(WithoutSlot(hashedKey)), size, entries.maxCapacity))
              && (ok ==> && 0 < index <= old(entries.tail) && hashmap == old(hashmap)[hashedKey := index % UINT32_LIMIT]
                         && index !in left && entries.Payloads() == left[index := EntryBytes(hashedKey, e)])
              && (ok && index < UINT32_LIMIT && Readable(e) ==> Valid() && store == old(store)[hashedKey := Kept(e)])
              && locked == !ok
              && (!ok ==> && hashmap == old(hashmap) && entries.Payloads() == left
                          && entries.View() == old(WithoutSlot(hashedKey)))
      ensures WithinLimit(old(entries.capacity)) ==> WithinLimit(entries.capacity)
    {
      hide BytesQueue.Valid, BytesQueue.Payloads, Linked, Withdrawn, CanHold, Deleted, EntryBytes, Kept, Readable;
      QueueOwns(entries);
      ClearPrevious(key, hashedKey, now);
      ok, index := StoreNew(hashedKey, Entry(expiryTimestamp, key, entry));
      if !ok {
        locked := true;
      }
    }

    // Stores an entry. A refused set returns 0 and no error. An accepted one
    // puts what a reader takes the entry for under the hash, unless the index
    // does not fit 32 bits or no reader can take the entry for anything.
    method Set(key: Key, hashedKey: nat, entry: seq<byte>, duration: nat, now: Time) returns (r: Time, index: int)
      requires Valid() && ttlTable.InReach(now) && duration < 0x8000_0000_0000_0000 && IsUint64(hashedKey)
      modifies Repr
      ensures Owned() && old(Repr) <= Repr && fresh(Repr - old(Repr))
      ensures var e := Entry(Expiry(now, duration), key, entry);
              var size := HEADER_ENTRY_SIZE + |EntryBytes(hashedKey, e)|;
              var left := old(PayloadsAfterFree(hashmap, entries.Payloads(), hashedKey));
              if CanHold(old(WithoutSlot(hashedKey)), size, entries.maxCapacity) then
                && r == e.expiry && 0 < index <= old(entries.tail)
                && hashmap == old(hashmap)[hashedKey := index % UINT32_LIMIT]
                && index !in left && entries.Payloads() == left[index := EntryBytes(hashedKey, e)]
                && (index < UINT32_LIMIT && Readable(e) ==> Valid() && store == old(store)[hashedKey := Kept(e)])
                && ttlTable.View() == Registered(old(ttlTable.View()), old(store), key, hashedKey, e.expiry, duration)
              else
                && locked && r == 0 && hashmap == old(hashmap) && entries.Payloads() == left
                && ttlTable.View() == Withdrawn(old(ttlTable.View()), old(store), key, hashedKey)
      ensures Rebooks(old(ttlTable.View()), ttlTable.View(), key, SecondOf(old(store), hashedKey), now, duration,
                      locked, r)
      ensures locked <==> !CanHold(old(WithoutSlot(hashedKey)),
                                   HEADER_ENTRY_SIZE + HEADERS_SIZE_IN_BYTES + |key| + |entry|, entries.maxCapacity)
      ensures old(Timely(ttlTable.View())) ==> Timely(ttlTable.View())
      ensures WithinLimit(old(entries.capacity)) ==> WithinLimit(entries.capacity)
    {
      hide BytesQueue.Valid, BytesQueue.Payloads, Linked, TtlSpec.Put, Withdrawn, CanHold, Shard.WithoutSlot,
           EntryBytes, Kept, Readable, OnlyMoves, Recorded, Timely, SecondOf;
      TableAfter(ttlTable.View(), store, key, hashedKey, Expiry(now, duration), duration);
      ExpiryExact(now, duration);
      var expiryTimestamp := if duration != 0 then now + duration / SECOND else NO_EXPIRY;
      var ok;
      ok, index := SetLocked(key, hashedKey, entry, expiryTimestamp, now);
      if !ok {
        return 0, index;
      }
      if duration != 0 {
        ttlTable.Put(expiryTimestamp, key, now);
      }
      return expiryTimestamp, index;
    }

    // The part of del under the shard's lock: removes the entry under a hash,
    // whatever its key, and gives its second.
    method DelLocked(hashedKey: nat) returns (r: Result<Time>)
      requires Valid()
      modifies Repr - {ttlTable}
      ensures Valid() && old(Repr) <= Repr && fresh(Repr - old(Repr))
      ensures r == if hashedKey in old(store) then Ok(old(store)[hashedKey].expiry) else Err(EntryNotFound)
      ensures store == old(store) - {hashedKey}
      ensures entries.capacity == old(entries.capacity)
    {
      hide BytesQueue.Valid, BytesQueue.Payloads, Linked, Deleted, Encodable, InBounds, EntryBytes;
      QueueOwns(entries);
      SameKeys(hashmap, entries.Payloads(), store);
      var itemIndex := if hashedKey in hashmap then hashmap[hashedKey] else 0;
      if hashedKey in hashmap {
        Slot(hashedKey);
      }
      if itemIndex == 0 {
        return Err(EntryNotFound);
      }
      var wrappedEntry, timestamp := ReadSlot(itemIndex, hashedKey);
      ReleaseSlot(wrappedEntry, itemIndex, hashedKey);
      hashmap, store := hashmap - {hashedKey}, store - {hashedKey};
      return Ok(timestamp);
    }

    // Removes an entry and withdraws the key, with nothing in between.
    method Del(key: Key, hashedKey: nat, now: Time) returns (r: Result<()>)
      requires Valid() && ttlTable.InReach(now)
      modifies Repr
      ensures Valid() && old(Repr) <= Repr && fresh(Repr - old(Repr))
      ensures r == if hashedKey in old(store) then Ok(()) else Err(EntryNotFound)
      ensures store == old(store) - {hashedKey}
      ensures ttlTable.View() == Withdrawn(old(ttlTable.View()), old(store), key, hashedKey)
      ensures OnlyMoves(old(ttlTable.View()), ttlTable.View(), key, SecondOf(old(store), hashedKey), None)
      ensures old(Timely(ttlTable.View())) ==> Timely(ttlTable.View())
    {
      hide BytesQueue.Valid, BytesQueue.Payloads, Linked, TtlSpec.Remove, OnlyMoves, Timely, SecondOf;
      TableAfter(ttlTable.View(), store, key, hashedKey, NO_EXPIRY, 0);
      var timestamp := DelLocked(hashedKey);
      if timestamp.Err? {
        return Err(timestamp.error);
      }
      ttlTable.Remove(timestamp.value, key, now);
      return Ok(());
    }

    // Deletes one key of an eviction batch, unless its slot is gone or has
    // been stored again with another second.
    method EvictKey(timeStamp: Time, v: Key)
      requires Valid()
      modifies Repr - {ttlTable}
      ensures Valid() && old(Repr) <= Repr && fresh(Repr - old(Repr))
      ensures store == Evicted(hasher, old(store), Batch(timeStamp, {v}))
      ensures entries.capacity == old(entries.capacity)
    {
      hide BytesQueue.Valid, BytesQueue.Payloads, Linked, Deleted, Encodable, InBounds, EntryBytes;
      QueueOwns(entries);
      SameKeys(hashmap, entries.Payloads(), store);
      var keyHash := hasher(v);
      var itemIndex := if keyHash in hashmap then hashmap[keyHash] else 0;
      if keyHash in hashmap {
        Slot(keyHash);
      }
      if itemIndex == 0 {
        return;
      }
      var wrappedEntry, storedTimestamp := ReadSlot(itemIndex, keyHash);
      if storedTimestamp == timeStamp {
        ReleaseSlot(wrappedEntry, itemIndex, keyHash);
        hashmap, store := hashmap - {keyHash}, store - {keyHash};
      }
    }

    // Deletes an eviction batch; the set may be walked in any order.
    method EvictDel(timeStamp: Time, keys: set<Key>)
      requires Valid()
      modifies Repr - {ttlTable}
      ensures Valid() && old(Repr) <= Repr && fresh(Repr - old(Repr))
      ensures store == Evicted(hasher, old(store), Batch(timeStamp, keys))
      ensures ttlTable.View() == old(ttlTable.View()) && entries.capacity == old(entries.capacity)
    {
      hide BytesQueue.Valid, BytesQueue.Payloads, Linked, Evicted;
      EvictedNone(hasher, store, timeStamp);
      ghost var done: set<Key> := {};
      var rest := keys;
      while rest != {}
        invariant Valid() && old(Repr) <= Repr && fresh(Repr - old(Repr))
        invariant done + rest == keys && store == Evicted(hasher, old(store), Batch(timeStamp, done))
        invariant entries.capacity == old(entries.capacity)
      {
        var v :| v in rest;
        EvictKey(timeStamp, v);
        EvictedMore(hasher, old(store), timeStamp, done, v);
        done, rest := done + {v}, rest - {v};
      }
      assert done == keys;
    }

    // The indexes of all entries, in some order, each once.
    method CopyKeys() returns (keys: seq<int>)
      requires Valid()
      ensures |keys| == |store|
      ensures forall i | 0 <= i < |keys| :: keys[i] in hashmap.Values
      ensures forall h | h in hashmap :: hashmap[h] in keys
      ensures forall i, j | 0 <= i < j < |keys| :: keys[i] != keys[j]
    {
      hide BytesQueue.Valid, BytesQueue.Payloads, SlotOk;
      keys := [];
      var rest := hashmap.Keys;
      while rest != {}
        invariant rest <= hashmap.Keys && |keys| == |hashmap.Keys| - |rest|
        invariant forall i | 0 <= i < |keys| :: exists h :: h in hashmap.Keys - rest && hashmap[h] == keys[i]
        invariant forall h | h in hashmap.Keys - rest :: hashmap[h] in keys
        invariant forall i, j | 0 <= i < j < |keys| :: keys[i] != keys[j]
      {
        var h :| h in rest;
        keys := keys + [hashmap[h]];
        rest := rest - {h};
      }
      assert |store.Keys| == |store|;
    }

    method Len() returns (n: nat)
      requires Valid()
      ensures n == |store| && n == entries.count
    {
      SameCount(hashmap, entries.Payloads(), store);
      CountOf(entries);
      n := |hashmap|;
    }

    // Byte accounting in cache use: live, free and leaked bytes fill the
    // array from the left margin up to the tail.
    lemma Accounting()
      requires Valid()
      ensures |Bytes(entries.live)| + |Bytes(entries.freelist.free)| + |entries.leaked| == entries.tail - 1
    {
      hide Linked, Bytes, Region;
      SoundOf(entries);
      hide BytesQueue.Valid;
      Conservation(entries.View());
      CacheUse(entries.View(), HEADER_ENTRY_SIZE, 0);
    }
  }

  // What a set or a del does to the records and the timer.
  lemma TableAfter(ttl: Ttl, store: Store, key: Key, hash: nat, expiry: Time, duration: nat)
    ensures OnlyMoves(ttl, Withdrawn(ttl, store, key, hash), key, SecondOf(store, hash), None)
    ensures var after := Registered(ttl, store, key, hash, expiry, duration);
            && (duration != 0 ==> Recorded(after, expiry, key))
            && OnlyMoves(ttl, after, key, SecondOf(store, hash), if duration != 0 then Some(expiry) else None)
    ensures Timely(ttl) ==> Timely(Withdrawn(ttl, store, key, hash))
                            && Timely(Registered(ttl, store, key, hash, expiry, duration))
  {
    hide *;
    WithdrawnRecords(ttl, store, key, hash);
    RegisteredRecords(ttl, store, key, hash, expiry, duration);
    if Timely(ttl) {
      RegisteredTimely(ttl, store, key, hash, expiry, duration);
    }
  }

  // Resetting the hash field touches one payload and nothing else.
  method ResetInQueue(q: BytesQueue, wrappedEntry: Slice, index: int)
    requires q.Valid() && index in q.live
    requires HEADERS_SIZE_IN_BYTES + HEADER_ENTRY_SIZE <= q.live[index]
    requires wrappedEntry == Slice(q.buf, index + HEADER_ENTRY_SIZE, index + q.live[index])
    requires InBounds(wrappedEntry)
    modifies q.buf
    ensures q.Valid() && index in q.Payloads()
    ensures q.Payloads() - {index} == old(q.Payloads()) - {index}
  {
    hide Stored, Contents, Sound, FreeList.Valid, Written, LE.Put;
    BlocksOf(q.View());
    LiveInOnePiece(q.View(), index);
    WriteInPayload(q.buf[..], q.live, index, TIMESTAMP_SIZE_IN_BYTES, LE.Put(0, HASH_SIZE_IN_BYTES));
    ResetKeyFromEntry(wrappedEntry);
    LiveKeys(q);
  }

  lemma BlocksOf(l: Layout)
    requires Sound(l)
    ensures Blocks(l.live)
  {
  }

  lemma LinkedSame(hashmap: HashMap, payloads: Payloads, store: Store, h: nat)
    requires Linked(hashmap, payloads, store) && h !in hashmap
    ensures Linked(hashmap - {h}, payloads, store - {h})
  {
    assert hashmap - {h} == hashmap && store - {h} == store;
  }

  lemma EvictedNone(H: Hasher, store: Store, at: Time)
    ensures Evicted(H, store, Batch(at, {})) == store
  {
  }

  lemma EvictedMore(H: Hasher, store: Store, at: Time, done: set<Key>, v: Key)
    ensures Evicted(H, Evicted(H, store, Batch(at, done)), Batch(at, {v})) == Evicted(H, store, Batch(at, done + {v}))
  {
    forall h ensures Named(H, done + {v}, h) <==> Named(H, done, h) || Named(H, {v}, h) {
      if Named(H, done + {v}, h) {
        var k :| k in done + {v} && H(k) == h;
      }
      if Named(H, {v}, h) {
        assert v in done + {v};
      }
    }
  }

}
