// How a shard's hash map, the payloads in its queue and the plain map it
// stands for hang together, as values.
module ShardIndex {
  import opened KeyedBlob
  import opened Encoding
  import opened ExpirySystem
  import opened Results

  type HashMap = map<nat, int>
  type Payloads = map<int, seq<byte>>

  const UINT32_LIMIT := 0x1_0000_0000

  function EntryBytes(h: nat, e: Entry): (blob: seq<byte>)
    ensures |blob| == HEADERS_SIZE_IN_BYTES + |e.key| + |e.value|
  {
    Wrapped(e.expiry, h, e.key, e.value)
  }

  // The entry survives its encoding and its block length fits 32 bits.
  ghost predicate Encodable(h: nat, e: Entry) {
    && IsUint64(h) && IsUint64(e.expiry) && |e.key| <= MAX_KEY_LENGTH
    && HEADERS_SIZE_IN_BYTES + |e.key| + |e.value| + 4 < UINT32_LIMIT
  }

  ghost predicate SlotOk(hashmap: HashMap, payloads: Payloads, h: nat, e: Entry) {
    && h in hashmap && hashmap[h] in payloads && 0 < hashmap[h] < UINT32_LIMIT
    && Encodable(h, e) && payloads[hashmap[h]] == EntryBytes(h, e)
  }

  // Every slot points to the encoding of its entry, no two slots share a
  // block, and every live block belongs to a slot.
  ghost predicate Linked(hashmap: HashMap, payloads: Payloads, store: Store) {
    && hashmap.Keys == store.Keys
    && (forall h | h in store :: SlotOk(hashmap, payloads, h, store[h]))
    && (forall h, g | h in hashmap && g in hashmap && h != g :: hashmap[h] != hashmap[g])
    && (forall i | i in payloads :: i in hashmap.Values)
  }

  lemma SameKeys(hashmap: HashMap, payloads: Payloads, store: Store)
    requires Linked(hashmap, payloads, store)
    ensures hashmap.Keys == store.Keys
  {
  }

  lemma LinkedDrop(hashmap: HashMap, payloads: Payloads, store: Store, h: nat)
    requires Linked(hashmap, payloads, store) && h in hashmap
    ensures hashmap[h] in payloads
    ensures Linked(hashmap - {h}, payloads - {hashmap[h]}, store - {h})
  {
    hide EntryBytes, Encodable;
    assert SlotOk(hashmap, payloads, h, store[h]);
    var m := hashmap - {h};
    forall g | g in store - {h} ensures SlotOk(m, payloads - {hashmap[h]}, g, store[g]) {
      assert SlotOk(hashmap, payloads, g, store[g]);
    }
    forall i | i in payloads - {hashmap[h]} ensures i in m.Values {
      var g :| g in hashmap && hashmap[g] == i;
      assert g in m;
    }
  }

  lemma LinkedPut(hashmap: HashMap, payloads: Payloads, store: Store, h: nat, i: int, e: Entry)
    requires Linked(hashmap, payloads, store) && h !in hashmap && i !in payloads
    requires 0 < i < UINT32_LIMIT && Encodable(h, e)
    ensures Linked(hashmap[h := i], payloads[i := EntryBytes(h, e)], store[h := e])
  {
    hide EntryBytes, Encodable;
    var m, p, after := hashmap[h := i], payloads[i := EntryBytes(h, e)], store[h := e];
    forall g | g in after ensures SlotOk(m, p, g, after[g]) {
      assert g != h ==> SlotOk(hashmap, payloads, g, store[g]);
    }
    forall j | j in p ensures j in m.Values {
      if j != i {
        var g :| g in hashmap && hashmap[g] == j;
        assert g in m && m[g] == j;
      } else {
        assert h in m && m[h] == j;
      }
    }
  }

  lemma EntryFields(h: nat, e: Entry)
    requires Encodable(h, e)
    ensures HEADERS_SIZE_IN_BYTES <= |EntryBytes(h, e)|
    ensures ReadTimestampFromEntry(EntryBytes(h, e)) == e.expiry
    ensures ReadHashFromEntry(EntryBytes(h, e)) == h
    ensures ReadKeyFromEntry(EntryBytes(h, e)) == Some(e.key)
    ensures ReadEntry(EntryBytes(h, e)) == Some(e.value)
  {
    hide Wrapped, ReadKeyFromEntry, ReadEntry, ReadTimestampFromEntry, ReadHashFromEntry;
    EntryReadBack(e.expiry, h, e.key, e.value);
  }

  // An entry is determined by its bytes.
  lemma EntryDetermined(h: nat, e: Entry, e': Entry)
    requires Encodable(h, e) && Encodable(h, e') && EntryBytes(h, e) == EntryBytes(h, e')
    ensures e == e'
  {
    hide EntryBytes, ReadKeyFromEntry, ReadEntry, ReadTimestampFromEntry;
    EntryFields(h, e);
    EntryFields(h, e');
  }

  // What a reader of the entry's bytes takes it for: a key too long for its
  // two length bytes loses its tail to the value.
  function Kept(e: Entry): Entry {
    Entry(e.expiry, KeptKey(e.key), KeptValue(e.key, e.value))
  }

  // The bytes can be read at all.
  predicate Readable(e: Entry) {
    |e.key| % 0x1_0000 <= MAX_KEY_LENGTH && HEADERS_SIZE_IN_BYTES + |e.key| + |e.value| + 4 < UINT32_LIMIT
  }

  lemma KeptBytes(h: nat, e: Entry)
    requires IsUint64(h) && IsUint64(e.expiry)
    ensures EntryBytes(h, e) == EntryBytes(h, Kept(e))
    ensures Encodable(h, Kept(e)) <==> Readable(e)
    ensures |e.key| <= MAX_KEY_LENGTH ==> Kept(e) == e
  {
    LongKeyAlias(Prefix(e.expiry, h), e.key, e.value);
    hide Pack, Prefix;
    if |e.key| <= MAX_KEY_LENGTH {
      assert e.key[..|e.key|] == e.key && e.key[|e.key|..] + e.value == e.value;
    }
  }

  lemma OnlyReadable(h: nat, e: Entry, other: Entry)
    requires IsUint64(h) && IsUint64(e.expiry) && Encodable(h, other) && EntryBytes(h, e) == EntryBytes(h, other)
    ensures Readable(e) && other == Kept(e)
  {
    hide EntryBytes, Kept, Encodable;
    ReadableLike(h, e, other);
    KeptBytes(h, e);
    EntryDetermined(h, other, Kept(e));
  }

  lemma ReadableLike(h: nat, e: Entry, other: Entry)
    requires IsUint64(h) && IsUint64(e.expiry) && Encodable(h, other) && EntryBytes(h, e) == EntryBytes(h, other)
    ensures Readable(e)
  {
    assert |EntryBytes(h, e)| == |EntryBytes(h, other)|;
    SameKeyLength(h, e, other);
    hide Wrapped;
  }

  lemma SameKeyLength(h: nat, e: Entry, other: Entry)
    requires IsUint64(h) && IsUint64(e.expiry) && IsUint64(other.expiry) && EntryBytes(h, e) == EntryBytes(h, other)
    ensures |e.key| % 0x1_0000 == |other.key| % 0x1_0000
  {
    EntryReadBack(e.expiry, h, e.key, e.value);
    EntryReadBack(other.expiry, h, other.key, other.value);
    hide Pack, ReadTimestampFromEntry, ReadHashFromEntry, ReadKeyFromEntry, ReadEntry;
    SameLength(Prefix(e.expiry, h), e.key, e.value, other.key, other.value);
  }

  // Pointing a slot at a pushed entry gives a shard that stands for a plain
  // map exactly when the index fits 32 bits and the entry can be read; the map
  // is then the old one with what a reader takes the entry for.
  lemma StoredSlot(hashmap: HashMap, payloads: Payloads, store: Store, h: nat, i: int, e: Entry, other: Store)
    requires Linked(hashmap, payloads, store) && h !in hashmap && i !in payloads && 0 < i
    requires IsUint64(h) && IsUint64(e.expiry)
    ensures Linked(hashmap[h := i % UINT32_LIMIT], payloads[i := EntryBytes(h, e)], other) <==>
            i < UINT32_LIMIT && Readable(e) && other == store[h := Kept(e)]
  {
    hide EntryBytes, Encodable, Kept, Readable;
    KeptBytes(h, e);
    var m, p := hashmap[h := i % UINT32_LIMIT], payloads[i := EntryBytes(h, e)];
    if i < UINT32_LIMIT && Readable(e) && other == store[h := Kept(e)] {
      LinkedPut(hashmap, payloads, store, h, i, Kept(e));
    } else if Linked(m, p, other) {
      NarrowIndex(hashmap, payloads, store, h, i, p, other);
      assert SlotOk(m, p, h, other[h]);
      OnlyReadable(h, e, other[h]);
      OthersStay(hashmap, payloads, store, h, i, EntryBytes(h, e), other);
    }
  }

  lemma OtherStays(hashmap: HashMap, payloads: Payloads, store: Store, h: nat, i: int, blob: seq<byte>,
                   other: Store, g: nat)
    requires Linked(hashmap, payloads, store) && h !in hashmap && i !in payloads
    requires Linked(hashmap[h := i], payloads[i := blob], other) && g in store
    ensures g in other && other[g] == store[g]
  {
    hide EntryBytes, Encodable;
    assert SlotOk(hashmap, payloads, g, store[g]) && SlotOk(hashmap[h := i], payloads[i := blob], g, other[g]);
    hide Linked;
    EntryDetermined(g, store[g], other[g]);
  }

  // The entries under other hashes are the only ones those slots can mean.
  lemma OthersStay(hashmap: HashMap, payloads: Payloads, store: Store, h: nat, i: int, blob: seq<byte>, other: Store)
    requires Linked(hashmap, payloads, store) && h !in hashmap && i !in payloads
    requires Linked(hashmap[h := i], payloads[i := blob], other)
    ensures h in other && other == store[h := other[h]]
  {
    hide Linked;
    SameKeys(hashmap, payloads, store);
    SameKeys(hashmap[h := i], payloads[i := blob], other);
    assert other.Keys == store.Keys + {h};
    forall g | g in store ensures other[g] == store[g] {
      OtherStays(hashmap, payloads, store, h, i, blob, other, g);
    }
  }

  lemma NarrowIndex(hashmap: HashMap, payloads: Payloads, store: Store, h: nat, i: int, p: Payloads, other: Store)
    requires Linked(hashmap, payloads, store) && 0 < i && i in p
    requires Linked(hashmap[h := i % UINT32_LIMIT], p, other)
    ensures i < UINT32_LIMIT
  {
    hide EntryBytes, Encodable;
    var m := hashmap[h := i % UINT32_LIMIT];
    var g :| g in m && m[g] == i;
    if g != h {
      assert SlotOk(hashmap, payloads, g, store[g]);
    }
  }

  // As many live blocks as entries.
  lemma {:induction false} SameCount(hashmap: HashMap, payloads: Payloads, store: Store)
    requires Linked(hashmap, payloads, store)
    ensures |payloads| == |hashmap| == |store|
    decreases |hashmap|
  {
    hide SlotOk, EntryBytes;
    assert |hashmap| == |hashmap.Keys| && |store| == |store.Keys| && |payloads| == |payloads.Keys|;
    if hashmap.Keys == {} {
      assert forall i :: i !in hashmap.Values;
      assert forall i :: i !in payloads.Keys;
    } else {
      var h :| h in hashmap.Keys;
      LinkedDrop(hashmap, payloads, store, h);
      hide Linked;
      var i := hashmap[h];
      SameCount(hashmap - {h}, payloads - {i}, store - {h});
      assert hashmap.Keys == (hashmap - {h}).Keys + {h};
      assert payloads.Keys == (payloads - {i}).Keys + {i};
    }
  }

  ghost function PayloadsAfterFree(hashmap: HashMap, payloads: Payloads, h: nat): Payloads {
    if h in hashmap then payloads - {hashmap[h]} else payloads
  }

  // A slot whose block has been freed under it belongs to no plain map: after
  // a set that fails to push, the shard is sound exactly when there was no
  // earlier entry under that hash.
  lemma StaleSlot(hashmap: HashMap, payloads: Payloads, store: Store, h: nat)
    requires Linked(hashmap, payloads, store)
    ensures var left := PayloadsAfterFree(hashmap, payloads, h);
            (exists other :: Linked(hashmap, left, other)) <==> h !in hashmap
  {
    var left := PayloadsAfterFree(hashmap, payloads, h);
    if h in hashmap {
      forall other ensures !Linked(hashmap, left, other) {
        assert h in other ==> !SlotOk(hashmap, left, h, other[h]);
      }
    } else {
      assert Linked(hashmap, left, store);
    }
  }
}
