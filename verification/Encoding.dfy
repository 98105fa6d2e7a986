// Byte layouts with a key of variable length: a fixed prefix, the key length
// in two bytes, the key, the value. Cache entries (bigcache/encoding.go), PUT
// messages and GET responses (message/*.go) share this shape; all three
// readers compute the end of the key in 16-bit arithmetic.
module KeyedBlob {
  import LE = LittleEndian
  import opened Results

  type byte = LE.byte
  type Key = seq<byte>

  const KEY_SIZE_IN_BYTES := 2

  function Pack(prefix: seq<byte>, key: Key, value: seq<byte>): (blob: seq<byte>)
    ensures |blob| == |prefix| + KEY_SIZE_IN_BYTES + |key| + |value|
  {
    prefix + LE.Put(|key|, KEY_SIZE_IN_BYTES) + key + value
  }

  // The 16-bit sum `prefix + 2 + length`.
  function KeyEnd(blob: seq<byte>, prefix: nat): (end: nat)
    requires prefix + KEY_SIZE_IN_BYTES <= |blob|
  {
    (prefix + KEY_SIZE_IN_BYTES + LE.Get(blob[prefix..prefix + KEY_SIZE_IN_BYTES])) % 0x1_0000
  }

  // blob[prefix+2 : end], or None where Go would panic.
  function ReadKey(blob: seq<byte>, prefix: nat): Option<Key>
    requires prefix + KEY_SIZE_IN_BYTES <= |blob|
  {
    var start, end := prefix + KEY_SIZE_IN_BYTES, KeyEnd(blob, prefix);
    if start <= end <= |blob| then Some(blob[start..end]) else None
  }

  function ReadValue(blob: seq<byte>, prefix: nat): Option<seq<byte>>
    requires prefix + KEY_SIZE_IN_BYTES <= |blob|
  {
    var end := KeyEnd(blob, prefix);
    if end <= |blob| then Some(blob[end..]) else None
  }

  // The longest key for which the 16-bit sum does not wrap.
  function LongestKey(prefix: nat): int {
    0xFFFF - KEY_SIZE_IN_BYTES - prefix
  }

  lemma PackParts(prefix: seq<byte>, key: Key, value: seq<byte>)
    ensures var blob := Pack(prefix, key, value); var p, e := |prefix|, |prefix| + KEY_SIZE_IN_BYTES + |key|;
            && blob[..p] == prefix
            && blob[p..p + KEY_SIZE_IN_BYTES] == LE.Put(|key|, KEY_SIZE_IN_BYTES)
            && blob[p + KEY_SIZE_IN_BYTES..e] == key
            && blob[e..] == value
  {
    FourParts(prefix, LE.Put(|key|, KEY_SIZE_IN_BYTES), key, value);
  }

  // The two length bytes, least significant first.
  lemma PackDigits(prefix: seq<byte>, key: Key, value: seq<byte>)
    ensures var blob := Pack(prefix, key, value); var p := |prefix|;
            blob[p] as nat == |key| % 256 && blob[p + 1] as nat == |key| / 256 % 256
  {
    hide Pack, LE.Put;
    PackParts(prefix, key, value);
    var blob, p := Pack(prefix, key, value), |prefix|;
    LE.PutAt(|key|, KEY_SIZE_IN_BYTES, 0);
    LE.PutAt(|key|, KEY_SIZE_IN_BYTES, 1);
    assert LE.Pow256(0) == 1 && LE.Pow256(1) == 256;
    var digits := blob[p..p + KEY_SIZE_IN_BYTES];
    assert digits[0] == blob[p] && digits[1] == blob[p + 1];
  }

  lemma FourParts(a: seq<byte>, b: seq<byte>, c: seq<byte>, d: seq<byte>)
    ensures var s := a + b + c + d;
            && s[..|a|] == a
            && s[|a|..|a| + |b|] == b
            && s[|a| + |b|..|a| + |b| + |c|] == c
            && s[|a| + |b| + |c|..] == d
  {
  }

  lemma KeyEndOfPack(prefix: seq<byte>, key: Key, value: seq<byte>)
    requires |prefix| + KEY_SIZE_IN_BYTES < 0x1_0000
    ensures KeyEnd(Pack(prefix, key, value), |prefix|) == (|prefix| + KEY_SIZE_IN_BYTES + |key|) % 0x1_0000
  {
    hide Pack, LE.Put, LE.Get;
    PackParts(prefix, key, value);
    LE.GetPut(|key|, KEY_SIZE_IN_BYTES);
    LE.Widths();
  }

  // Key and value both survive exactly when the key is short enough.
  lemma ReadBack(prefix: seq<byte>, key: Key, value: seq<byte>)
    requires |prefix| + KEY_SIZE_IN_BYTES < 0x1_0000
    ensures ReadKey(Pack(prefix, key, value), |prefix|) == Some(key) <==> |key| <= LongestKey(|prefix|)
    ensures ReadValue(Pack(prefix, key, value), |prefix|) == Some(value) <==> |key| <= LongestKey(|prefix|)
  {
    hide Pack, LE.Put, LE.Get, KeyEnd;
    PackParts(prefix, key, value);
    KeyEndOfPack(prefix, key, value);
  }

  // The key and the value that a reader finds when the key is too long for
  // its two length bytes.
  function KeptKey(key: Key): Key {
    key[..|key| % 0x1_0000]
  }

  function KeptValue(key: Key, value: seq<byte>): seq<byte> {
    key[|key| % 0x1_0000..] + value
  }

  // A blob does not tell a long key from its front, with the rest of the key
  // read as part of the value.
  lemma LongKeyAlias(prefix: seq<byte>, key: Key, value: seq<byte>)
    ensures Pack(prefix, key, value) == Pack(prefix, KeptKey(key), KeptValue(key, value))
  {
    LE.PutMod(|key|, KEY_SIZE_IN_BYTES);
    LE.Widths();
    hide LE.Put;
    var m := |key| % 0x1_0000;
    assert LE.Put(|key|, KEY_SIZE_IN_BYTES) == LE.Put(m, KEY_SIZE_IN_BYTES);
    assert key + value == key[..m] + (key[m..] + value);
    var front := prefix + LE.Put(m, KEY_SIZE_IN_BYTES);
    assert front + key + value == front + (key + value);
    assert front + key[..m] + (key[m..] + value) == front + (key[..m] + (key[m..] + value));
  }

  // The length bytes tell the key length modulo 2^16.
  lemma SameLength(prefix: seq<byte>, key: Key, value: seq<byte>, key': Key, value': seq<byte>)
    requires Pack(prefix, key, value) == Pack(prefix, key', value')
    ensures |key| % 0x1_0000 == |key'| % 0x1_0000 && |key| + |value| == |key'| + |value'|
  {
    hide LE.Put, LE.Get;
    PackParts(prefix, key, value);
    PackParts(prefix, key', value');
    LE.GetPut(|key|, KEY_SIZE_IN_BYTES);
    LE.GetPut(|key'|, KEY_SIZE_IN_BYTES);
    LE.Widths();
  }
}

// bigcache/encoding.go
module Encoding {
  import LE = LittleEndian
  import opened KeyedBlob
  import opened Results
  import opened Memory
  import opened BytesQueues

  const TIMESTAMP_SIZE_IN_BYTES := 8
  const HASH_SIZE_IN_BYTES := 8
  const PREFIX_SIZE := TIMESTAMP_SIZE_IN_BYTES + HASH_SIZE_IN_BYTES
  const HEADERS_SIZE_IN_BYTES := PREFIX_SIZE + KEY_SIZE_IN_BYTES
  const MAX_KEY_LENGTH := 65517

  ghost predicate IsUint64(n: nat) {
    n < 0x1_0000_0000_0000_0000
  }

  function Prefix(timestamp: nat, hash: nat): (p: seq<byte>)
    ensures |p| == PREFIX_SIZE
  {
    LE.Put(timestamp, TIMESTAMP_SIZE_IN_BYTES) + LE.Put(hash, HASH_SIZE_IN_BYTES)
  }

  // The bytes of a cache entry.
  function Wrapped(timestamp: nat, hash: nat, key: Key, value: seq<byte>): (blob: seq<byte>)
    ensures |blob| == HEADERS_SIZE_IN_BYTES + |key| + |value|
  {
    Pack(Prefix(timestamp, hash), key, value)
  }

  function ReadTimestampFromEntry(data: seq<byte>): nat
    requires TIMESTAMP_SIZE_IN_BYTES <= |data|
  {
    LE.Get(data[..TIMESTAMP_SIZE_IN_BYTES])
  }

  function ReadHashFromEntry(data: seq<byte>): nat
    requires PREFIX_SIZE <= |data|
  {
    LE.Get(data[TIMESTAMP_SIZE_IN_BYTES..PREFIX_SIZE])
  }

  function ReadKeyFromEntry(data: seq<byte>): Option<Key>
    requires HEADERS_SIZE_IN_BYTES <= |data|
  {
    ReadKey(data, PREFIX_SIZE)
  }

  function ReadEntry(data: seq<byte>): Option<seq<byte>>
    requires HEADERS_SIZE_IN_BYTES <= |data|
  {
    ReadValue(data, PREFIX_SIZE)
  }

  // Every field of an entry reads back; key and value exactly for keys of at
  // most 65517 bytes.
  lemma EntryReadBack(timestamp: nat, hash: nat, key: Key, value: seq<byte>)
    requires IsUint64(timestamp) && IsUint64(hash)
    ensures var w := Wrapped(timestamp, hash, key, value);
            && ReadTimestampFromEntry(w) == timestamp
            && ReadHashFromEntry(w) == hash
            && (ReadKeyFromEntry(w) == Some(key) <==> |key| <= MAX_KEY_LENGTH)
            && (ReadEntry(w) == Some(value) <==> |key| <= MAX_KEY_LENGTH)
  {
    var p, w := Prefix(timestamp, hash), Wrapped(timestamp, hash, key, value);
    ReadBack(p, key, value);
    PackParts(p, key, value);
    hide Pack, LE.Put, LE.Get, ReadKey, ReadValue;
    assert w[..TIMESTAMP_SIZE_IN_BYTES] == p[..TIMESTAMP_SIZE_IN_BYTES] == LE.Put(timestamp, 8) by {
      assert w[..TIMESTAMP_SIZE_IN_BYTES] == w[..PREFIX_SIZE][..TIMESTAMP_SIZE_IN_BYTES];
    }
    assert w[TIMESTAMP_SIZE_IN_BYTES..PREFIX_SIZE] == p[TIMESTAMP_SIZE_IN_BYTES..] == LE.Put(hash, 8) by {
      assert w[TIMESTAMP_SIZE_IN_BYTES..PREFIX_SIZE] == w[..PREFIX_SIZE][TIMESTAMP_SIZE_IN_BYTES..];
    }
    LE.Widths();
    LE.FitsWidth(timestamp, 8);
    LE.FitsWidth(hash, 8);
  }

  // The bytes of an entry: expiry second, hash and key length, least
  // significant byte first, then the key, then the value.
  lemma EntryLayout(timestamp: nat, hash: nat, key: Key, value: seq<byte>)
    ensures var w := Wrapped(timestamp, hash, key, value);
            && |w| == 18 + |key| + |value|
            && (forall i | 0 <= i < 8 :: w[i] as nat == timestamp / LE.Pow256(i) % 256)
            && (forall i | 0 <= i < 8 :: w[8 + i] as nat == hash / LE.Pow256(i) % 256)
            && w[16] as nat == |key| % 256 && w[17] as nat == |key| / 256 % 256
            && w[18..18 + |key|] == key && w[18 + |key|..] == value
  {
    hide Pack, LE.Put;
    var w, p := Wrapped(timestamp, hash, key, value), Prefix(timestamp, hash);
    PackParts(p, key, value);
    PackDigits(p, key, value);
    forall i | 0 <= i < 8
      ensures w[i] as nat == timestamp / LE.Pow256(i) % 256 && w[8 + i] as nat == hash / LE.Pow256(i) % 256
    {
      LE.PutAt(timestamp, TIMESTAMP_SIZE_IN_BYTES, i);
      LE.PutAt(hash, HASH_SIZE_IN_BYTES, i);
      assert w[i] == w[..16][i] && w[8 + i] == w[..16][8 + i];
    }
  }

  // Fills the scratch buffer, enlarged first if the entry does not fit.
  method WrapEntry(timestamp: nat, hash: nat, key: Key, entry: seq<byte>, buffer: array<byte>)
    returns (blob: Slice)
    modifies buffer
    ensures blob.buf == buffer || fresh(blob.buf)
    ensures blob.lo == 0 && InBounds(blob)
    ensures blob.buf[..blob.hi] == Wrapped(timestamp, hash, key, entry)
  {
    var keyLength := |key|;
    var blobLength := |entry| + HEADERS_SIZE_IN_BYTES + keyLength;
    var b := buffer;
    if blobLength > b.Length {
      b := new byte[blobLength](_ => 0);
    }
    WriteEntry(timestamp, hash, key, entry, b);
    blob := Slice(b, 0, blobLength);
  }

  method WriteEntry(timestamp: nat, hash: nat, key: Key, entry: seq<byte>, b: array<byte>)
    requires HEADERS_SIZE_IN_BYTES + |key| + |entry| <= b.Length
    modifies b
    ensures b[..HEADERS_SIZE_IN_BYTES + |key| + |entry|] == Wrapped(timestamp, hash, key, entry)
  {
    hide LE.Put;
    CopyInto(b, 0, LE.Put(timestamp, TIMESTAMP_SIZE_IN_BYTES));
    assert b[..TIMESTAMP_SIZE_IN_BYTES] == LE.Put(timestamp, TIMESTAMP_SIZE_IN_BYTES);
    CopyInto(b, TIMESTAMP_SIZE_IN_BYTES, LE.Put(hash, HASH_SIZE_IN_BYTES));
    assert b[..PREFIX_SIZE] == Prefix(timestamp, hash);
    hide Prefix;
    CopyInto(b, PREFIX_SIZE, LE.Put(|key|, KEY_SIZE_IN_BYTES));
    CopyInto(b, HEADERS_SIZE_IN_BYTES, key);
    CopyInto(b, HEADERS_SIZE_IN_BYTES + |key|, entry);
  }

  // copy(b[at:], d) where d fits: the bytes up to its end grow by d.
  method CopyInto(b: array<byte>, at: nat, d: seq<byte>)
    requires at + |d| <= b.Length
    modifies b
    ensures b[..at + |d|] == old(b[..at]) + d
    ensures b[at + |d|..] == old(b[at + |d|..])
  {
    forall i | 0 <= i < |d| {
      b[at + i] := d[i];
    }
  }

  // Zeroes the hash field of an entry where it lies in the queue's array.
  method ResetKeyFromEntry(data: Slice)
    requires InBounds(data) && PREFIX_SIZE <= data.hi - data.lo
    modifies data.buf
    ensures data.buf[..] == Written(old(data.buf[..]), data.lo + TIMESTAMP_SIZE_IN_BYTES, LE.Put(0, HASH_SIZE_IN_BYTES))
  {
    var zero := LE.Put(0, HASH_SIZE_IN_BYTES);
    hide LE.Put;
    var at := data.lo + TIMESTAMP_SIZE_IN_BYTES;
    forall i | 0 <= i < |zero| {
      data.buf[at + i] := zero[i];
    }
  }
}
