// The queue's byte array as a value: blocks are a four byte little-endian
// payload length followed by the payload.
module Memory {
  import opened FreeRanges
  import opened Layouts
  import LE = LittleEndian

  type byte = LE.byte

  function Block(data: seq<byte>): (b: seq<byte>)
    ensures |b| == HEADER_ENTRY_SIZE + |data|
  {
    LE.Put(|data|, HEADER_ENTRY_SIZE) + data
  }

  function Zeros(n: int): (z: seq<byte>)
    ensures 0 <= n ==> |z| == n
  {
    if n <= 0 then [] else seq(n, _ => 0)
  }

  // The payloads once n bytes have been made room for: growing a wrapped queue
  // fills the gap between tail and head with an empty blob.
  ghost function RoomyContents(l: Layout, payloads: map<int, seq<byte>>, n: int): map<int, seq<byte>> {
    if MustGrow(l, n) && !Unwrapped(l) then payloads[l.tail := Zeros(l.head - l.tail - HEADER_ENTRY_SIZE)] else payloads
  }

  // A block of n bytes at s: inside the array, starting with its length.
  ghost predicate BlockAt(mem: seq<byte>, s: int, n: int) {
    && 1 <= s && HEADER_ENTRY_SIZE <= n && s + n <= |mem|
    && mem[s..s + HEADER_ENTRY_SIZE] == LE.Put(n - HEADER_ENTRY_SIZE, HEADER_ENTRY_SIZE)
  }

  ghost function PayloadAt(mem: seq<byte>, s: int, n: int): seq<byte>
    requires BlockAt(mem, s, n)
  {
    mem[s + HEADER_ENTRY_SIZE..s + n]
  }

  ghost predicate Stored(mem: seq<byte>, live: Ranges) {
    forall s | s in live :: BlockAt(mem, s, live[s])
  }

  // The payload of every live block.
  ghost function Contents(mem: seq<byte>, live: Ranges): map<int, seq<byte>>
    requires Stored(mem, live)
  {
    map s | s in live :: PayloadAt(mem, s, live[s])
  }

  // Arrays that agree on every live block have the same contents.
  lemma SameContents(mem: seq<byte>, after: seq<byte>, live: Ranges)
    requires Stored(mem, live)
    requires forall s | s in live ::
               BlockAt(after, s, live[s]) && PayloadAt(after, s, live[s]) == PayloadAt(mem, s, live[s])
    ensures Stored(after, live) && Contents(after, live) == Contents(mem, live)
  {
    hide BlockAt, PayloadAt;
  }

  // The array after d has been written at offset `at`.
  function Written(mem: seq<byte>, at: int, d: seq<byte>): (r: seq<byte>)
    requires 0 <= at && at + |d| <= |mem|
    ensures |r| == |mem|
  {
    mem[..at] + d + mem[at + |d|..]
  }

  lemma WrittenElsewhere(mem: seq<byte>, at: int, d: seq<byte>, lo: int, hi: int)
    requires 0 <= at && at + |d| <= |mem| && 0 <= lo <= hi <= |mem|
    requires hi <= at || at + |d| <= lo
    ensures Written(mem, at, d)[lo..hi] == mem[lo..hi]
  {
  }

  lemma WrittenInside(mem: seq<byte>, at: int, d: seq<byte>, lo: int, hi: int)
    requires 0 <= at && at + |d| <= |mem| && 0 <= lo <= hi <= |d|
    ensures Written(mem, at, d)[at + lo..at + hi] == d[lo..hi]
  {
  }

  // A write beside a block does not change it.
  lemma WriteBeside(mem: seq<byte>, at: int, d: seq<byte>, s: int, n: int)
    requires BlockAt(mem, s, n) && 0 <= at && at + |d| <= |mem| && (s + n <= at || at + |d| <= s)
    ensures BlockAt(Written(mem, at, d), s, n) && PayloadAt(Written(mem, at, d), s, n) == PayloadAt(mem, s, n)
  {
    hide Written, LE.Put;
    WrittenElsewhere(mem, at, d, s, s + HEADER_ENTRY_SIZE);
    WrittenElsewhere(mem, at, d, s + HEADER_ENTRY_SIZE, s + n);
  }

  // A write that avoids the live blocks changes none of them.
  lemma WriteKeeps(mem: seq<byte>, live: Ranges, at: int, d: seq<byte>)
    requires Stored(mem, live) && 0 <= at && at + |d| <= |mem| && Disjoint(live, at, |d|)
    ensures Stored(Written(mem, at, d), live)
    ensures Contents(Written(mem, at, d), live) == Contents(mem, live)
  {
    hide Written, BlockAt, PayloadAt, Contents;
    var after := Written(mem, at, d);
    forall s | s in live
      ensures BlockAt(after, s, live[s]) && PayloadAt(after, s, live[s]) == PayloadAt(mem, s, live[s])
    {
      WriteBeside(mem, at, d, s, live[s]);
    }
    SameContents(mem, after, live);
  }

  lemma BlockWritten(mem: seq<byte>, at: int, data: seq<byte>)
    requires 1 <= at && at + HEADER_ENTRY_SIZE + |data| <= |mem|
    ensures var after := Written(mem, at, Block(data)); var n := HEADER_ENTRY_SIZE + |data|;
            BlockAt(after, at, n) && PayloadAt(after, at, n) == data
  {
    hide Written, LE.Put;
    var b := Block(data);
    WrittenInside(mem, at, b, 0, HEADER_ENTRY_SIZE);
    WrittenInside(mem, at, b, HEADER_ENTRY_SIZE, |b|);
    assert b[0..HEADER_ENTRY_SIZE] == LE.Put(|data|, HEADER_ENTRY_SIZE);
    assert b[HEADER_ENTRY_SIZE..|b|] == data;
  }

  // A block written beside the live ones joins them.
  lemma WriteBlock(mem: seq<byte>, live: Ranges, at: int, data: seq<byte>)
    requires Stored(mem, live) && 1 <= at && at + HEADER_ENTRY_SIZE + |data| <= |mem|
    requires at !in live && Disjoint(live, at, HEADER_ENTRY_SIZE + |data|)
    ensures var after := Written(mem, at, Block(data)); var more := live[at := HEADER_ENTRY_SIZE + |data|];
            Stored(after, more) && Contents(after, more) == Contents(mem, live)[at := data]
  {
    hide Written, Disjoint, BlockAt, PayloadAt, Block;
    WriteKeeps(mem, live, at, Block(data));
    BlockWritten(mem, at, data);
    ContentsPut(Written(mem, at, Block(data)), live, at, HEADER_ENTRY_SIZE + |data|);
  }

  lemma ContentsPut(mem: seq<byte>, live: Ranges, s: int, n: int)
    requires Stored(mem, live) && s !in live && BlockAt(mem, s, n)
    ensures Stored(mem, live[s := n]) && Contents(mem, live[s := n]) == Contents(mem, live)[s := PayloadAt(mem, s, n)]
  {
    hide BlockAt, PayloadAt;
  }

  // Reallocation keeps what lies below the right margin.
  lemma Reallocated(mem: seq<byte>, live: Ranges, right: int, after: seq<byte>)
    requires Stored(mem, live) && 0 <= right <= |mem| && right <= |after| && after[..right] == mem[..right]
    requires forall s | s in live :: s + live[s] <= right
    ensures Stored(after, live)
    ensures Contents(after, live) == Contents(mem, live)
  {
    hide BlockAt, PayloadAt, Contents;
    forall s | s in live
      ensures BlockAt(after, s, live[s]) && PayloadAt(after, s, live[s]) == PayloadAt(mem, s, live[s])
    {
      BlockCopied(mem, right, after, s, live[s]);
    }
    SameContents(mem, after, live);
  }

  lemma BlockCopied(mem: seq<byte>, right: int, after: seq<byte>, s: int, n: int)
    requires BlockAt(mem, s, n) && s + n <= right <= |mem| && right <= |after| && after[..right] == mem[..right]
    ensures BlockAt(after, s, n) && PayloadAt(after, s, n) == PayloadAt(mem, s, n)
  {
    hide LE.Put;
    SamePrefix(mem, after, right, s, s + HEADER_ENTRY_SIZE);
    SamePrefix(mem, after, right, s + HEADER_ENTRY_SIZE, s + n);
  }

  lemma SamePrefix(a: seq<byte>, b: seq<byte>, right: int, lo: int, hi: int)
    requires 0 <= lo <= hi <= right <= |a| && right <= |b| && a[..right] == b[..right]
    ensures a[lo..hi] == b[lo..hi]
  {
    assert a[lo..hi] == a[..right][lo..hi];
    assert b[lo..hi] == b[..right][lo..hi];
  }

  // Header and payload written one after the other form one block.
  lemma WrittenTwice(mem: seq<byte>, at: int, a: seq<byte>, b: seq<byte>)
    requires 0 <= at && at + |a| + |b| <= |mem|
    ensures Written(Written(mem, at, a), at + |a|, b) == Written(mem, at, a + b)
  {
    var once := Written(mem, at, a);
    assert once[..at + |a|] == mem[..at] + a;
    assert once[at + |a| + |b|..] == mem[at + |a| + |b|..];
    assert mem[..at] + a + b == mem[..at] + (a + b);
  }

  // The payload length a header at `index` announces.
  function SizeAt(mem: seq<byte>, index: int): int
    requires 0 <= index && index + HEADER_ENTRY_SIZE <= |mem|
  {
    LE.Get(mem[index..index + HEADER_ENTRY_SIZE])
  }

  // The part of a payload whose length fits the 32-bit header.
  function Low32(p: seq<byte>): (r: seq<byte>)
    ensures |p| < 0x1_0000_0000 ==> r == p
  {
    assert |p| % 0x1_0000_0000 <= |p|;
    p[..|p| % 0x1_0000_0000]
  }

  // Reading at `index` yields p.
  ghost predicate ReadsAs(mem: seq<byte>, index: int, p: seq<byte>) {
    && 0 <= index && index + HEADER_ENTRY_SIZE + SizeOr0(mem, index) <= |mem|
    && mem[index + HEADER_ENTRY_SIZE..index + HEADER_ENTRY_SIZE + SizeOr0(mem, index)] == p
  }

  ghost function SizeOr0(mem: seq<byte>, index: int): (n: int)
    ensures 0 <= n
  {
    if 0 <= index && index + HEADER_ENTRY_SIZE <= |mem| then SizeAt(mem, index) else 0
  }

  // A live block reads as its payload, up to the 32 bits of its length.
  lemma LiveReads(mem: seq<byte>, live: Ranges, s: int)
    requires Stored(mem, live) && s in live
    ensures 0 <= s && s + HEADER_ENTRY_SIZE <= |mem| && s in Contents(mem, live)
    ensures ReadsAs(mem, s, Low32(Contents(mem, live)[s]))
    ensures s + live[s] <= |mem| && live[s] == HEADER_ENTRY_SIZE + |Contents(mem, live)[s]|
  {
    hide LE.Put, LE.Get, LE.Pow256;
    LE.GetPut(live[s] - HEADER_ENTRY_SIZE, HEADER_ENTRY_SIZE);
    LE.Widths();
    var p, size := Contents(mem, live)[s], SizeAt(mem, s);
    assert size == |p| % 0x1_0000_0000;
    assert mem[s + HEADER_ENTRY_SIZE..s + live[s]][..size]
        == mem[s + HEADER_ENTRY_SIZE..s + HEADER_ENTRY_SIZE + size];
  }

  lemma ContentsDrop(mem: seq<byte>, live: Ranges, s: int)
    requires Stored(mem, live) && s in live
    ensures Stored(mem, live - {s}) && Contents(mem, live - {s}) == Contents(mem, live) - {s}
    ensures |live - {s}| == |live| - 1
  {
    hide BlockAt, PayloadAt;
    assert live.Keys == (live - {s}).Keys + {s};
    assert |live.Keys| == |live| && |(live - {s}).Keys| == |live - {s}|;
  }

  // A write inside one payload changes that payload only.
  lemma WriteInPayload(mem: seq<byte>, live: Ranges, s: int, offset: int, d: seq<byte>)
    requires Stored(mem, live) && Blocks(live) && s in live
    requires 0 <= offset && HEADER_ENTRY_SIZE + offset + |d| <= live[s] && s + live[s] <= |mem| && 1 <= s
    ensures var after := Written(mem, s + HEADER_ENTRY_SIZE + offset, d);
            Stored(after, live) && Contents(after, live) - {s} == Contents(mem, live) - {s}
  {
    hide Written, BlockAt, PayloadAt, Contents;
    var at := s + HEADER_ENTRY_SIZE + offset;
    var after := Written(mem, at, d);
    forall t | t in live && t != s
      ensures BlockAt(after, t, live[t]) && PayloadAt(after, t, live[t]) == PayloadAt(mem, t, live[t])
    {
      WriteBeside(mem, at, d, t, live[t]);
    }
    WriteWithin(mem, s, live[s], offset, d);
    hide Blocks;
    ContentsDrop(mem, live, s);
    SameContents(mem, after, live - {s});
    ContentsDrop(after, live, s);
  }

  lemma WriteWithin(mem: seq<byte>, s: int, n: int, offset: int, d: seq<byte>)
    requires BlockAt(mem, s, n) && 0 <= offset && HEADER_ENTRY_SIZE + offset + |d| <= n
    ensures BlockAt(Written(mem, s + HEADER_ENTRY_SIZE + offset, d), s, n)
  {
    hide Written, LE.Put;
    WrittenElsewhere(mem, s + HEADER_ENTRY_SIZE + offset, d, s, s + HEADER_ENTRY_SIZE);
  }
}
