// Where the bytes of the queue's array belong, as a value: which part of the
// array is in use, which blocks are live, which are free, and which have been
// dropped from the books. BytesQueue.dfy keeps `Sound` as its invariant.
module Layouts {
  import opened FreeRanges

  const HEADER_ENTRY_SIZE := 4
  const LEFT_MARGIN_INDEX := 1
  const MINIMUM_EMPTY_BLOB_SIZE := 32 + HEADER_ENTRY_SIZE

  datatype Layout = Layout(
    head: int, tail: int, right: int, capacity: int,
    live: Ranges,      // start and length, header included, of every live block
    free: Ranges,      // what the free list tracks
    leaked: set<int>)  // bytes that are neither live nor tracked

  function EmptyLayout(capacity: int): Layout {
    Layout(LEFT_MARGIN_INDEX, LEFT_MARGIN_INDEX, LEFT_MARGIN_INDEX, capacity, map[], map[], {})
  }

  ghost predicate Blocks(live: Ranges) {
    && (forall s | s in live :: HEADER_ENTRY_SIZE <= live[s])
    && (forall s, t | s in live && t in live && s < t :: s + live[s] <= t)
  }

  predicate Unwrapped(l: Layout) {
    l.head <= l.tail
  }

  ghost predicate Shape(l: Layout) {
    && 1 <= l.head && 1 <= l.tail && 0 <= l.capacity
    && if Unwrapped(l)
       then l.right == l.tail && (l.tail == 1 || (l.head < l.tail && l.tail <= l.capacity))
       else l.tail + MINIMUM_EMPTY_BLOB_SIZE <= l.head < l.right <= l.capacity
  }

  // The bytes between the margins.
  ghost function Region(l: Layout): set<int> {
    if Unwrapped(l) then Interval(l.head, l.tail) else Interval(l.head, l.right) + Interval(1, l.tail)
  }

  // Every byte in use is live, free or leaked, and only one of the three.
  ghost predicate Partition(l: Layout) {
    && Bytes(l.live) !! Bytes(l.free)
    && l.leaked !! Bytes(l.live)
    && l.leaked !! Bytes(l.free)
    && Region(l) == Bytes(l.live) + Bytes(l.free) + l.leaked
  }

  ghost predicate Sound(l: Layout) {
    Shape(l) && Separated(l.free) && Blocks(l.live) && Partition(l)
  }

  lemma EmptySound(l: Layout)
    requires l.head == l.tail == l.right == LEFT_MARGIN_INDEX && 0 <= l.capacity
    requires l.live == map[] && l.free == map[] && l.leaked == {}
    ensures Sound(l)
  {
    BytesCovered(l.live);
    hide Bytes;
    assert forall s, x :: !Covers(l.live, s, x);
    assert forall x :: x !in Bytes(l.live);
  }

  // Conservation: live, free and leaked bytes add up to the region.
  lemma Conservation(l: Layout)
    requires Sound(l)
    ensures |Bytes(l.live)| + |Bytes(l.free)| + |l.leaked| == |Region(l)|
    ensures Unwrapped(l) ==> |Region(l)| == l.tail - l.head
    ensures !Unwrapped(l) ==> |Region(l)| == (l.right - l.head) + (l.tail - 1)
  {
    hide Interval, Bytes;
    if !Unwrapped(l) {
      assert Interval(l.head, l.right) !! Interval(1, l.tail);
    }
  }

  lemma BytesPut(f: Ranges, s: int, n: int)
    requires s !in f
    ensures Bytes(f[s := n]) == Bytes(f) + Interval(s, s + n)
  {
    BytesCovered(f);
    BytesCovered(f[s := n]);
    hide Interval, Bytes;
    var g := f[s := n];
    forall x ensures x in Bytes(g) <==> x in Bytes(f) + Interval(s, s + n) {
      if t :| Covers(g, t, x) { assert t != s ==> Covers(f, t, x); }
      if t :| Covers(f, t, x) { assert Covers(g, t, x); }
      if s <= x < s + n { assert Covers(g, s, x); }
    }
  }

  lemma BytesDrop(live: Ranges, s: int)
    requires Blocks(live) && s in live
    ensures Bytes(live - {s}) == Bytes(live) - Interval(s, s + live[s])
    ensures Interval(s, s + live[s]) <= Bytes(live)
    ensures Blocks(live - {s})
  {
    BytesCovered(live);
    BytesCovered(live - {s});
    hide Interval, Bytes;
    var g := live - {s};
    forall x ensures x in Bytes(g) <==> x in Bytes(live) - Interval(s, s + live[s]) {
      if t :| Covers(g, t, x) { assert Covers(live, t, x); }
      if t :| Covers(live, t, x) { assert t != s ==> Covers(g, t, x); }
    }
    forall x | s <= x < s + live[s] ensures x in Bytes(live) { assert Covers(live, s, x); }
  }

  // New live bytes d extend the region and nothing else.
  lemma PartitionExtend(l: Layout, m: Layout, d: set<int>)
    requires Partition(l) && m.free == l.free && m.leaked == l.leaked
    requires Region(l) !! d && Region(m) == Region(l) + d && Bytes(m.live) == Bytes(l.live) + d
    ensures Partition(m)
  {
    hide Region, Bytes;
  }

  // Live bytes d leave the region and nothing else changes.
  lemma PartitionShrink(l: Layout, m: Layout, d: set<int>)
    requires Partition(l) && m.free == l.free && m.leaked == l.leaked
    requires d <= Bytes(l.live) && Region(m) == Region(l) - d && Bytes(m.live) == Bytes(l.live) - d
    ensures Partition(m)
  {
    hide Region, Bytes;
  }

  // Bytes d change hands from free to live.
  lemma PartitionTake(l: Layout, m: Layout, d: set<int>)
    requires Partition(l) && m.leaked == l.leaked && Region(m) == Region(l)
    requires d <= Bytes(l.free) && Bytes(m.free) == Bytes(l.free) - d && Bytes(m.live) == Bytes(l.live) + d
    ensures Partition(m)
  {
    hide Region, Bytes;
  }

  // Of the live bytes, d become free and c are lost; e go from free to leaked.
  lemma PartitionGive(l: Layout, m: Layout, d: set<int>, c: set<int>, e: set<int>)
    requires Partition(l) && Region(m) == Region(l) && d + c <= Bytes(l.live) && d !! c && e <= Bytes(l.free)
    requires Bytes(m.live) == Bytes(l.live) - (d + c) && Bytes(m.free) == Bytes(l.free) + d - e
    requires m.leaked == l.leaked + e + c
    ensures Partition(m)
  {
    hide Region, Bytes;
  }

  // A non-empty range all of whose bytes are in use lies in one piece of the
  // region.
  lemma InOnePiece(l: Layout, s: int, n: int)
    requires Shape(l) && 1 <= n && Interval(s, s + n) <= Region(l)
    ensures 1 <= s && s + n <= l.capacity
    ensures if Unwrapped(l) then l.head <= s && s + n <= l.tail
            else (l.head <= s && s + n <= l.right) || s + n <= l.tail
  {
    hide Interval, Bytes;
    assert s in Interval(s, s + n) && s + n - 1 in Interval(s, s + n);
    assert !Unwrapped(l) && s <= l.tail <= s + n - 1 ==> l.tail in Interval(s, s + n);
  }

  lemma LiveInOnePiece(l: Layout, s: int)
    requires Sound(l) && s in l.live
    ensures 1 <= s && s + l.live[s] <= l.capacity && HEADER_ENTRY_SIZE <= l.live[s]
    ensures if Unwrapped(l) then l.head <= s && s + l.live[s] <= l.tail
            else (l.head <= s && s + l.live[s] <= l.right) || s + l.live[s] <= l.tail
  {
    hide Interval, Bytes;
    BytesDrop(l.live, s);
    InOnePiece(l, s, l.live[s]);
  }

  lemma LiveInRegion(l: Layout)
    requires Partition(l)
    ensures Bytes(l.live) <= Region(l)
  {
    hide Region, Bytes;
  }

  lemma FreeInRegion(l: Layout, s: int)
    requires Sound(l) && s in l.free
    ensures 1 <= l.free[s]
    ensures Bytes(l.free) <= Region(l) && Bytes(l.free) !! Bytes(l.live)
  {
    hide Region, Bytes;
  }

  lemma LiveApartFromFree(l: Layout, s: int)
    requires Sound(l) && s in l.live
    ensures Bytes(l.free) !! Interval(s, s + l.live[s]) && Disjoint(l.free, s, l.live[s])
  {
    hide Region, Bytes, Interval, Disjoint, Separated;
    BytesDrop(l.live, s);
    LiveInOnePiece(l, s);
    FreeApart(l.free, s, l.live[s]);
  }

  // A range that shares no byte with the live blocks.
  lemma ApartFromLive(live: Ranges, s: int, n: int)
    requires Blocks(live) && 1 <= n && Bytes(live) !! Interval(s, s + n)
    ensures Disjoint(live, s, n)
  {
    BytesCovered(live);
    hide Interval, Bytes;
    forall t | t in live ensures t + live[t] <= s || s + n <= t {
      var x := if s < t then t else s;
      assert x < s + n ==> x in Interval(s, s + n);
      assert x < t + live[t] ==> Covers(live, t, x);
    }
  }

  lemma BlocksPut(live: Ranges, s: int, n: int)
    requires Blocks(live) && Disjoint(live, s, n) && HEADER_ENTRY_SIZE <= n
    ensures s !in live && Blocks(live[s := n])
  {
  }

  // ---- push at the tail ----

  ghost predicate Room(l: Layout, n: int) {
    n <= if Unwrapped(l) then l.capacity - l.tail else l.head - l.tail - MINIMUM_EMPTY_BLOB_SIZE
  }

  ghost function AtTail(l: Layout, n: int): Layout {
    l.(tail := l.tail + n, right := if l.tail + n > l.head then l.tail + n else l.right,
       live := l.live[l.tail := n])
  }

  lemma AtTailSound(l: Layout, n: int)
    requires Sound(l) && HEADER_ENTRY_SIZE <= n && Room(l, n)
    ensures Sound(AtTail(l, n))
    ensures Disjoint(l.live, l.tail, n) && l.tail !in l.live
  {
    hide Interval, Bytes, Blocks, Separated, Disjoint, Partition;
    var d := Interval(l.tail, l.tail + n);
    assert Region(l) !! d;
    LiveInRegion(l);
    ApartFromLive(l.live, l.tail, n);
    BlocksPut(l.live, l.tail, n);
    BytesPut(l.live, l.tail, n);
    assert Region(AtTail(l, n)) == Region(l) + d;
    PartitionExtend(l, AtTail(l, n), d);
  }

  // ---- wrap-around ----

  lemma WrapSound(l: Layout)
    requires Sound(l) && Unwrapped(l) && MINIMUM_EMPTY_BLOB_SIZE < l.head
    ensures Sound(l.(tail := LEFT_MARGIN_INDEX)) && !Unwrapped(l.(tail := LEFT_MARGIN_INDEX))
  {
    hide Interval, Bytes;
    assert Region(l.(tail := LEFT_MARGIN_INDEX)) == Region(l);
  }

  // ---- growth ----

  // In the wrapped state the gap between tail and head becomes a live block.
  ghost function Grown(l: Layout, capacity: int): Layout {
    if Unwrapped(l) then l.(capacity := capacity)
    else l.(capacity := capacity, head := LEFT_MARGIN_INDEX, tail := l.right,
            live := l.live[l.tail := l.head - l.tail])
  }

  lemma GrownSound(l: Layout, capacity: int)
    requires Sound(l) && l.capacity <= capacity
    ensures Sound(Grown(l, capacity)) && Unwrapped(Grown(l, capacity))
    ensures !Unwrapped(l) ==> Disjoint(l.live, l.tail, l.head - l.tail) && l.tail !in l.live
  {
    hide Interval, Bytes, Blocks, Separated, Disjoint, Partition, Region;
    LiveInRegion(l);
    GapFilled(l, capacity);
    if !Unwrapped(l) {
      var d := Interval(l.tail, l.head);
      ApartFromLive(l.live, l.tail, l.head - l.tail);
      BlocksPut(l.live, l.tail, l.head - l.tail);
      BytesPut(l.live, l.tail, l.head - l.tail);
      PartitionExtend(l, Grown(l, capacity), d);
    } else {
      PartitionExtend(l, Grown(l, capacity), {});
    }
  }

  lemma GapFilled(l: Layout, capacity: int)
    requires Shape(l)
    ensures Unwrapped(l) ==> Region(Grown(l, capacity)) == Region(l)
    ensures !Unwrapped(l) ==> Region(Grown(l, capacity)) == Region(l) + Interval(l.tail, l.head)
    ensures !Unwrapped(l) ==> Region(l) !! Interval(l.tail, l.head)
  {
    hide Interval;
  }

  // ---- reuse of a free range ----

  ghost function Reused(l: Layout, s: int, n: int): Layout
    requires s in l.free
  {
    l.(free := Taken(l.free, s, n), live := l.live[s := n])
  }

  lemma ReusedSound(l: Layout, s: int, n: int)
    requires Sound(l) && s in l.free && HEADER_ENTRY_SIZE <= n <= l.free[s]
    ensures Sound(Reused(l, s, n))
    ensures Disjoint(l.live, s, n) && s !in l.live && 1 <= s && s + n <= l.capacity
  {
    hide Interval, Bytes, Blocks, Disjoint, Taken, Partition, Separated;
    FreeInRegion(l, s);
    TakenBytes(l.free, s, n);
    TakenSeparated(l.free, s, n);
    InOnePiece(l, s, n);
    ApartFromLive(l.live, s, n);
    BlocksPut(l.live, s, n);
    BytesPut(l.live, s, n);
    PartitionTake(l, Reused(l, s, n), Interval(s, s + n));
  }

  // ---- deletion ----

  // The length that the 32-bit header of a block of n bytes announces.
  function Announced(n: int): (a: int)
    ensures HEADER_ENTRY_SIZE <= n ==> HEADER_ENTRY_SIZE <= a <= n
    ensures HEADER_ENTRY_SIZE <= n ==> (a == n <==> n - HEADER_ENTRY_SIZE < 0x1_0000_0000)
  {
    HEADER_ENTRY_SIZE + (n - HEADER_ENTRY_SIZE) % 0x1_0000_0000
  }

  // Only the announced front of a block is freed; the rest is never seen again.
  ghost function Deleted(l: Layout, s: int): Layout
    requires s in l.live
  {
    var n := Announced(l.live[s]);
    l.(live := l.live - {s}, free := Added(l.free, s, n),
       leaked := l.leaked + Dropped(l.free, s, n) + Interval(s + n, s + l.live[s]))
  }

  lemma DeletedSound(l: Layout, s: int)
    requires Sound(l) && s in l.live
    ensures HEADER_ENTRY_SIZE <= l.live[s] && Disjoint(l.free, s, Announced(l.live[s])) && 1 <= s
    ensures Sound(Deleted(l, s))
  {
    hide Interval, Bytes, Disjoint, Added, Separated, Partition, Dropped, Blocks;
    var n, m := Announced(l.live[s]), l.live[s];
    var d, c := Interval(s, s + n), Interval(s + n, s + m);
    LiveInOnePiece(l, s);
    BytesDrop(l.live, s);
    assert Interval(s, s + m) == d + c && d !! c;
    LiveApartFromFree(l, s);
    Narrower(l.free, s, n, m);
    AddedSeparated(l.free, s, n);
    AddedBytes(l.free, s, n);
    assert Region(Deleted(l, s)) == Region(l);
    PartitionGive(l, Deleted(l, s), d, c, Dropped(l.free, s, n));
  }

  // The announced bytes of a deleted block become free, except that those of a
  // free left neighbour leave the books when there is one on the right, too.
  lemma DeletedBytes(l: Layout, s: int)
    requires Sound(l) && s in l.live
    ensures var n := Announced(l.live[s]);
            Bytes(Deleted(l, s).free) == Bytes(l.free) + Interval(s, s + n) - Dropped(l.free, s, n)
  {
    hide Interval, Bytes, Disjoint, Added, Dropped, Sound;
    DeletedSound(l, s);
    SeparateFree(l);
    AddedBytes(l.free, s, Announced(l.live[s]));
  }

  lemma SeparateFree(l: Layout)
    requires Sound(l)
    ensures Separated(l.free)
  {
  }

  lemma Narrower(f: Ranges, s: int, n: int, m: int)
    requires Disjoint(f, s, m) && n <= m
    ensures Disjoint(f, s, n)
  {
  }

  lemma FreeApart(f: Ranges, s: int, n: int)
    requires Separated(f) && 1 <= n && Bytes(f) !! Interval(s, s + n)
    ensures Disjoint(f, s, n)
  {
    BytesCovered(f);
    hide Interval, Bytes;
    forall t | t in f ensures t + f[t] <= s || s + n <= t {
      var x := if s < t then t else s;
      assert x < s + n ==> x in Interval(s, s + n);
      assert x < t + f[t] ==> Covers(f, t, x);
    }
  }

  // ---- pop ----

  ghost function Popped(l: Layout): Layout
    requires l.head in l.live
  {
    var head := l.head + l.live[l.head];
    var m := l.(head := head, live := l.live - {l.head});
    if head != l.right then m
    else if l.tail == l.right then m.(head := LEFT_MARGIN_INDEX, tail := LEFT_MARGIN_INDEX, right := LEFT_MARGIN_INDEX)
    else m.(head := LEFT_MARGIN_INDEX, right := l.tail)
  }

  lemma PoppedSound(l: Layout)
    requires Sound(l) && l.head in l.live
    ensures Sound(Popped(l))
  {
    hide Interval, Bytes, Blocks, Separated, Partition;
    var d := Interval(l.head, l.head + l.live[l.head]);
    LiveInOnePiece(l, l.head);
    BytesDrop(l.live, l.head);
    assert Region(Popped(l)) == Region(l) - d;
    PartitionShrink(l, Popped(l), d);
  }

  // Without deletions the live blocks fill the region, so the oldest block
  // starts at head.
  lemma HeadIsLive(l: Layout)
    requires Sound(l) && l.free == map[] && l.leaked == {} && l.live.Keys != {}
    ensures l.head in l.live
  {
    hide Interval, Bytes, Blocks, Separated, Partition;
    var s :| s in l.live.Keys;
    LiveInOnePiece(l, s);
    AllLive(l);
    assert l.head in Region(l);
    var t := CoveredBy(l.live, l.head);
    LiveInOnePiece(l, t);
  }

  lemma AllLive(l: Layout)
    requires Partition(l) && l.free == map[] && l.leaked == {}
    ensures Region(l) == Bytes(l.live)
  {
    BytesCovered(l.free);
    hide Region, Bytes;
    assert forall s, x :: !Covers(l.free, s, x);
    assert forall x :: x !in Bytes(l.free);
  }

  lemma CoveredBy(f: Ranges, x: int) returns (s: int)
    requires x in Bytes(f)
    ensures Covers(f, s, x)
  {
    BytesCovered(f);
    s :| Covers(f, s, x);
  }

  // ---- space, as Push computes it ----

  function AvailableSpaceAfterTail(l: Layout): int {
    if l.tail >= l.head then l.capacity - l.tail
    else l.head - l.tail - MINIMUM_EMPTY_BLOB_SIZE
  }

  function AvailableSpaceBeforeHead(l: Layout): int {
    if l.tail >= l.head then l.head - LEFT_MARGIN_INDEX - MINIMUM_EMPTY_BLOB_SIZE
    else l.head - l.tail - MINIMUM_EMPTY_BLOB_SIZE
  }

  // The space behind the tail is exactly what a block there may take.
  lemma SpaceAfterTailExact(l: Layout, n: int)
    requires Sound(l) && HEADER_ENTRY_SIZE <= n
    ensures Sound(AtTail(l, n)) <==> n <= AvailableSpaceAfterTail(l)
  {
    hide Separated, Blocks, Partition;
    if n <= AvailableSpaceAfterTail(l) {
      AtTailSound(l, n);
    } else if Sound(AtTail(l, n)) {
      LiveInOnePiece(AtTail(l, n), l.tail);
    }
  }

  // A wrapped queue keeps 36 bytes free before its head: 32 and a header.
  lemma WrappedGap(l: Layout, n: int)
    requires Sound(l) && !Unwrapped(l) && HEADER_ENTRY_SIZE <= n
    ensures l.tail + 36 <= l.head
    ensures Sound(AtTail(l, n)) <==> l.tail + n + 36 <= l.head
  {
    SpaceAfterTailExact(l, n);
    hide Separated, Blocks, Partition, AtTail;
  }

  // Likewise the space before a head that has left the margin, for a block at
  // the margin.
  lemma SpaceBeforeHeadExact(l: Layout, n: int)
    requires Sound(l) && HEADER_ENTRY_SIZE <= n && Unwrapped(l) && LEFT_MARGIN_INDEX < l.head
    ensures Sound(AtTail(l.(tail := LEFT_MARGIN_INDEX), n)) <==> n <= AvailableSpaceBeforeHead(l)
  {
    hide Separated, Blocks, Partition;
    var m := l.(tail := LEFT_MARGIN_INDEX);
    if n <= AvailableSpaceBeforeHead(l) {
      WrapSound(l);
      AtTailSound(m, n);
    } else if Sound(AtTail(m, n)) {
      LiveInOnePiece(AtTail(m, n), LEFT_MARGIN_INDEX);
    }
  }

  // Some tracked range other than one of 4096 bytes holds n bytes.
  ghost predicate Fits(l: Layout, n: int) {
    exists s :: s in l.free && n <= l.free[s] && l.free[s] != 4096
  }

  // There is no room and the configured limit forbids growing.
  predicate LimitReached(l: Layout, n: int, maxCapacity: int) {
    MustGrow(l, n) && l.capacity + n >= maxCapacity && maxCapacity > 0
  }

  // Neither wrapping nor what lies behind the tail gives n bytes.
  predicate MustGrow(l: Layout, n: int) {
    AvailableSpaceAfterTail(l) < n && AvailableSpaceBeforeHead(l) < n
  }

  function NewCapacity(capacity: int, minimum: int, maxCapacity: int): int {
    var atLeast := if capacity < minimum then capacity + minimum else capacity;
    if atLeast * 2 > maxCapacity && maxCapacity > 0 then maxCapacity else atLeast * 2
  }

  // Where the block goes when no free range is reused.
  ghost function Prepared(l: Layout, n: int, maxCapacity: int): Layout {
    if AvailableSpaceAfterTail(l) >= n then l
    else if AvailableSpaceBeforeHead(l) >= n then l.(tail := LEFT_MARGIN_INDEX)
    else Grown(l, NewCapacity(l.capacity, n, maxCapacity))
  }

  // A block of n bytes fits at the left margin, before a head that has left it.
  ghost predicate FitsAtMargin(l: Layout, n: int) {
    Unwrapped(l) && LEFT_MARGIN_INDEX < l.head && Sound(AtTail(l.(tail := LEFT_MARGIN_INDEX), n))
  }

  // Growing is the last resort: no sound block of n bytes fits behind the tail
  // or at the left margin.
  lemma MustGrowExactly(l: Layout, n: int)
    requires Sound(l) && HEADER_ENTRY_SIZE <= n
    ensures MustGrow(l, n) <==> !Sound(AtTail(l, n)) && !FitsAtMargin(l, n)
  {
    SpaceAfterTailExact(l, n);
    if Unwrapped(l) && LEFT_MARGIN_INDEX < l.head {
      SpaceBeforeHeadExact(l, n);
    }
    hide Separated, Blocks, Partition, AtTail;
  }

  // A block is refused exactly when it fits nowhere and the limit is not more
  // than the capacity and the block together.
  lemma RefusedExactly(l: Layout, n: int, maxCapacity: int)
    requires Sound(l) && HEADER_ENTRY_SIZE <= n
    ensures LimitReached(l, n, maxCapacity) <==>
            !Sound(AtTail(l, n)) && !FitsAtMargin(l, n) && 0 < maxCapacity <= l.capacity + n
  {
    MustGrowExactly(l, n);
    hide Sound, FitsAtMargin, MustGrow;
  }

  // A block that is not refused goes behind the tail if it fits there, else to
  // the left margin if it fits there, else the array grows: to twice its size,
  // or twice itself and the block together if it is smaller than the block,
  // but not past the limit.
  lemma PlacedExactly(l: Layout, n: int, maxCapacity: int)
    requires Sound(l) && HEADER_ENTRY_SIZE <= n && !LimitReached(l, n, maxCapacity)
    ensures var p := Prepared(l, n, maxCapacity);
            if Sound(AtTail(l, n)) then p == l
            else if FitsAtMargin(l, n) then p == l.(tail := LEFT_MARGIN_INDEX)
            else
              var twice := 2 * (if l.capacity < n then l.capacity + n else l.capacity);
              && l.capacity < p.capacity == (if 0 < maxCapacity < twice then maxCapacity else twice)
              && p.tail == l.right
  {
    SpaceAfterTailExact(l, n);
    MustGrowExactly(l, n);
    hide Separated, Blocks, Partition, AtTail, FitsAtMargin;
  }

  // Under a limit the array never grows past it.
  lemma StaysWithinLimit(l: Layout, n: int, maxCapacity: int)
    requires l.capacity <= maxCapacity && 0 < maxCapacity
    ensures Prepared(l, n, maxCapacity).capacity <= maxCapacity
  {
  }

  // A block that is as long as the limit is always refused.
  lemma TooBig(l: Layout, n: int, maxCapacity: int)
    requires Sound(l) && 0 < maxCapacity && l.capacity <= maxCapacity <= n && HEADER_ENTRY_SIZE <= n
    ensures !Fits(l, n) && LimitReached(l, n, maxCapacity)
  {
    hide Separated, Blocks, Partition;
    if Fits(l, n) {
      var s :| s in l.free && n <= l.free[s] && l.free[s] != 4096;
      ReusedSound(l, s, n);
    }
  }

  // Growth always suffices: doubling, the minimum and the clip to the limit
  // together leave room for the whole block behind the tail.
  lemma PreparedSound(l: Layout, n: int, maxCapacity: int)
    requires Sound(l) && HEADER_ENTRY_SIZE <= n && !LimitReached(l, n, maxCapacity)
    ensures Sound(Prepared(l, n, maxCapacity)) && Room(Prepared(l, n, maxCapacity), n)
    ensures l.capacity <= Prepared(l, n, maxCapacity).capacity
    ensures Prepared(l, n, maxCapacity).tail + n <= Prepared(l, n, maxCapacity).capacity
  {
    hide Separated, Blocks, Partition;
    if AvailableSpaceAfterTail(l) < n {
      if AvailableSpaceBeforeHead(l) >= n {
        WrapSound(l);
      } else {
        GrownSound(l, NewCapacity(l.capacity, n, maxCapacity));
      }
    }
  }

  // ---- first in, first out ----

  // a lies before b on the way from head to tail.
  predicate Before(head: int, a: int, b: int) {
    if a >= head then b < head || a < b else b < head && a < b
  }

  // `order` lists the live blocks from head to tail.
  ghost predicate InOrder(l: Layout, order: seq<int>) {
    && (forall i | 0 <= i < |order| :: order[i] in l.live)
    && (forall s | s in l.live :: s in order)
    && (forall i, j | 0 <= i < j < |order| :: Before(l.head, order[i], order[j]))
  }

  // A pushed block comes last.
  lemma AtTailOrder(l: Layout, n: int, order: seq<int>)
    requires Sound(l) && HEADER_ENTRY_SIZE <= n && Room(l, n) && InOrder(l, order)
    ensures InOrder(AtTail(l, n), order + [l.tail])
  {
    hide Partition, Separated, Blocks;
    forall s | s in l.live ensures Before(l.head, s, l.tail) {
      LiveInOnePiece(l, s);
    }
  }

  lemma WrapOrder(l: Layout, order: seq<int>)
    requires InOrder(l, order)
    ensures InOrder(l.(tail := LEFT_MARGIN_INDEX), order)
  {
  }

  // The block at head comes first, and popping it leaves the others in order.
  lemma PoppedOrder(l: Layout, order: seq<int>)
    requires Sound(l) && InOrder(l, order) && l.head in l.live
    ensures |order| > 0 && order[0] == l.head
    ensures InOrder(Popped(l), order[1..])
  {
    hide Partition, Separated, Blocks;
    var j :| 0 <= j < |order| && order[j] == l.head;
    assert j > 0 ==> Before(l.head, order[0], order[j]);
    forall s | s in l.live && s != l.head ensures s in order[1..] {
    }
    forall i | 0 <= i < |order| - 1 ensures order[1..][i] in l.live - {l.head} {
      assert Before(l.head, order[0], order[i + 1]);
    }
    forall i, j | 0 <= i < j < |order| - 1 ensures Before(Popped(l).head, order[1..][i], order[1..][j]) {
      assert order[1..][i] == order[i + 1] && order[1..][j] == order[j + 1];
      assert Before(l.head, order[0], order[i + 1]) && Before(l.head, order[0], order[j + 1]);
      PoppedPair(l, order[i + 1], order[j + 1]);
    }
  }

  lemma PoppedPair(l: Layout, a: int, b: int)
    requires Sound(l) && l.head in l.live && a in l.live && b in l.live && a != l.head && b != l.head
    requires Before(l.head, a, b)
    ensures Before(Popped(l).head, a, b)
  {
    hide Partition, Separated;
    LiveInOnePiece(l, a);
    LiveInOnePiece(l, b);
    LiveInOnePiece(l, l.head);
  }

  // How many blocks lie on the right of head.
  function CountRight(head: int, order: seq<int>): (k: int)
    ensures 0 <= k <= |order|
  {
    if order == [] || order[0] < head then 0 else 1 + CountRight(head, order[1..])
  }

  lemma {:induction false} CountRightSplits(head: int, order: seq<int>)
    requires forall i, j | 0 <= i < j < |order| :: Before(head, order[i], order[j])
    ensures forall i | 0 <= i < |order| :: order[i] >= head <==> i < CountRight(head, order)
  {
    if order != [] && order[0] >= head {
      CountRightSplits(head, order[1..]);
      forall i | 0 < i < |order| ensures order[i] >= head <==> i < CountRight(head, order) {
        assert order[i] == order[1..][i - 1];
      }
    }
  }

  // Growth in the wrapped state turns the queue round: the blocks that had
  // wrapped, then the empty blob, then the older blocks.
  function Turned(l: Layout, order: seq<int>): seq<int> {
    var k := CountRight(l.head, order);
    order[k..] + [l.tail] + order[..k]
  }

  lemma GrownOrder(l: Layout, capacity: int, order: seq<int>)
    requires Sound(l) && InOrder(l, order)
    ensures InOrder(Grown(l, capacity), if Unwrapped(l) then order else Turned(l, order))
  {
    hide Partition, Separated, Blocks, Before, Turned;
    if Unwrapped(l) {
      return;
    }
    var t := Turned(l, order);
    TurnedMembers(l, order);
    forall s | s in order ensures 1 <= s && (s < l.tail || l.head <= s) {
      LiveInOnePiece(l, s);
    }
    forall i, j | 0 <= i < j < |t| ensures Before(LEFT_MARGIN_INDEX, t[i], t[j]) {
      TurnedPair(l, order, i, j);
    }
    forall i | 0 <= i < |t| ensures t[i] in Grown(l, capacity).live {
      assert t[i] in t;
    }
  }

  lemma TurnedMembers(l: Layout, order: seq<int>)
    ensures forall s :: s in Turned(l, order) <==> s in order || s == l.tail
  {
    var k := CountRight(l.head, order);
    assert order == order[..k] + order[k..];
    forall s | s in order ensures s in order[..k] || s in order[k..] {
    }
  }

  lemma TurnedPair(l: Layout, order: seq<int>, i: int, j: int)
    requires Shape(l) && !Unwrapped(l) && 0 <= i < j < |Turned(l, order)|
    requires forall i, j | 0 <= i < j < |order| :: Before(l.head, order[i], order[j])
    requires forall s | s in order :: 1 <= s && (s < l.tail || l.head <= s)
    ensures Before(LEFT_MARGIN_INDEX, Turned(l, order)[i], Turned(l, order)[j])
  {
    var k, t := CountRight(l.head, order), Turned(l, order);
    CountRightSplits(l.head, order);
    hide CountRight;
    var m := |order| - k;
    if j < m {
      assert t[i] == order[k + i] && t[j] == order[k + j] && order[k + i] in order;
      assert Before(l.head, order[k + i], order[k + j]);
    } else if m < i {
      assert t[i] == order[i - m - 1] && t[j] == order[j - m - 1];
      assert Before(l.head, order[i - m - 1], order[j - m - 1]);
    } else {
      assert i < m ==> t[i] == order[k + i] && order[k + i] in order;
      assert j > m ==> t[j] == order[j - m - 1] && order[j - m - 1] in order;
    }
  }

  // A wrapped queue without free bytes has a block at its head.
  lemma WrappedHead(l: Layout)
    requires Sound(l) && !Unwrapped(l) && l.free == map[] && l.leaked == {}
    ensures l.head in l.live
  {
    hide Bytes, Interval, Partition, Blocks, Separated;
    AllLive(l);
    assert l.head in Region(l);
    var t := CoveredBy(l.live, l.head);
    HasKey(l.live, t);
    HeadIsLive(l);
  }

  lemma HasKey(f: Ranges, t: int)
    requires t in f
    ensures f.Keys != {}
  {
    assert t in f.Keys;
  }

  // Growing a wrapped queue always takes the front place away from its oldest
  // block.
  lemma GrownLosesFront(l: Layout, order: seq<int>)
    requires Sound(l) && !Unwrapped(l) && InOrder(l, order)
    requires l.free == map[] && l.leaked == {}
    ensures order != [] && order[0] == l.head
    ensures Turned(l, order)[0] != order[0]
  {
    hide Sound, InOrder;
    WrappedHead(l);
    PoppedOrder(l, order);
    OrderOf(l, order);
    CountRightSplits(l.head, order);
    TurnedFront(l, order);
  }

  lemma OrderOf(l: Layout, order: seq<int>)
    requires Sound(l) && InOrder(l, order) && !Unwrapped(l)
    ensures forall i, j | 0 <= i < j < |order| :: Before(l.head, order[i], order[j])
    ensures l.tail < l.head
  {
  }

  lemma TurnedFront(l: Layout, order: seq<int>)
    requires order != [] && order[0] == l.head && l.tail < l.head
    requires forall i | 0 <= i < |order| :: order[i] >= l.head <==> i < CountRight(l.head, order)
    ensures Turned(l, order)[0] != order[0]
  {
    var k := CountRight(l.head, order);
    hide CountRight;
    assert Turned(l, order)[0] == if k < |order| then order[k] else l.tail;
  }

  // The blocks from head to tail once n bytes have been made room for, or
  // refused.
  function SettledOrder(l: Layout, order: seq<int>, n: int, maxCapacity: int): seq<int> {
    if MustGrow(l, n) && !LimitReached(l, n, maxCapacity) && !Unwrapped(l) then Turned(l, order) else order
  }

  // Arrival order survives exactly when the queue is not wrapped, need not
  // grow, or may not.
  lemma KeepsArrivalOrder(l: Layout, order: seq<int>, n: int, maxCapacity: int)
    requires Sound(l) && InOrder(l, order) && l.free == map[] && l.leaked == {}
    ensures SettledOrder(l, order, n, maxCapacity) == order <==>
            Unwrapped(l) || !MustGrow(l, n) || LimitReached(l, n, maxCapacity)
  {
    hide Sound, InOrder, Turned, MustGrow;
    if !Unwrapped(l) {
      GrownLosesFront(l, order);
    }
  }

  lemma PreparedInOrder(l: Layout, order: seq<int>, n: int, maxCapacity: int)
    requires Sound(l) && InOrder(l, order) && !LimitReached(l, n, maxCapacity)
    ensures InOrder(Prepared(l, n, maxCapacity), SettledOrder(l, order, n, maxCapacity))
  {
    hide Sound, InOrder, Turned, NewCapacity, Grown;
    GrownOrder(l, NewCapacity(l.capacity, n, maxCapacity), order);
    WrapOrder(l, order);
  }

  // Making room frees and leaks nothing, and lives on the old blocks plus, in
  // a wrapped queue that grows, one that fills the gap.
  lemma PreparedParts(l: Layout, n: int, maxCapacity: int)
    ensures var p := Prepared(l, n, maxCapacity);
            && p.free == l.free && p.leaked == l.leaked
            && p.live == if MustGrow(l, n) && !Unwrapped(l) then l.live[l.tail := l.head - l.tail] else l.live
  {
    hide NewCapacity;
  }
}
