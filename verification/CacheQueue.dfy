// The byte queue as the cache uses it: Push, Get and Delete but never Pop, so
// that the head stays at the left margin and the queue never wraps.
module CacheQueue {
  import opened FreeRanges
  import opened Layouts
  import opened BytesQueues
  import opened Memory
  import opened Results

  lemma SoundOf(q: BytesQueue)
    requires q.Valid()
    ensures Sound(q.View())
  {
  }

  lemma QueueOwns(q: BytesQueue)
    requires q.Valid()
    ensures {q, q.buf, q.freelist} <= q.Repr && q.capacity == q.buf.Length
  {
  }

  lemma LiveKeys(q: BytesQueue)
    requires q.Valid()
    ensures q.Payloads().Keys == q.live.Keys
  {
  }

  lemma CountOf(q: BytesQueue)
    requires q.Valid()
    ensures q.count == |q.Payloads()|
  {
    assert q.Payloads().Keys == q.live.Keys;
    assert |q.Payloads().Keys| == |q.Payloads()| && |q.live.Keys| == |q.live|;
  }

  // Room for n bytes: in a free range, behind the tail, or by growing.
  ghost predicate CanHold(l: Layout, n: int, maxCapacity: int) {
    Fits(l, n) || !LimitReached(l, n, maxCapacity)
  }

  // With the head at the left margin the queue is not wrapped and never will
  // be, and every index it hands out is at most its tail.
  lemma CacheUse(l: Layout, n: int, maxCapacity: int)
    requires Sound(l) && l.head == LEFT_MARGIN_INDEX && HEADER_ENTRY_SIZE <= n
    ensures Unwrapped(l)
    ensures Prepared(l, n, maxCapacity).tail == l.tail
    ensures AtTail(Prepared(l, n, maxCapacity), n).head == LEFT_MARGIN_INDEX
    ensures AtTail(Prepared(l, n, maxCapacity), n).tail == l.tail + n
    ensures forall s | s in l.free ::
              0 < s <= l.tail && Reused(l, s, n).head == LEFT_MARGIN_INDEX && Reused(l, s, n).tail == l.tail
  {
    hide Bytes, Partition, Interval, Separated, Blocks, Taken, NewCapacity;
    forall s | s in l.free ensures 0 < s <= l.tail {
      FreeInRegion(l, s);
      BytesCovered(l.free);
      assert Covers(l.free, s, s);
      assert s in Region(l);
    }
  }

  lemma PushedCapacity(l: Layout, n: int, maxCapacity: int)
    ensures 0 < maxCapacity && l.capacity <= maxCapacity ==>
              AtTail(Prepared(l, n, maxCapacity), n).capacity <= maxCapacity
    ensures forall s | s in l.free :: Reused(l, s, n).capacity == l.capacity
  {
    if 0 < maxCapacity && l.capacity <= maxCapacity {
      StaysWithinLimit(l, n, maxCapacity);
    }
  }

  // One push, in a queue that has never been popped.
  method PushOne(q: BytesQueue, data: seq<byte>) returns (r: Result<int>)
    requires q.Valid() && q.head == LEFT_MARGIN_INDEX
    modifies q.Repr
    ensures q.Valid() && old(q.Repr) <= q.Repr && fresh(q.Repr - old(q.Repr))
    ensures q.head == LEFT_MARGIN_INDEX
    ensures r.Ok? <==> CanHold(old(q.View()), HEADER_ENTRY_SIZE + |data|, q.maxCapacity)
    ensures r.Ok? ==> 0 < r.value <= old(q.tail) && r.value !in old(q.Payloads())
    ensures r.Ok? ==> q.Payloads() == old(q.Payloads())[r.value := data]
    ensures r.Err? ==> q.Payloads() == old(q.Payloads()) && q.View() == old(q.View())
    ensures 0 < q.maxCapacity && old(q.capacity) <= q.maxCapacity ==> q.capacity <= q.maxCapacity
  {
    hide BytesQueue.Valid, BytesQueue.Payloads, BytesQueue.Fifo, Reused, Fits, LimitReached, Prepared, AtTail,
         MustGrow, Sound, SettledOrder;
    SoundOf(q);
    LiveKeys(q);
    CacheUse(q.View(), HEADER_ENTRY_SIZE + |data|, q.maxCapacity);
    PushedCapacity(q.View(), HEADER_ENTRY_SIZE + |data|, q.maxCapacity);
    r := q.Push(data);
  }

  // One deletion. It is refused only for an empty payload whose header ends
  // the array.
  method DeleteOne(q: BytesQueue, i: int) returns (ok: bool)
    requires q.Valid() && q.head == LEFT_MARGIN_INDEX && i in q.Payloads()
    modifies q, q.freelist
    ensures q.Valid() && old(q.Repr) <= q.Repr && fresh(q.Repr - old(q.Repr))
    ensures q.head == LEFT_MARGIN_INDEX
    ensures !ok ==> old(q.Payloads())[i] == []
    ensures q.Payloads() == if ok then old(q.Payloads()) - {i} else old(q.Payloads())
  {
    LiveKeys(q);
    hide BytesQueue.Valid, BytesQueue.Payloads;
    q.LiveIndex(i);
    var r := q.Delete(i);
    ok := r.Ok?;
  }

  // One read. It gives back the payload as far as its 32-bit header tells its
  // length, and is refused only for an empty payload whose header ends the
  // array.
  method ReadOne(q: BytesQueue, i: int) returns (r: Result<seq<byte>>)
    requires q.Valid() && i in q.Payloads()
    ensures r.Ok? ==> r.value == Low32(q.Payloads()[i])
    ensures r.Err? ==> r.error == IndexOutOfRange && q.Payloads()[i] == []
  {
    LiveKeys(q);
    hide BytesQueue.Valid, BytesQueue.Payloads, Low32;
    q.LiveIndex(i);
    var got := q.Get(i);
    r := if got.Ok? then Ok(got.value.buf[got.value.lo..got.value.hi]) else Err(got.error);
  }
}
