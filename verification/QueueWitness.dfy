// Inputs on which the queue and its free list do less than they seem to
// promise.
module QueueWitness {
  import opened FreeRanges
  import opened FreeLists
  import opened Layouts
  import opened Memory
  import opened BytesQueues
  import opened CacheQueue
  import opened Results

  // A free range of 4096 bytes is never found, whatever is asked for.
  method NeverFound(size: int) returns (r: int)
    requires 1 <= size
    ensures r == -1
  {
    hide FreeList.Valid;
    var list := new FreeList();
    list.Add(1, 4096);
    assert list.free == map[1 := 4096] by { AddedAlone(1, 4096); }
    r := list.Find(size);
  }

  lemma AddedAlone(index: int, size: int)
    ensures Added(map[], index, size) == map[index := size]
  {
  }

  // An empty payload pushed into the last bytes of the array is accepted and
  // can be neither read nor deleted.
  method EmptyAtTheEnd() returns (pushed: Result<int>, unread: Option<Error>, undeleted: Option<Error>)
    ensures pushed == Ok(1) && unread == undeleted == Some(IndexOutOfRange)
  {
    hide BytesQueue.Valid, BytesQueue.Payloads, BytesQueue.Fifo, InOrder, Sound;
    var q := new BytesQueue(5, 0);
    pushed := q.Push([]);
    assert q.View() == AtTail(EmptyLayout(5), 4);
    QueueOwns(q);
    LiveKeys(q);
    q.LiveIndex(1);
    var got := q.Get(1);
    unread := if got.Err? then Some(got.error) else None;
    var r := q.Delete(1);
    undeleted := if r.Err? then Some(r.error) else None;
  }

  // Three neighbouring blocks of a, b and c bytes.
  ghost function Three(a: int, b: int, c: int): Layout {
    Layout(1, 1 + a + b + c, 1 + a + b + c, 2 + a + b + c, map[1 := a, 1 + a := b, 1 + a + b := c], map[], {})
  }

  ghost function SecondAndThird(a: int, b: int, c: int): Layout {
    Three(a, b, c).(live := map[1 + a := b, 1 + a + b := c], free := map[1 := a])
  }

  ghost function Second(a: int, b: int, c: int): Layout {
    Three(a, b, c).(live := map[1 + a := b], free := map[1 := a, 1 + a + b := c])
  }

  ghost function Leaked(a: int, b: int, c: int): Layout {
    Three(a, b, c).(live := map[], free := map[1 + a := b + c], leaked := Interval(1, 1 + a))
  }

  ghost predicate Sizes(a: int, b: int, c: int) {
    4 <= a < 0x1_0000_0000 && 4 <= b < 0x1_0000_0000 && 4 <= c < 0x1_0000_0000
  }

  // A block whose header tells its length is freed whole.
  lemma FreedWhole(l: Layout, s: int)
    requires s in l.live && HEADER_ENTRY_SIZE <= l.live[s] < 0x1_0000_0000
    ensures Deleted(l, s) == l.(live := l.live - {s}, free := Added(l.free, s, l.live[s]),
                                leaked := l.leaked + Dropped(l.free, s, l.live[s]))
  {
    hide Added, Dropped;
    assert Interval(s + l.live[s], s + l.live[s]) == {};
  }

  lemma FirstFreed(a: int, b: int, c: int)
    requires Sizes(a, b, c)
    ensures Deleted(Three(a, b, c), 1) == SecondAndThird(a, b, c)
  {
    FreedWhole(Three(a, b, c), 1);
    AddedAlone(1, a);
    assert Dropped(map[], 1, a) == {};
    assert Three(a, b, c).live - {1} == map[1 + a := b, 1 + a + b := c];
  }

  lemma NoNeighbour(s: int, n: int, index: int, size: int)
    requires 0 <= n && s + n < index && 1 <= size
    ensures Added(map[s := n], index, size) == map[s := n, index := size] && Dropped(map[s := n], index, size) == {}
  {
    assert !HasLeft(map[s := n], index);
  }

  lemma ThirdFreed(a: int, b: int, c: int)
    requires Sizes(a, b, c)
    ensures Deleted(SecondAndThird(a, b, c), 1 + a + b) == Second(a, b, c)
  {
    hide Added, Dropped, HasLeft;
    FreedWhole(SecondAndThird(a, b, c), 1 + a + b);
    NoNeighbour(1, a, 1 + a + b, c);
    assert SecondAndThird(a, b, c).live - {1 + a + b} == map[1 + a := b];
  }

  lemma BothNeighbours(a: int, b: int, c: int)
    requires Sizes(a, b, c)
    ensures var f := map[1 := a, 1 + a + b := c];
            Added(f, 1 + a, b) == map[1 + a := b + c] && Dropped(f, 1 + a, b) == Interval(1, 1 + a)
  {
    var f := map[1 := a, 1 + a + b := c];
    assert IsLeft(f, 1 + a, 1);
    assert LeftOf(f, 1 + a) == 1;
    assert (f - {1} - {1 + a + b})[1 + a := b + c] == map[1 + a := b + c];
  }

  lemma SecondFreed(a: int, b: int, c: int)
    requires Sizes(a, b, c)
    ensures Deleted(Second(a, b, c), 1 + a) == Leaked(a, b, c)
  {
    hide Added, Dropped, HasLeft, Interval;
    FreedWhole(Second(a, b, c), 1 + a);
    BothNeighbours(a, b, c);
    assert Second(a, b, c).live - {1 + a} == map[];
  }

  // Pushed as first, second and third and deleted as first, third and second:
  // nothing is live any more, and the bytes of the first block are on no list.
  method TwoSidedLeak(first: seq<byte>, second: seq<byte>, third: seq<byte>) returns (q: BytesQueue)
    requires |first| < 0x1000_0000 && |second| < 0x1000_0000 && |third| < 0x1000_0000
    ensures q.Valid() && q.count == 0
    ensures q.View() == Leaked(4 + |first|, 4 + |second|, 4 + |third|)
  {
    hide BytesQueue.Valid, BytesQueue.Payloads, BytesQueue.Fifo, Deleted, Sound, Interval;
    var a, b, c := 4 + |first|, 4 + |second|, 4 + |third|;
    q := ThreePushed(first, second, third);
    DeleteWhole(q, 1);
    FirstFreed(a, b, c);
    DeleteWhole(q, 1 + a + b);
    ThirdFreed(a, b, c);
    DeleteWhole(q, 1 + a);
    SecondFreed(a, b, c);
    LiveKeys(q);
    CountOf(q);
    assert q.Payloads() == map[];
  }

  method ThreePushed(first: seq<byte>, second: seq<byte>, third: seq<byte>) returns (q: BytesQueue)
    ensures q.Valid() && fresh(q.Repr) && q.View() == Three(4 + |first|, 4 + |second|, 4 + |third|)
  {
    hide BytesQueue.Valid, BytesQueue.Payloads, BytesQueue.Fifo, InOrder, Sound, SettledOrder, RoomyContents;
    var a, b, c := 4 + |first|, 4 + |second|, 4 + |third|;
    q := new BytesQueue(2 + a + b + c, 0);
    var r := q.Push(first);
    assert q.View() == EmptyLayout(2 + a + b + c).(tail := 1 + a, right := 1 + a, live := map[1 := a]);
    r := q.Push(second);
    assert q.View() ==
           EmptyLayout(2 + a + b + c).(tail := 1 + a + b, right := 1 + a + b, live := map[1 := a, 1 + a := b]);
    r := q.Push(third);
  }

  // A deletion that is not refused.
  method DeleteWhole(q: BytesQueue, index: int)
    requires q.Valid() && index in q.live && index + HEADER_ENTRY_SIZE < q.capacity
    modifies q.Repr
    ensures q.Valid() && old(q.Repr) <= q.Repr && fresh(q.Repr - old(q.Repr))
    ensures q.View() == Deleted(old(q.View()), index)
  {
    hide BytesQueue.Valid, BytesQueue.Payloads, Deleted;
    QueueOwns(q);
    q.LiveIndex(index);
    var _ := q.Delete(index);
  }
}
