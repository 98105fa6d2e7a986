// bigcache/queue/bytes_queue.go: a growable byte array that hands out the
// index of every pushed entry. Entries are freed one by one (Delete) through
// the free list, or from the front (Pop).
module BytesQueues {
  import opened FreeRanges
  import opened FreeLists
  import opened Layouts
  import opened Memory
  import opened Results
  import LE = LittleEndian

  // A Go slice: a window into an array that is shared with its owner.
  datatype Slice = Slice(buf: array<byte>, lo: int, hi: int)

  ghost predicate InBounds(s: Slice) {
    0 <= s.lo <= s.hi <= s.buf.Length
  }

  class BytesQueue {
    var buf: array<byte>
    var capacity: int
    const maxCapacity: int
    var head: int
    var tail: int
    var count: int
    var rightMargin: int
    const freelist: FreeList
    ghost var live: Ranges      // start and length of every live block
    ghost var leaked: set<int>  // bytes dropped by a two-sided merge
    ghost var order: seq<int>   // live blocks from head to tail
    ghost var Repr: set<object>

    ghost function View(): Layout
      reads this, freelist
    {
      Layout(head, tail, rightMargin, capacity, live, freelist.free, leaked)
    }

    ghost predicate Owned()
      reads this, Repr
    {
      && {this, buf, freelist} <= Repr
      && freelist.Repr <= Repr
      && this !in freelist.Repr && buf !in freelist.Repr
      && freelist.Valid()
    }

    ghost predicate Valid()
      reads this, Repr
      ensures Valid() ==> this in Repr
    {
      && Owned()
      && buf.Length == capacity
      && count == |live|
      && Sound(View())
      && Stored(buf[..], live)
    }

    // What every index that is still live reads.
    ghost function Payloads(): map<int, seq<byte>>
      reads this, Repr
      requires Valid()
    {
      Contents(buf[..], live)
    }

    // Only Push and Pop so far: nothing freed, blocks in arrival order.
    ghost predicate Fifo()
      reads this, Repr
      requires Valid()
    {
      freelist.free == map[] && leaked == {} && InOrder(View(), order)
    }

    constructor (initialCapacity: nat, maxCapacity: int)
      ensures Valid() && fresh(Repr) && Fifo()
      ensures Payloads() == map[] && order == [] && this.maxCapacity == maxCapacity
      ensures View() == EmptyLayout(initialCapacity)
    {
      hide Sound, FreeList.Valid;
      buf := new byte[initialCapacity](_ => 0);
      capacity := initialCapacity;
      this.maxCapacity := maxCapacity;
      tail, head, rightMargin := LEFT_MARGIN_INDEX, LEFT_MARGIN_INDEX, LEFT_MARGIN_INDEX;
      count := 0;
      var list := new FreeList();
      freelist := list;
      live, leaked, order := map[], {}, [];
      new;
      Repr := {this, buf, freelist} + freelist.Repr;
      EmptySound(View());
    }

    // Just resets indexes; the free list keeps what it tracks, so the queue is
    // sound afterwards exactly when nothing was free.
    method Reset()
      requires Valid()
      modifies this
      ensures head == tail == rightMargin == LEFT_MARGIN_INDEX && count == 0 && live == map[]
      ensures capacity == old(capacity) && buf == old(buf) && freelist.free == old(freelist.free)
      ensures Valid() <==> old(freelist.free) == map[]
    {
      hide FreeList.Valid, Stored, Sound, Separated;
      SeparatedOf(View());
      NothingStored(buf[..], buf[..], map[]);
      tail := LEFT_MARGIN_INDEX;
      head := LEFT_MARGIN_INDEX;
      rightMargin := LEFT_MARGIN_INDEX;
      count := 0;
      live, leaked, order := map[], {}, [];
      ResetSound(View());
    }

    // copy() of Go: writes as much of d as there is room for.
    method Copy(d: seq<byte>)
      requires 0 <= tail <= buf.Length
      modifies this`tail, buf
      ensures var n := if |d| <= buf.Length - old(tail) then |d| else buf.Length - old(tail);
              tail == old(tail) + n && buf[..] == Written(old(buf[..]), old(tail), d[..n])
    {
      var n := if |d| <= buf.Length - tail then |d| else buf.Length - tail;
      forall i | 0 <= i < n {
        buf[tail + i] := d[i];
      }
      tail := tail + n;
    }

    // Header and payload at the tail.
    method CopyBlock(data: seq<byte>)
      requires 0 <= tail && tail + HEADER_ENTRY_SIZE + |data| <= buf.Length
      modifies this`tail, buf
      ensures tail == old(tail) + HEADER_ENTRY_SIZE + |data|
      ensures buf[..] == Written(old(buf[..]), old(tail), Block(data))
    {
      var headerBuffer := LE.Put(|data|, HEADER_ENTRY_SIZE);
      hide Written, LE.Put;
      ghost var mem := buf[..];
      WrittenTwice(mem, tail, headerBuffer, data);
      Copy(headerBuffer);
      assert headerBuffer[..HEADER_ENTRY_SIZE] == headerBuffer;
      Copy(data);
      assert data[..|data|] == data;
    }

    // push() of the source: a block at the tail, whatever the layout.
    method AppendBlock(data: seq<byte>)
      requires 0 <= tail && tail + HEADER_ENTRY_SIZE + |data| <= buf.Length
      modifies this`tail, this`rightMargin, this`count, buf
      ensures tail == old(tail) + HEADER_ENTRY_SIZE + |data|
      ensures buf[..] == Written(old(buf[..]), old(tail), Block(data))
      ensures rightMargin == if tail > head then tail else old(rightMargin)
      ensures count == old(count) + 1
    {
      hide Written, Block;
      CopyBlock(data);
      if tail > head {
        rightMargin := tail;
      }
      count := count + 1;
    }

    // A push that has room behind the tail.
    method PushAtTail(data: seq<byte>)
      requires Valid() && Room(View(), HEADER_ENTRY_SIZE + |data|)
      requires tail + HEADER_ENTRY_SIZE + |data| <= capacity
      modifies this, buf
      ensures Valid() && Repr == old(Repr) && buf == old(buf)
      ensures old(tail) !in old(live)
      ensures View() == AtTail(old(View()), HEADER_ENTRY_SIZE + |data|)
      ensures Payloads() == old(Payloads())[old(tail) := data]
      ensures old(Fifo()) ==> Fifo() && order == old(order) + [old(tail)]
    {
      hide Written, Block, Sound, Stored, Contents, InOrder, LE.Put, FreeList.Valid, Room;
      ghost var l, n := View(), HEADER_ENTRY_SIZE + |data|;
      AtTailSound(l, n);
      ShapeOf(l);
      WriteBlock(buf[..], live, tail, data);
      if Fifo() {
        AtTailOrder(l, n, order);
      }
      AppendBlock(data);
      order := order + [l.tail];
      live := live[l.tail := n];
      assert View() == AtTail(l, n);
    }

    // A push into the front of the free range at idx.
    method PushIntoFree(idx: int, data: seq<byte>, ghost l: Layout)
      requires Sound(l) && idx in l.free && HEADER_ENTRY_SIZE + |data| <= l.free[idx]
      requires Owned() && buf.Length == capacity && count == |live| && Stored(buf[..], live)
      requires View() == l.(free := Taken(l.free, idx, HEADER_ENTRY_SIZE + |data|))
      modifies this, buf
      ensures Valid() && Repr == old(Repr) && buf == old(buf)
      ensures idx !in l.live
      ensures View() == Reused(l, idx, HEADER_ENTRY_SIZE + |data|)
      ensures Payloads() == old(Contents(buf[..], live))[idx := data]
    {
      hide Written, Block, Sound, Stored, Contents, LE.Put, FreeList.Valid, Taken;
      ReusedSound(l, idx, HEADER_ENTRY_SIZE + |data|);
      WriteBlock(buf[..], live, idx, data);
      var tmpTail := tail;
      tail := idx;
      CopyBlock(data);
      count := count + 1;
      tail := tmpTail;
      live := live[idx := HEADER_ENTRY_SIZE + |data|];
      assert View() == Reused(l, idx, HEADER_ENTRY_SIZE + |data|);
    }

    // A fresh array of the new capacity with everything below the right
    // margin copied over.
    method Reallocate()
      requires Owned() && Stored(buf[..], live) && buf.Length <= capacity
      requires 0 <= rightMargin
      requires rightMargin <= buf.Length || rightMargin == LEFT_MARGIN_INDEX
      requires rightMargin == LEFT_MARGIN_INDEX ==> live == map[]
      requires forall s | s in live :: s + live[s] <= rightMargin
      modifies this`buf, this`Repr
      ensures Owned() && fresh(buf) && buf.Length == capacity && Repr == old(Repr) + {buf}
      ensures Stored(buf[..], live) && Contents(buf[..], live) == old(Contents(buf[..], live))
    {
      hide Contents, LE.Put, FreeList.Valid;
      var oldArray := buf;
      ghost var mem := buf[..];
      buf := new byte[capacity](_ => 0);
      Repr := Repr + {buf};
      if LEFT_MARGIN_INDEX != rightMargin {
        hide Stored;
        forall i | 0 <= i < rightMargin {
          buf[i] := oldArray[i];
        }
        assert buf[..rightMargin] == mem[..rightMargin];
        Reallocated(mem, live, rightMargin, buf[..]);
      } else {
        NothingStored(mem, buf[..], live);
      }
    }

    // Fills the gap between tail and head with an empty blob and moves the
    // head back to the left margin.
    method FillGap(ghost l: Layout)
      requires Sound(l) && !Unwrapped(l) && l.capacity <= capacity
      requires Owned() && buf.Length == capacity && count == |live| && Stored(buf[..], live)
      requires View() == l.(capacity := capacity)
      modifies this, buf
      ensures Valid() && Repr == old(Repr) && buf == old(buf)
      ensures View() == Grown(l, capacity) && l.tail !in l.live
      ensures Payloads() == old(Contents(buf[..], live))[l.tail := Zeros(l.head - l.tail - HEADER_ENTRY_SIZE)]
      ensures order == Turned(l, old(order))
    {
      hide Written, Block, Sound, Stored, Contents, LE.Put, FreeList.Valid, Turned, Zeros;
      GrownSound(l, capacity);
      ShapeOf(l);
      var emptyBlobLen := head - tail - HEADER_ENTRY_SIZE;
      WriteBlock(buf[..], live, tail, Zeros(emptyBlobLen));
      AppendBlock(Zeros(emptyBlobLen));
      head := LEFT_MARGIN_INDEX;
      tail := rightMargin;
      order := Turned(l, order);
      live := live[l.tail := l.head - l.tail];
      assert View() == Grown(l, capacity);
    }

    method RaiseCapacity(minimum: int)
      modifies this`capacity
      ensures capacity == NewCapacity(old(capacity), minimum, maxCapacity)
    {
      if capacity < minimum {
        capacity := capacity + minimum;
      }
      capacity := capacity * 2;
      if capacity > maxCapacity && maxCapacity > 0 {
        capacity := maxCapacity;
      }
    }

    // Grows the array. In the wrapped state the gap between tail and head
    // becomes an empty blob, so that every index stays where it is.
    method AllocateAdditionalMemory(minimum: int)
      requires Valid() && HEADER_ENTRY_SIZE <= minimum
      requires maxCapacity > 0 ==> capacity + minimum < maxCapacity
      modifies this, buf
      ensures Valid() && old(Repr) <= Repr && fresh(Repr - old(Repr))
      ensures View() == Grown(old(View()), NewCapacity(old(capacity), minimum, maxCapacity))
      ensures !old(Unwrapped(View())) ==> old(tail) !in old(live)
      ensures Payloads() == if old(Unwrapped(View())) then old(Payloads())
                            else old(Payloads())[old(tail) := Zeros(old(head) - old(tail) - HEADER_ENTRY_SIZE)]
      ensures old(Fifo()) ==>
                Fifo() && order == if old(Unwrapped(View())) then old(order) else Turned(old(View()), old(order))
    {
      hide Sound, Stored, Contents, InOrder, LE.Put, FreeList.Valid, Turned, Zeros;
      ghost var l := View();
      ghost var larger := NewCapacity(capacity, minimum, maxCapacity);
      BelowRightMargin(l);
      assert capacity <= larger;
      hide NewCapacity;
      GrownSound(l, larger);
      if Fifo() {
        GrownOrder(l, larger, order);
      }
      RaiseCapacity(minimum);
      Reallocate();
      if tail < head {
        FillGap(l);
      }
      assert View() == Grown(l, larger);
    }

    function SpaceAfterTail(): (space: int)
      reads this, freelist
      ensures space == AvailableSpaceAfterTail(View())
    {
      if tail >= head then capacity - tail else head - tail - MINIMUM_EMPTY_BLOB_SIZE
    }

    function SpaceBeforeHead(): (space: int)
      reads this, freelist
      ensures space == AvailableSpaceBeforeHead(View())
    {
      if tail >= head then head - LEFT_MARGIN_INDEX - MINIMUM_EMPTY_BLOB_SIZE
      else head - tail - MINIMUM_EMPTY_BLOB_SIZE
    }

    // Wraps or grows until n bytes fit behind the tail; false when the
    // capacity limit forbids it.
    method MakeRoom(n: int) returns (ok: bool)
      requires Valid() && HEADER_ENTRY_SIZE <= n
      modifies this, buf
      ensures Valid() && old(Repr) <= Repr && fresh(Repr - old(Repr))
      ensures ok <==> !LimitReached(old(View()), n, maxCapacity)
      ensures maxCapacity <= 0 || old(capacity) + n < maxCapacity ==> ok
      ensures !ok ==> View() == old(View()) && Payloads() == old(Payloads()) && order == old(order)
      ensures ok ==> View() == Prepared(old(View()), n, maxCapacity)
                     && Payloads() == RoomyContents(old(View()), old(Payloads()), n)
      ensures ok ==> Room(View(), n) && tail + n <= capacity && old(live).Keys <= live.Keys
      ensures old(Fifo()) ==> Fifo() && order == SettledOrder(old(View()), old(order), n, maxCapacity)
    {
      hide Sound, Stored, Contents, InOrder, LE.Put, FreeList.Valid, Turned, Zeros, Room, NewCapacity;
      ghost var l := View();
      if !LimitReached(l, n, maxCapacity) {
        PreparedSound(l, n, maxCapacity);
      }
      if SpaceAfterTail() < n {
        if SpaceBeforeHead() >= n {
          if Fifo() {
            WrapOrder(l, order);
          }
          tail := LEFT_MARGIN_INDEX;
        } else if capacity + n >= maxCapacity && maxCapacity > 0 {
          return false;
        } else {
          AllocateAdditionalMemory(n);
        }
      }
      return true;
    }

    // Stores an entry and returns its index.
    method Push(data: seq<byte>) returns (r: Result<int>)
      requires Valid()
      modifies Repr
      ensures Valid() && old(Repr) <= Repr && fresh(Repr - old(Repr))
      ensures var n := HEADER_ENTRY_SIZE + |data|; var l := old(View());
              && (r.Err? <==> !Fits(l, n) && LimitReached(l, n, maxCapacity))
              && (r.Err? ==>
                    r.error == QueueFull && View() == l && Payloads() == old(Payloads()) && order == old(order))
              && (r.Ok? ==> r.value !in l.live)
              && (r.Ok? && Fits(l, n) ==>
                    && r.value in l.free && View() == Reused(l, r.value, n)
                    && Payloads() == old(Payloads())[r.value := data])
              && (r.Ok? && !Fits(l, n) ==>
                    && r.value == Prepared(l, n, maxCapacity).tail
                    && View() == AtTail(Prepared(l, n, maxCapacity), n)
                    && Payloads() == RoomyContents(l, old(Payloads()), n)[r.value := data])
              && (old(Fifo()) ==>
                    && Fifo()
                    && order == SettledOrder(l, old(order), n, maxCapacity) + if r.Ok? then [r.value] else [])
      // Only a limit that capacity and block together reach refuses a block.
      ensures maxCapacity <= 0 || old(capacity) + HEADER_ENTRY_SIZE + |data| < maxCapacity ==> r.Ok?
      // The array grows exactly for a block that fits nowhere, to twice its
      // size, the block included if it is the larger, but not past the limit.
      ensures var n := HEADER_ENTRY_SIZE + |data|; var l := old(View());
              capacity == old(capacity) <==> r.Err? || Fits(l, n) || Sound(AtTail(l, n)) || FitsAtMargin(l, n)
      ensures capacity != old(capacity) ==>
                var n := HEADER_ENTRY_SIZE + |data|;
                var twice := 2 * (if old(capacity) < n then old(capacity) + n else old(capacity));
                old(capacity) < capacity == if 0 < maxCapacity < twice then maxCapacity else twice
    {
      hide Sound, Stored, Contents, InOrder, LE.Put, FreeList.Valid, Turned, Zeros, Room, Prepared,
           LimitReached, Taken, Separated, MustGrow, SettledOrder, RoomyContents, FitsAtMargin;
      ghost var l := View();
      RefusedExactly(l, HEADER_ENTRY_SIZE + |data|, maxCapacity);
      if !LimitReached(l, HEADER_ENTRY_SIZE + |data|, maxCapacity) {
        PlacedExactly(l, HEADER_ENTRY_SIZE + |data|, maxCapacity);
      }
      var idx := freelist.Find(HEADER_ENTRY_SIZE + |data|);
      Repr := Repr + freelist.Repr;
      assert buf[..] == old(buf[..]);
      if -1 != idx {
        PushIntoFree(idx, data, l);
        return Ok(idx);
      }
      assert View() == l && !Fits(l, HEADER_ENTRY_SIZE + |data|);
      var ok := MakeRoom(HEADER_ENTRY_SIZE + |data|);
      if !ok {
        return Err(QueueFull);
      }
      var index := tail;
      PushAtTail(data);
      return Ok(index);
    }

    // Why a read at `index` is refused, if it is.
    function Refusal(index: int): (e: Option<Error>)
      reads this
    {
      if count == 0 then Some(EmptyQueue)
      else if index <= 0 then Some(InvalidIndex)
      else if index + HEADER_ENTRY_SIZE >= buf.Length then Some(IndexOutOfRange)
      else None
    }

    // The announced payload must lie inside the array: Go panics otherwise.
    ghost predicate Readable(index: int)
      reads this, buf
    {
      Refusal(index) == None ==> index + HEADER_ENTRY_SIZE + SizeOr0(buf[..], index) <= buf.Length
    }

    method Peek(index: int) returns (r: Result<Slice>)
      requires Readable(index)
      ensures match Refusal(index)
              case Some(e) => r == Err(e)
              case None => r == Ok(Slice(buf, index + HEADER_ENTRY_SIZE,
                                         index + HEADER_ENTRY_SIZE + SizeOr0(buf[..], index)))
      ensures count == 0 ==> r == Err(EmptyQueue)
      ensures count != 0 && index <= 0 ==> r == Err(InvalidIndex)
      ensures count != 0 && 0 < index ==> (r == Err(IndexOutOfRange) <==> buf.Length <= index + HEADER_ENTRY_SIZE)
    {
      if count == 0 {
        return Err(EmptyQueue);
      }
      if index <= 0 {
        return Err(InvalidIndex);
      }
      if index + HEADER_ENTRY_SIZE >= buf.Length {
        return Err(IndexOutOfRange);
      }
      var blockSize := LE.Get(buf[index..index + HEADER_ENTRY_SIZE]);
      assert buf[index..index + HEADER_ENTRY_SIZE] == buf[..][index..index + HEADER_ENTRY_SIZE];
      return Ok(Slice(buf, index + HEADER_ENTRY_SIZE, index + HEADER_ENTRY_SIZE + blockSize));
    }

    // A live index is refused only when it holds an empty payload at the very
    // end of the array; otherwise it reads the payload that was pushed, up to
    // the 32 bits its length is stored in.
    lemma LiveIndex(index: int)
      requires Valid() && index in live
      ensures index in Payloads() && Readable(index)
      ensures live[index] == HEADER_ENTRY_SIZE + |Payloads()[index]|
      ensures Refusal(index) == None <==> index + HEADER_ENTRY_SIZE < buf.Length
      ensures Refusal(index) != None ==> Payloads()[index] == [] && Refusal(index) == Some(IndexOutOfRange)
      ensures Refusal(index) == None ==> ReadsAs(buf[..], index, Low32(Payloads()[index]))
    {
      hide Stored, Contents, FreeList.Valid, Low32, SizeOr0, Sound;
      LiveInOnePiece(View(), index);
      LiveReads(buf[..], live, index);
      assert live == (live - {index})[index := live[index]];
    }

    // Reads at an index: what was pushed there while it is live, and what lies
    // there otherwise.
    method Get(index: int) returns (r: Result<Slice>)
      requires Valid() && Readable(index)
      ensures r.Err? <==> Refusal(index) != None
      ensures r.Err? ==> r.error == Refusal(index).value
      ensures r.Ok? ==> r.value.buf == buf && InBounds(r.value) && r.value.lo == index + HEADER_ENTRY_SIZE
                        && r.value.hi == r.value.lo + SizeOr0(buf[..], index)
      ensures r.Ok? && index in live ==> buf[r.value.lo..r.value.hi] == Low32(Payloads()[index])
    {
      hide Stored, Contents, SizeOr0, FreeList.Valid, Sound, Low32;
      if index in live {
        LiveIndex(index);
      }
      r := Peek(index);
      if r.Ok? {
        assert buf[r.value.lo..r.value.hi] == buf[..][r.value.lo..r.value.hi];
      }
    }

    // Frees the block at an index, as far as its header announces it.
    method Delete(index: int) returns (r: Result<()>)
      requires Valid()
      requires index in live || Refusal(index) != None
      modifies this, freelist
      ensures Valid() && old(Repr) <= Repr && fresh(Repr - old(Repr))
      ensures buf == old(buf) && buf[..] == old(buf[..])
      ensures r.Err? <==> old(Refusal(index)) != None
      ensures r.Err? ==> r.error == old(Refusal(index)).value && View() == old(View())
      ensures r.Ok? ==> index in old(live) && View() == Deleted(old(View()), index)
      ensures Payloads() == if r.Ok? then old(Payloads()) - {index} else old(Payloads())
    {
      hide Stored, Contents, SizeOr0, FreeList.Valid, Sound, Deleted;
      if index in live {
        LiveIndex(index);
      }
      var p := Peek(index);
      if p.Err? {
        return Err(p.error);
      }
      FreeBlock(index, p.value.hi - p.value.lo);
      return Ok(());
    }

    method FreeBlock(index: int, size: int)
      requires Valid() && index in live && HEADER_ENTRY_SIZE + size == Announced(live[index])
      modifies this, freelist
      ensures Valid() && old(Repr) <= Repr && fresh(Repr - old(Repr))
      ensures buf == old(buf) && buf[..] == old(buf[..])
      ensures View() == Deleted(old(View()), index) && Payloads() == old(Payloads()) - {index}
    {
      hide Stored, Contents, FreeList.Valid, Sound, Added, Dropped, Disjoint, Announced;
      DeletedSound(View(), index);
      ContentsDrop(buf[..], live, index);
      freelist.Add(index, size + HEADER_ENTRY_SIZE);
      count := count - 1;
      leaked := leaked + Dropped(old(freelist.free), index, size + HEADER_ENTRY_SIZE)
                + Interval(index + size + HEADER_ENTRY_SIZE, index + live[index]);
      live := live - {index};
      Repr := Repr + freelist.Repr;
      assert buf[..] == old(buf[..]);
      assert View() == Deleted(old(View()), index);
    }

    // Takes the entry at the head. In FIFO use that is the oldest one.
    method Pop() returns (r: Result<Slice>)
      requires Valid() && (count == 0 || Fifo() || head in live)
      requires head in live ==> Announced(live[head]) == live[head]
      modifies this
      ensures Valid() && Repr == old(Repr) && buf == old(buf)
      ensures r.Err? <==> old(Refusal(head)) != None
      ensures r.Err? ==> r.error == old(Refusal(head)).value && View() == old(View()) && order == old(order)
      ensures r.Ok? ==> old(head) in old(live) && View() == Popped(old(View()))
                        && r.value.buf == buf && InBounds(r.value)
                        && buf[r.value.lo..r.value.hi] == old(Payloads())[old(head)]
      ensures Payloads() == if r.Ok? then old(Payloads()) - {old(head)} else old(Payloads())
      ensures r.Ok? && old(Fifo()) ==>
                old(order) != [] && old(order)[0] == old(head) && Fifo() && order == old(order)[1..]
    {
      hide Stored, Contents, SizeOr0, FreeList.Valid, Sound, InOrder, Low32;
      if count != 0 && Fifo() {
        HeadIsLive(View());
      }
      if head in live {
        LiveIndex(head);
      }
      var p := Peek(head);
      if p.Err? {
        return Err(p.error);
      }
      assert buf[p.value.lo..p.value.hi] == buf[..][p.value.lo..p.value.hi] == Payloads()[head];
      var size := p.value.hi - p.value.lo;
      AdvanceHead(size);
      return Ok(p.value);
    }

    // Moves the head past a block, and back to the left margin at the end.
    method MoveHead(size: int)
      modifies this`head, this`tail, this`rightMargin
      ensures var next := old(head) + HEADER_ENTRY_SIZE + size;
              if next != old(rightMargin) then head == next && tail == old(tail) && rightMargin == old(rightMargin)
              else head == LEFT_MARGIN_INDEX && rightMargin == tail
                   && tail == if old(tail) == old(rightMargin) then LEFT_MARGIN_INDEX else old(tail)
    {
      head := head + HEADER_ENTRY_SIZE + size;
      if head == rightMargin {
        head := LEFT_MARGIN_INDEX;
        if tail == rightMargin {
          tail := LEFT_MARGIN_INDEX;
        }
        rightMargin := tail;
      }
    }

    method AdvanceHead(size: int)
      requires Valid() && head in live && live[head] == HEADER_ENTRY_SIZE + size
      modifies this
      ensures Valid() && Repr == old(Repr) && buf == old(buf)
      ensures View() == Popped(old(View()))
      ensures Payloads() == old(Payloads()) - {old(head)}
      ensures old(Fifo()) ==>
                old(order) != [] && old(order)[0] == old(head) && Fifo() && order == old(order)[1..]
    {
      hide Stored, Contents, FreeList.Valid, Sound, InOrder;
      PoppedSound(View());
      ContentsDrop(buf[..], live, head);
      if Fifo() {
        PoppedOrder(View(), order);
      }
      live := live - {head};
      order := if order == [] then [] else order[1..];
      MoveHead(size);
      count := count - 1;
      assert View() == Popped(old(View()));
    }
  }

  lemma BelowRightMargin(l: Layout)
    requires Sound(l)
    ensures 0 <= l.capacity && 1 <= l.right && (l.right <= l.capacity || l.right == LEFT_MARGIN_INDEX)
    ensures forall s | s in l.live :: s + l.live[s] <= l.right
    ensures l.right == LEFT_MARGIN_INDEX ==> l.live == map[] && Unwrapped(l)
  {
    forall s | s in l.live ensures s + l.live[s] <= l.right && l.right != LEFT_MARGIN_INDEX {
      LiveInOnePiece(l, s);
    }
  }

  lemma NothingStored(mem: seq<byte>, after: seq<byte>, live: Ranges)
    requires live == map[]
    ensures Stored(mem, live) && Stored(after, live) && Contents(after, live) == Contents(mem, live)
  {
  }

  lemma ShapeOf(l: Layout)
    requires Sound(l)
    ensures Shape(l)
  {
  }

  lemma SeparatedOf(l: Layout)
    requires Sound(l)
    ensures Separated(l.free) && 0 <= l.capacity
  {
  }

  // With nothing live and the indexes at the left margin, a tracked range
  // would lie outside the region.
  lemma ResetSound(l: Layout)
    requires l.head == l.tail == l.right == LEFT_MARGIN_INDEX && 0 <= l.capacity
    requires l.live == map[] && l.leaked == {} && Separated(l.free)
    ensures Sound(l) <==> l.free == map[]
  {
    if s :| s in l.free.Keys {
      BytesCovered(l.free);
      hide Bytes, Interval;
      assert Covers(l.free, s, s) && s !in Region(l);
    } else {
      assert forall s :: s !in l.free.Keys;
      EmptySound(l);
    }
  }
}
