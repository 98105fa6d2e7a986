// Whole runs of the byte queue under Push and Pop.
module FifoRun {
  import opened Layouts
  import opened Memory
  import opened BytesQueues
  import opened CacheQueue
  import opened Results
  import opened FifoSpec

  ghost function QueueOf(q: BytesQueue): Queue
    reads q, q.Repr
    requires q.Valid()
  {
    Queue(q.View(), q.order, q.Payloads())
  }

  // Whether Pop will be refused.
  lemma PopRefusal(q: BytesQueue)
    requires q.Valid() && q.Fifo()
    ensures q.Refusal(q.head) == None <==> CanPop(q.View())
    ensures CanPop(q.View()) ==> q.head in q.Payloads() && q.order != []
    ensures q.count != 0 ==> q.head in q.live
  {
    hide BytesQueue.Valid, BytesQueue.Payloads, Sound, InOrder;
    QueueOwns(q);
    SoundOf(q);
    LiveKeys(q);
    CountOf(q);
    if q.count != 0 {
      assert q.Payloads().Keys != {} by { assert |q.Payloads().Keys| == |q.Payloads()|; }
      HeadIsLive(q.View());
    } else {
      assert q.live.Keys == {} by { assert |q.Payloads().Keys| == |q.Payloads()|; }
    }
    if q.head in q.live {
      q.LiveIndex(q.head);
      PoppedOrder(q.View(), q.order);
    }
  }

  // One operation on the object is one step of the specification.
  method Perform(q: BytesQueue, op: FifoOp) returns (outcome: Outcome)
    requires q.Valid() && q.Fifo()
    requires op.Pop? && q.head in q.live ==> Announced(q.live[q.head]) == q.live[q.head]
    modifies q.Repr
    ensures q.Valid() && q.Fifo() && old(q.Repr) <= q.Repr && fresh(q.Repr - old(q.Repr))
    ensures (QueueOf(q), outcome) == Step(old(QueueOf(q)), op, q.maxCapacity)
  {
    hide BytesQueue.Valid, BytesQueue.Payloads, Prepared, AtTail, LimitReached, MustGrow, Popped, InOrder,
         SettledOrder, RoomyContents, Announced;
    QueueOwns(q);
    if op.Push? {
      assert !Fits(q.View(), BlockSize(op.data));
      var r := q.Push(op.data);
      outcome := if r.Ok? then Accepted(r.value) else Full;
    } else {
      PopRefusal(q);
      var index := q.head;
      var r := q.Pop();
      outcome := if r.Ok? then Served(index, r.value.buf[r.value.lo..r.value.hi]) else Denied;
    }
  }

  // Any operations at all, on a queue of any capacity and limit, go as the
  // specification says. The run stops only before a pop whose block is longer
  // than its 32-bit header can tell.
  method RunFifo(ops: seq<FifoOp>, capacity: nat, maxCapacity: int)
    returns (q: BytesQueue, done: nat, outcomes: seq<Outcome>)
    ensures q.Valid() && q.Fifo() && done <= |ops|
    ensures QueueOf(q) == State(capacity, maxCapacity, ops[..done])
    ensures outcomes == Outcomes(capacity, maxCapacity, ops[..done])
    ensures done < |ops| ==> ops[done].Pop? && q.head in q.live && Announced(q.live[q.head]) < q.live[q.head]
  {
    hide BytesQueue.Valid, BytesQueue.Payloads, BytesQueue.Fifo, Step, Announced;
    q := new BytesQueue(capacity, maxCapacity);
    done, outcomes := 0, [];
    var lengths: map<int, int> := map[];
    while done < |ops|
      invariant q.Valid() && q.Fifo() && fresh(q.Repr) && q.maxCapacity == maxCapacity
      invariant 0 <= done <= |ops| && lengths == q.live
      invariant QueueOf(q) == State(capacity, maxCapacity, ops[..done])
      invariant outcomes == Outcomes(capacity, maxCapacity, ops[..done])
    {
      var op := ops[done];
      assert ops[..done + 1][..done] == ops[..done];
      if op.Pop? && q.head in lengths && lengths[q.head] - HEADER_ENTRY_SIZE >= 0x1_0000_0000 {
        LongBlock(q);
        return;
      }
      ShortBlock(q);
      LengthsAfter(q, op);
      var head, tail := q.head, q.tail;
      var grows := op.Push? && q.tail < q.head && q.SpaceAfterTail() < BlockSize(op.data);
      var outcome := Perform(q, op);
      if outcome.Accepted? {
        if grows {
          lengths := lengths[tail := head - tail];
        }
        lengths := lengths[outcome.index := BlockSize(op.data)];
      } else if outcome.Served? {
        lengths := lengths - {head};
      }
      outcomes := outcomes + [outcome];
      done := done + 1;
    }
  }

  lemma LongBlock(q: BytesQueue)
    requires q.Valid() && q.head in q.live && q.live[q.head] - HEADER_ENTRY_SIZE >= 0x1_0000_0000
    ensures Announced(q.live[q.head]) < q.live[q.head]
  {
  }

  lemma ShortBlock(q: BytesQueue)
    requires q.Valid()
    ensures q.head in q.live && q.live[q.head] - HEADER_ENTRY_SIZE < 0x1_0000_0000 ==>
              Announced(q.live[q.head]) == q.live[q.head]
  {
    SoundOf(q);
    hide BytesQueue.Valid;
    if q.head in q.live {
      LiveInOnePiece(q.View(), q.head);
    }
  }

  // Which blocks are live after a step, computed from head and tail.
  lemma LengthsAfter(q: BytesQueue, op: FifoOp)
    requires q.Valid()
    ensures var (after, outcome) := Step(QueueOf(q), op, q.maxCapacity);
            var grows := op.Push? && q.tail < q.head && q.SpaceAfterTail() < BlockSize(op.data);
            after.l.live ==
              match outcome
              case Accepted(i) =>
                (if grows then q.live[q.tail := q.head - q.tail] else q.live)[i := BlockSize(op.data)]
              case Served(i, _) => q.live - {q.head}
              case _ => q.live
    ensures var outcome := Step(QueueOf(q), op, q.maxCapacity).1; outcome.Accepted? ==> op.Push?
  {
    hide BytesQueue.Valid, BytesQueue.Payloads;
    if op.Push? {
      PreparedParts(q.View(), BlockSize(op.data), q.maxCapacity);
    }
  }
}
