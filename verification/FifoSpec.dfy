// The byte queue under Push and Pop as a value: where the blocks lie, in which
// order, and what they hold. Nothing is ever freed, so every step is a
// function.
module FifoSpec {
  import opened FreeRanges
  import opened Layouts
  import opened Memory

  datatype FifoOp = Push(data: seq<byte>) | Pop

  datatype Queue = Queue(l: Layout, order: seq<int>, payloads: map<int, seq<byte>>)

  // What an operation answers.
  datatype Outcome = Accepted(index: int) | Full | Served(index: int, data: seq<byte>) | Denied

  function BlockSize(data: seq<byte>): int {
    HEADER_ENTRY_SIZE + |data|
  }

  // Pop finds a block at the head and its header does not end the array.
  predicate CanPop(l: Layout) {
    l.head in l.live && l.head + HEADER_ENTRY_SIZE < l.capacity
  }

  ghost function Step(q: Queue, op: FifoOp, maxCapacity: int): (Queue, Outcome) {
    match op
    case Push(data) =>
      var n := BlockSize(data);
      if LimitReached(q.l, n, maxCapacity) then (q, Full)
      else
        var roomy := Prepared(q.l, n, maxCapacity);
        (Queue(AtTail(roomy, n), SettledOrder(q.l, q.order, n, maxCapacity) + [roomy.tail],
               RoomyContents(q.l, q.payloads, n)[roomy.tail := data]),
         Accepted(roomy.tail))
    case Pop =>
      if CanPop(q.l) && q.l.head in q.payloads && q.order != []
      then (Queue(Popped(q.l), q.order[1..], q.payloads - {q.l.head}), Served(q.l.head, q.payloads[q.l.head]))
      else (q, Denied)
  }

  function Start(capacity: nat): Queue {
    Queue(EmptyLayout(capacity), [], map[])
  }

  ghost function State(capacity: nat, maxCapacity: int, ops: seq<FifoOp>): Queue {
    if ops == [] then Start(capacity)
    else Step(State(capacity, maxCapacity, ops[..|ops| - 1]), ops[|ops| - 1], maxCapacity).0
  }

  ghost function Outcomes(capacity: nat, maxCapacity: int, ops: seq<FifoOp>): (r: seq<Outcome>)
    ensures |r| == |ops|
  {
    if ops == [] then []
    else
      var n := |ops| - 1;
      Outcomes(capacity, maxCapacity, ops[..n]) + [Step(State(capacity, maxCapacity, ops[..n]), ops[n], maxCapacity).1]
  }

  // ---- the invariant ----

  ghost predicate Sized(live: Ranges, payloads: map<int, seq<byte>>) {
    payloads.Keys == live.Keys && forall s | s in live :: live[s] == BlockSize(payloads[s])
  }

  ghost predicate Good(q: Queue) {
    && Sound(q.l) && q.l.free == map[] && q.l.leaked == {}
    && InOrder(q.l, q.order) && Sized(q.l.live, q.payloads)
  }

  lemma StartGood(capacity: nat)
    ensures Good(Start(capacity))
  {
    EmptySound(EmptyLayout(capacity));
  }

  // Making room keeps the queue good and gives every block its place.
  lemma RoomyGood(q: Queue, n: int, maxCapacity: int)
    requires Good(q) && HEADER_ENTRY_SIZE <= n && !LimitReached(q.l, n, maxCapacity)
    ensures Good(Queue(Prepared(q.l, n, maxCapacity), SettledOrder(q.l, q.order, n, maxCapacity),
                       RoomyContents(q.l, q.payloads, n)))
    ensures Room(Prepared(q.l, n, maxCapacity), n)
    ensures MustGrow(q.l, n) && !Unwrapped(q.l) ==> q.l.tail !in q.payloads
  {
    hide Sound, InOrder, Prepared, SettledOrder, RoomyContents, Room, Sized, LimitReached, MustGrow;
    PreparedSound(q.l, n, maxCapacity);
    PreparedInOrder(q.l, q.order, n, maxCapacity);
    PreparedParts(q.l, n, maxCapacity);
    RoomySized(q, n, maxCapacity);
  }

  lemma RoomySized(q: Queue, n: int, maxCapacity: int)
    requires Sound(q.l) && Sized(q.l.live, q.payloads)
    ensures Sized(Prepared(q.l, n, maxCapacity).live, RoomyContents(q.l, q.payloads, n))
    ensures MustGrow(q.l, n) && !Unwrapped(q.l) ==> q.l.tail !in q.payloads
  {
    hide Sound, Prepared, MustGrow;
    PreparedParts(q.l, n, maxCapacity);
    GapSize(q.l);
    GrownSound(q.l, q.l.capacity);
  }

  lemma GapSize(l: Layout)
    requires Sound(l)
    ensures !Unwrapped(l) ==> MINIMUM_EMPTY_BLOB_SIZE <= l.head - l.tail
  {
  }

  lemma StepGood(q: Queue, op: FifoOp, maxCapacity: int)
    requires Good(q)
    ensures Good(Step(q, op, maxCapacity).0)
  {
    match op
    case Push(data) => PushGood(q, data, maxCapacity);
    case Pop => PopGood(q, maxCapacity);
  }

  lemma PushGood(q: Queue, data: seq<byte>, maxCapacity: int)
    requires Good(q)
    ensures Good(Step(q, Push(data), maxCapacity).0)
    ensures !LimitReached(q.l, BlockSize(data), maxCapacity) ==>
              Prepared(q.l, BlockSize(data), maxCapacity).tail !in RoomyContents(q.l, q.payloads, BlockSize(data))
  {
    hide Sound, InOrder, Prepared, SettledOrder, RoomyContents, Room, LimitReached;
    var n := BlockSize(data);
    if !LimitReached(q.l, n, maxCapacity) {
      RoomyGood(q, n, maxCapacity);
      var roomy := Prepared(q.l, n, maxCapacity);
      AtTailSound(roomy, n);
      AtTailOrder(roomy, n, SettledOrder(q.l, q.order, n, maxCapacity));
    }
  }

  lemma PopGood(q: Queue, maxCapacity: int)
    requires Good(q)
    ensures Good(Step(q, Pop, maxCapacity).0)
    ensures CanPop(q.l) ==> q.l.head in q.payloads && q.order != [] && q.order[0] == q.l.head
  {
    hide Sound, InOrder;
    if CanPop(q.l) {
      PoppedSound(q.l);
      PoppedOrder(q.l, q.order);
      PoppedParts(q.l);
    }
  }

  lemma PoppedParts(l: Layout)
    requires l.head in l.live
    ensures Popped(l).live == l.live - {l.head} && Popped(l).free == l.free && Popped(l).leaked == l.leaked
  {
  }

  lemma {:induction false} StateGood(capacity: nat, maxCapacity: int, ops: seq<FifoOp>)
    ensures Good(State(capacity, maxCapacity, ops))
  {
    hide Good, Step;
    if ops == [] {
      StartGood(capacity);
    } else {
      StateGood(capacity, maxCapacity, ops[..|ops| - 1]);
      StepGood(State(capacity, maxCapacity, ops[..|ops| - 1]), ops[|ops| - 1], maxCapacity);
    }
  }

  // ---- what was handed out stays readable ----

  // The indexes that pushes returned and pops have not served, with the data
  // pushed there.
  ghost function Held(ops: seq<FifoOp>, outcomes: seq<Outcome>): map<int, seq<byte>>
    requires |ops| == |outcomes|
  {
    if ops == [] then map[]
    else
      var n := |ops| - 1;
      var before := Held(ops[..n], outcomes[..n]);
      match (ops[n], outcomes[n])
      case (Push(data), Accepted(i)) => before[i := data]
      case (Pop, Served(i, _)) => before - {i}
      case _ => before
  }

  // The filling of a gap: at least 32 zero bytes.
  ghost predicate IsBlob(p: seq<byte>) {
    32 <= |p| && p == Zeros(|p|)
  }

  // Held indexes read their data, and everything else is filling.
  ghost predicate Holds(payloads: map<int, seq<byte>>, held: map<int, seq<byte>>) {
    && (forall i | i in held :: i in payloads && payloads[i] == held[i])
    && (forall i | i in payloads && i !in held :: IsBlob(payloads[i]))
  }

  ghost function HeldAfter(capacity: nat, maxCapacity: int, ops: seq<FifoOp>): map<int, seq<byte>> {
    Held(ops, Outcomes(capacity, maxCapacity, ops))
  }

  lemma HeldStep(capacity: nat, maxCapacity: int, ops: seq<FifoOp>)
    requires ops != []
    ensures var n := |ops| - 1; var before := HeldAfter(capacity, maxCapacity, ops[..n]);
            var outcome := Step(State(capacity, maxCapacity, ops[..n]), ops[n], maxCapacity).1;
            HeldAfter(capacity, maxCapacity, ops) ==
              match (ops[n], outcome)
              case (Push(data), Accepted(i)) => before[i := data]
              case (Pop, Served(i, _)) => before - {i}
              case _ => before
  {
    hide Step, State;
    var n := |ops| - 1;
    var outcomes := Outcomes(capacity, maxCapacity, ops);
    assert outcomes[..n] == Outcomes(capacity, maxCapacity, ops[..n]);
  }

  // In every run of Push and Pop, every index handed out reads exactly the
  // bytes pushed there until the Pop that serves it, across wrap-around and
  // growth in either state.
  lemma {:induction false} HandedOutReads(capacity: nat, maxCapacity: int, ops: seq<FifoOp>)
    ensures Holds(State(capacity, maxCapacity, ops).payloads, HeldAfter(capacity, maxCapacity, ops))
  {
    hide Good, Step, Holds, HeldAfter, State;
    if ops == [] {
      NothingHeld(capacity, maxCapacity);
    } else {
      var n := |ops| - 1;
      HandedOutReads(capacity, maxCapacity, ops[..n]);
      StateGood(capacity, maxCapacity, ops[..n]);
      HeldStep(capacity, maxCapacity, ops);
      StateStep(capacity, maxCapacity, ops);
      var q := State(capacity, maxCapacity, ops[..n]);
      StepHolds(q, ops[n], maxCapacity, HeldAfter(capacity, maxCapacity, ops[..n]));
    }
  }

  lemma NothingHeld(capacity: nat, maxCapacity: int)
    ensures Holds(State(capacity, maxCapacity, []).payloads, HeldAfter(capacity, maxCapacity, []))
  {
  }

  lemma StateStep(capacity: nat, maxCapacity: int, ops: seq<FifoOp>)
    requires ops != []
    ensures State(capacity, maxCapacity, ops) ==
            Step(State(capacity, maxCapacity, ops[..|ops| - 1]), ops[|ops| - 1], maxCapacity).0
  {
  }

  lemma StepHolds(q: Queue, op: FifoOp, maxCapacity: int, held: map<int, seq<byte>>)
    requires Good(q) && Holds(q.payloads, held)
    ensures var (after, outcome) := Step(q, op, maxCapacity);
            Holds(after.payloads, match (op, outcome)
                                  case (Push(data), Accepted(i)) => held[i := data]
                                  case (Pop, Served(i, _)) => held - {i}
                                  case _ => held)
    ensures var outcome := Step(q, op, maxCapacity).1;
            outcome.Served? ==>
              if outcome.index in held then outcome.data == held[outcome.index] else IsBlob(outcome.data)
    ensures var outcome := Step(q, op, maxCapacity).1; outcome.Accepted? ==> outcome.index !in held
  {
    hide Sound, InOrder, Prepared, SettledOrder, LimitReached, IsBlob, AtTail, Popped;
    match op
    case Push(data) =>
      PushGood(q, data, maxCapacity);
      RoomyHolds(q, BlockSize(data), held);
    case Pop =>
  }

  lemma RoomyHolds(q: Queue, n: int, held: map<int, seq<byte>>)
    requires Good(q) && Holds(q.payloads, held)
    ensures Holds(RoomyContents(q.l, q.payloads, n), held)
  {
    hide Sound, InOrder, MustGrow;
    RoomySized(q, n, 0);
    GapSize(q.l);
    if !Unwrapped(q.l) {
      var k := q.l.head - q.l.tail - HEADER_ENTRY_SIZE;
      assert IsBlob(Zeros(k));
    }
  }

  // ---- the order of service ----

  // A push that turns the queue round: it grows while wrapped.
  predicate TurnsAt(q: Queue, op: FifoOp, maxCapacity: int) {
    && op.Push? && !Unwrapped(q.l)
    && MustGrow(q.l, BlockSize(op.data)) && !LimitReached(q.l, BlockSize(op.data), maxCapacity)
  }

  ghost predicate NeverTurns(capacity: nat, maxCapacity: int, ops: seq<FifoOp>) {
    ops == [] || (NeverTurns(capacity, maxCapacity, ops[..|ops| - 1])
                  && !TurnsAt(State(capacity, maxCapacity, ops[..|ops| - 1]), ops[|ops| - 1], maxCapacity))
  }

  datatype Line = Line(waiting: seq<seq<byte>>, served: seq<seq<byte>>)

  // A plain queue fed the accepted pushes and asked at the answered pops.
  ghost function PlainLine(ops: seq<FifoOp>, outcomes: seq<Outcome>): Line
    requires |ops| == |outcomes|
  {
    if ops == [] then Line([], [])
    else
      var n := |ops| - 1;
      var before := PlainLine(ops[..n], outcomes[..n]);
      match (ops[n], outcomes[n])
      case (Push(data), Accepted(_)) => before.(waiting := before.waiting + [data])
      case (Pop, Served(_, _)) =>
        if before.waiting == [] then before else Line(before.waiting[1..], before.served + [before.waiting[0]])
      case _ => before
  }

  // The data that pops have answered, in order.
  function Answers(outcomes: seq<Outcome>): seq<seq<byte>> {
    if outcomes == [] then []
    else
      var n := |outcomes| - 1;
      Answers(outcomes[..n]) + if outcomes[n].Served? then [outcomes[n].data] else []
  }

  ghost predicate InLine(q: Queue, waiting: seq<seq<byte>>) {
    && |q.order| == |waiting|
    && forall i | 0 <= i < |waiting| :: q.order[i] in q.payloads && q.payloads[q.order[i]] == waiting[i]
  }

  // What waits after a push that turns the queue round: the blocks that had
  // wrapped come first, then the filling of the gap, then the older blocks.
  ghost function TurnedLine(q: Queue, waiting: seq<seq<byte>>): seq<seq<byte>> {
    var k := CountRight(q.l.head, q.order);
    if |waiting| < k then waiting
    else waiting[k..] + [Zeros(q.l.head - q.l.tail - HEADER_ENTRY_SIZE)] + waiting[..k]
  }

  lemma PushInLine(q: Queue, data: seq<byte>, maxCapacity: int, waiting: seq<seq<byte>>)
    requires Good(q) && InLine(q, waiting)
    ensures var (after, outcome) := Step(q, Push(data), maxCapacity);
            var line := if TurnsAt(q, Push(data), maxCapacity) then TurnedLine(q, waiting) else waiting;
            if outcome.Accepted? then InLine(after, line + [data]) else outcome == Full && InLine(after, waiting)
  {
    PushGood(q, data, maxCapacity);
    var n, turns := BlockSize(data), TurnsAt(q, Push(data), maxCapacity);
    if !LimitReached(q.l, n, maxCapacity) {
      RoomySized(q, n, maxCapacity);
      hide Good, Prepared, AtTail, MustGrow, LimitReached, Zeros, InLine, TurnedLine, SettledOrder, RoomyContents;
      var roomy := Queue(Prepared(q.l, n, maxCapacity), SettledOrder(q.l, q.order, n, maxCapacity),
                         RoomyContents(q.l, q.payloads, n));
      RoomyInLine(q, n, maxCapacity, waiting, roomy.l);
      JoinInLine(roomy, if turns then TurnedLine(q, waiting) else waiting, data, AtTail(roomy.l, n));
    }
  }

  lemma JoinInLine(q: Queue, waiting: seq<seq<byte>>, data: seq<byte>, l: Layout)
    requires InLine(q, waiting) && q.l.tail !in q.payloads
    ensures InLine(Queue(l, q.order + [q.l.tail], q.payloads[q.l.tail := data]), waiting + [data])
  {
  }

  lemma RoomyInLine(q: Queue, n: int, maxCapacity: int, waiting: seq<seq<byte>>, l: Layout)
    requires InLine(q, waiting) && !LimitReached(q.l, n, maxCapacity)
    requires MustGrow(q.l, n) && !Unwrapped(q.l) ==> q.l.tail !in q.payloads
    ensures InLine(Queue(l, SettledOrder(q.l, q.order, n, maxCapacity), RoomyContents(q.l, q.payloads, n)),
                   if MustGrow(q.l, n) && !Unwrapped(q.l) then TurnedLine(q, waiting) else waiting)
  {
    hide MustGrow, LimitReached, Zeros;
  }

  lemma PopInLine(q: Queue, maxCapacity: int, waiting: seq<seq<byte>>)
    requires Good(q) && InLine(q, waiting)
    ensures var (after, outcome) := Step(q, Pop, maxCapacity);
            if outcome.Served? then waiting != [] && outcome.data == waiting[0] && InLine(after, waiting[1..])
            else outcome == Denied && InLine(after, waiting)
  {
    hide Good, Popped, CanPop;
    PopGood(q, maxCapacity);
    if CanPop(q.l) {
      HeadOnce(q);
    }
  }

  lemma HeadOnce(q: Queue)
    requires Good(q) && q.order != [] && q.order[0] == q.l.head
    ensures forall i | 0 < i < |q.order| :: q.order[i] != q.l.head
  {
    hide Sound;
    forall i | 0 < i < |q.order| ensures q.order[i] != q.l.head {
      assert Before(q.l.head, q.order[0], q.order[i]);
    }
  }

  // The queue as a line: pushes join at the end, pops take from the front, and
  // a push that turns the queue round rearranges it once.
  ghost function ServiceLine(capacity: nat, maxCapacity: int, ops: seq<FifoOp>): Line {
    if ops == [] then Line([], [])
    else
      var n := |ops| - 1;
      NextLine(ServiceLine(capacity, maxCapacity, ops[..n]), State(capacity, maxCapacity, ops[..n]), ops[n],
               maxCapacity)
  }

  ghost function NextLine(line: Line, q: Queue, op: FifoOp, maxCapacity: int): Line {
    match (op, Step(q, op, maxCapacity).1)
    case (Push(data), Accepted(_)) =>
      line.(waiting := (if TurnsAt(q, op, maxCapacity) then TurnedLine(q, line.waiting) else line.waiting) + [data])
    case (Pop, Served(_, _)) =>
      if line.waiting == [] then line else Line(line.waiting[1..], line.served + [line.waiting[0]])
    case _ => line
  }

  lemma NextInLine(line: Line, q: Queue, op: FifoOp, maxCapacity: int)
    requires Good(q) && InLine(q, line.waiting)
    ensures var (after, outcome) := Step(q, op, maxCapacity); var next := NextLine(line, q, op, maxCapacity);
            && InLine(after, next.waiting)
            && next.served == line.served + if outcome.Served? then [outcome.data] else []
  {
    match op
    case Push(data) =>
      PushInLine(q, data, maxCapacity, line.waiting);
      hide Good, InLine, AtTail, Prepared, TurnsAt, TurnedLine;
    case Pop =>
      PopInLine(q, maxCapacity, line.waiting);
      hide Good, InLine, CanPop, Popped;
  }

  // In every run pops serve from the front of that line.
  lemma {:induction false} ServedInLine(capacity: nat, maxCapacity: int, ops: seq<FifoOp>)
    ensures var line := ServiceLine(capacity, maxCapacity, ops);
            && Answers(Outcomes(capacity, maxCapacity, ops)) == line.served
            && InLine(State(capacity, maxCapacity, ops), line.waiting)
  {
    if ops != [] {
      var n, outcomes := |ops| - 1, Outcomes(capacity, maxCapacity, ops);
      assert outcomes[..n] == Outcomes(capacity, maxCapacity, ops[..n]);
      ServedInLine(capacity, maxCapacity, ops[..n]);
      StateGood(capacity, maxCapacity, ops[..n]);
      hide Good, Step, InLine, NextLine;
      NextInLine(ServiceLine(capacity, maxCapacity, ops[..n]), State(capacity, maxCapacity, ops[..n]), ops[n],
                 maxCapacity);
    }
  }

  // As long as no push turns the queue round, that is first in, first out.
  lemma {:induction false} FirstInFirstOut(capacity: nat, maxCapacity: int, ops: seq<FifoOp>)
    requires NeverTurns(capacity, maxCapacity, ops)
    ensures var outcomes := Outcomes(capacity, maxCapacity, ops);
            && Answers(outcomes) == PlainLine(ops, outcomes).served
            && InLine(State(capacity, maxCapacity, ops), PlainLine(ops, outcomes).waiting)
  {
    PlainWhileUnturned(capacity, maxCapacity, ops);
    ServedInLine(capacity, maxCapacity, ops);
  }

  lemma {:induction false} PlainWhileUnturned(capacity: nat, maxCapacity: int, ops: seq<FifoOp>)
    requires NeverTurns(capacity, maxCapacity, ops)
    ensures ServiceLine(capacity, maxCapacity, ops) == PlainLine(ops, Outcomes(capacity, maxCapacity, ops))
  {
    if ops != [] {
      var n, outcomes := |ops| - 1, Outcomes(capacity, maxCapacity, ops);
      assert outcomes[..n] == Outcomes(capacity, maxCapacity, ops[..n]);
      PlainWhileUnturned(capacity, maxCapacity, ops[..n]);
      hide State, Step, TurnsAt, TurnedLine;
    }
  }

  // A push that turns the queue round puts another block in front of the one
  // that has waited longest.
  lemma TurningBreaksOrder(capacity: nat, maxCapacity: int, ops: seq<FifoOp>, data: seq<byte>)
    requires TurnsAt(State(capacity, maxCapacity, ops), Push(data), maxCapacity)
    ensures var q := State(capacity, maxCapacity, ops); var after := Step(q, Push(data), maxCapacity).0;
            q.order != [] && q.order[0] in after.order && after.order[0] != q.order[0]
  {
    StateGood(capacity, maxCapacity, ops);
    var q := State(capacity, maxCapacity, ops);
    hide State, Sound, InOrder, Prepared, RoomyContents, MustGrow, LimitReached, Turned;
    GrownLosesFront(q.l, q.order);
    TurnedMembers(q.l, q.order);
  }
}
