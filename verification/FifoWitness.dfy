// A run in which growing while wrapped changes the order of service.
module FifoWitness {
  import opened Layouts
  import opened Memory
  import opened FifoSpec

  // Where a run has led, next to a plain queue that saw the same.
  datatype Tally = Tally(q: Queue, line: Line, answers: seq<seq<byte>>)

  ghost function TallyOf(capacity: nat, maxCapacity: int, ops: seq<FifoOp>): Tally {
    var outcomes := Outcomes(capacity, maxCapacity, ops);
    Tally(State(capacity, maxCapacity, ops), PlainLine(ops, outcomes), Answers(outcomes))
  }

  lemma Extend(capacity: nat, maxCapacity: int, ops: seq<FifoOp>, op: FifoOp)
    ensures var (q, outcome) := Step(State(capacity, maxCapacity, ops), op, maxCapacity);
            && State(capacity, maxCapacity, ops + [op]) == q
            && Outcomes(capacity, maxCapacity, ops + [op]) == Outcomes(capacity, maxCapacity, ops) + [outcome]
  {
    assert (ops + [op])[..|ops|] == ops;
  }

  lemma ExtendLine(ops: seq<FifoOp>, outcomes: seq<Outcome>, op: FifoOp, outcome: Outcome)
    requires |ops| == |outcomes|
    ensures PlainLine(ops + [op], outcomes + [outcome]) ==
            var before := PlainLine(ops, outcomes);
            match (op, outcome)
            case (Push(data), Accepted(_)) => before.(waiting := before.waiting + [data])
            case (Pop, Served(_, _)) =>
              if before.waiting == [] then before else Line(before.waiting[1..], before.served + [before.waiting[0]])
            case _ => before
    ensures Answers(outcomes + [outcome]) == Answers(outcomes) + if outcome.Served? then [outcome.data] else []
  {
    assert (ops + [op])[..|ops|] == ops && (outcomes + [outcome])[..|ops|] == outcomes;
  }

  lemma AfterPush(capacity: nat, maxCapacity: int, ops: seq<FifoOp>, t: Tally, data: seq<byte>, q: Queue, i: int)
    requires TallyOf(capacity, maxCapacity, ops) == t && Step(t.q, Push(data), maxCapacity) == (q, Accepted(i))
    ensures TallyOf(capacity, maxCapacity, ops + [Push(data)]) ==
            Tally(q, Line(t.line.waiting + [data], t.line.served), t.answers)
  {
    hide State, Step, Outcomes, PlainLine, Answers;
    Extend(capacity, maxCapacity, ops, Push(data));
    ExtendLine(ops, Outcomes(capacity, maxCapacity, ops), Push(data), Accepted(i));
  }

  lemma AfterPop(capacity: nat, maxCapacity: int, ops: seq<FifoOp>, t: Tally, q: Queue, i: int, data: seq<byte>)
    requires TallyOf(capacity, maxCapacity, ops) == t && Step(t.q, Pop, maxCapacity) == (q, Served(i, data))
    requires t.line.waiting != []
    ensures TallyOf(capacity, maxCapacity, ops + [Pop]) ==
            Tally(q, Line(t.line.waiting[1..], t.line.served + [t.line.waiting[0]]), t.answers + [data])
  {
    hide State, Step, Outcomes, PlainLine, Answers;
    Extend(capacity, maxCapacity, ops, Pop);
    ExtendLine(ops, Outcomes(capacity, maxCapacity, ops), Pop, Served(i, data));
  }

  function One(a: seq<byte>): Queue {
    Queue(Layout(1, 95, 95, 200, map[1 := 94], map[], {}), [1], map[1 := a])
  }

  function Two(a: seq<byte>, b: seq<byte>): Queue {
    Queue(Layout(1, 189, 189, 200, map[1 := 94, 95 := 94], map[], {}), [1, 95], map[1 := a, 95 := b])
  }

  function Rest(b: seq<byte>): Queue {
    Queue(Layout(95, 189, 189, 200, map[95 := 94], map[], {}), [95], map[95 := b])
  }

  // The third block lies before the second, at the index of the first.
  function WrappedRound(b: seq<byte>, c: seq<byte>): Queue {
    Queue(Layout(95, 55, 189, 200, map[95 := 94, 1 := 54], map[], {}), [95, 1], map[95 := b, 1 := c])
  }

  function GrownRound(b: seq<byte>, c: seq<byte>, d: seq<byte>): Queue {
    Queue(Layout(1, 203, 203, 400, map[95 := 94, 1 := 54, 55 := 40, 189 := 14], map[], {}), [1, 55, 95, 189],
          map[95 := b, 1 := c, 55 := Zeros(36), 189 := d])
  }

  function Passed(b: seq<byte>, d: seq<byte>): Queue {
    Queue(Layout(55, 203, 203, 400, map[95 := 94, 55 := 40, 189 := 14], map[], {}), [55, 95, 189],
          map[95 := b, 55 := Zeros(36), 189 := d])
  }

  lemma PushesBehind(a: seq<byte>, b: seq<byte>)
    requires |a| == |b| == 90
    ensures Step(Start(200), Push(a), 0) == (One(a), Accepted(1))
    ensures Step(One(a), Push(b), 0) == (Two(a, b), Accepted(95))
  {
    assert [] + [1] == [1] && [1] + [95] == [1, 95];
  }

  lemma PopsAndWraps(a: seq<byte>, b: seq<byte>, c: seq<byte>)
    requires |a| == |b| == 90 && |c| == 50
    ensures Step(Two(a, b), Pop, 0) == (Rest(b), Served(1, a))
    ensures Step(Rest(b), Push(c), 0) == (WrappedRound(b, c), Accepted(1))
  {
    assert Two(a, b).payloads - {1} == Rest(b).payloads;
    assert Two(a, b).l.live - {1} == Rest(b).l.live;
    assert [1, 95][1..] == [95] && [95] + [1] == [95, 1];
  }

  lemma GrowsAndTurns(b: seq<byte>, c: seq<byte>, d: seq<byte>)
    requires |b| == 90 && |c| == 50 && |d| == 10
    ensures Step(WrappedRound(b, c), Push(d), 0) == (GrownRound(b, c, d), Accepted(189))
  {
    assert CountRight(95, [95, 1]) == 1;
    assert [95, 1][1..] + [55] + [95, 1][..1] == [1, 55, 95];
    assert [1, 55, 95] + [189] == [1, 55, 95, 189];
  }

  lemma ServesTheYounger(b: seq<byte>, c: seq<byte>, d: seq<byte>)
    ensures Step(GrownRound(b, c, d), Pop, 0) == (Passed(b, d), Served(1, c))
    ensures Step(Passed(b, d), Pop, 0).1 == Served(55, Zeros(36))
  {
    assert GrownRound(b, c, d).payloads - {1} == Passed(b, d).payloads;
    assert GrownRound(b, c, d).l.live - {1} == Passed(b, d).l.live;
    assert [1, 55, 95, 189][1..] == [55, 95, 189];
  }
  lemma Wraps(a: seq<byte>, b: seq<byte>, c: seq<byte>)
    requires |a| == |b| == 90 && |c| == 50
    ensures TallyOf(200, 0, [Push(a), Push(b), Pop, Push(c)]) == Tally(WrappedRound(b, c), Line([b, c], [a]), [a])
  {
    PushesBehind(a, b);
    PopsAndWraps(a, b, c);
    assert TallyOf(200, 0, []) == Tally(Start(200), Line([], []), []);
    hide Step, TallyOf, Start, One, Two, Rest, WrappedRound;
    AfterPush(200, 0, [], Tally(Start(200), Line([], []), []), a, One(a), 1);
    assert [] + [a] == [a] && [] + [Push(a)] == [Push(a)];
    AfterPush(200, 0, [Push(a)], Tally(One(a), Line([a], []), []), b, Two(a, b), 95);
    assert [a] + [b] == [a, b] && [Push(a)] + [Push(b)] == [Push(a), Push(b)];
    AfterPop(200, 0, [Push(a), Push(b)], Tally(Two(a, b), Line([a, b], []), []), Rest(b), 1, a);
    assert [a, b][1..] == [b] && [Push(a), Push(b)] + [Pop] == [Push(a), Push(b), Pop];
    AfterPush(200, 0, [Push(a), Push(b), Pop], Tally(Rest(b), Line([b], [a]), [a]), c, WrappedRound(b, c), 1);
    assert [b] + [c] == [b, c] && [Push(a), Push(b), Pop] + [Push(c)] == [Push(a), Push(b), Pop, Push(c)];
  }

  // Growing while wrapped breaks first in, first out. Of four blocks the first
  // is taken, the third is wrapped to the front and the fourth makes the queue
  // grow; then the second is overtaken by the third and by the filling of the
  // gap, which was never pushed.
  lemma GrowthOvertakes(a: seq<byte>, b: seq<byte>, c: seq<byte>, d: seq<byte>)
    requires |a| == |b| == 90 && |c| == 50 && |d| == 10
    ensures var ops := [Push(a), Push(b), Pop, Push(c), Push(d), Pop, Pop]; var outcomes := Outcomes(200, 0, ops);
            && Answers(outcomes) == [a, c, Zeros(36)]
            && PlainLine(ops, outcomes).served == [a, b, c]
  {
    Wraps(a, b, c);
    GrowsAndTurns(b, c, d);
    ServesTheYounger(b, c, d);
    hide Step, WrappedRound, GrownRound, Passed, Zeros, Answers, PlainLine, Outcomes, State;
    var ops := [Push(a), Push(b), Pop, Push(c)];
    AfterPush(200, 0, ops, Tally(WrappedRound(b, c), Line([b, c], [a]), [a]), d, GrownRound(b, c, d), 189);
    assert [b, c] + [d] == [b, c, d];
    AfterPop(200, 0, ops + [Push(d)], Tally(GrownRound(b, c, d), Line([b, c, d], [a]), [a]), Passed(b, d), 1, c);
    assert [b, c, d][1..] == [c, d] && [a] + [c] == [a, c] && [a] + [b] == [a, b];
    AfterPop(200, 0, ops + [Push(d)] + [Pop], Tally(Passed(b, d), Line([c, d], [a, b]), [a, c]),
             Step(Passed(b, d), Pop, 0).0, 55, Zeros(36));
    assert ops + [Push(d)] + [Pop] + [Pop] == [Push(a), Push(b), Pop, Push(c), Push(d), Pop, Pop];
  }
}
