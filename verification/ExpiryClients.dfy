// What the expiry system guarantees to clients that keep out of each other's
// way, and what it does to those that do not.
module ExpiryClients {
  import opened KeyedBlob
  import opened TtlSpec
  import opened ExpirySystem

  // ---- set against an unfinished del ----

  // A set with an expiry while a del of the same key has not finished.
  predicate OverlapsDel(s: State, e: Event) {
    e.Set? && e.duration != 0 && Drop(e.key) in s.pending
  }

  ghost predicate NoOverlap(H: Hasher, start: Time, events: seq<Event>) {
    events == [] || (NoOverlap(H, start, events[..|events| - 1])
                     && !OverlapsDel(Run(H, Initial(start), events[..|events| - 1]), events[|events| - 1]))
  }

  // No entry that should expire has a key whose del has not finished.
  ghost predicate Orderly(s: State) {
    forall h | h in s.store && Drop(s.store[h].key) in s.pending :: s.store[h].expiry == NO_EXPIRY
  }

  lemma StepOrderly(H: Hasher, s: State, e: Event)
    requires Invariant(H, s) && Orderly(s) && !OverlapsDel(s, e)
    ensures Orderly(Step(H, s, e)) && !Strands(H, s, e)
  {
    hide Timely, Put, Remove, First, Next;
  }

  // As long as no set with an expiry overlaps an unfinished del of its key,
  // every live entry that should expire is on the books.
  lemma {:induction false} NoOverlapNoneStranded(H: Hasher, start: Time, events: seq<Event>)
    requires 1 <= start && NoOverlap(H, start, events)
    ensures Orderly(Run(H, Initial(start), events)) && LateVictims(H, start, events) == {}
    ensures forall h :: !Stranded(Run(H, Initial(start), events), h)
  {
    hide Invariant, Step, Stranded, Strands, OverlapsDel;
    OnlyLateWithdrawalsStrand(H, start, events);
    if events != [] {
      var n := |events| - 1;
      NoOverlapNoneStranded(H, start, events[..n]);
      RunKeeps(H, start, events[..n]);
      StepOrderly(H, Run(H, Initial(start), events[..n]), events[n]);
    }
  }

  // So no expired entry is live once all recorded seconds lie ahead, no batch
  // is in flight and no set is half done.
  lemma NoOverlapNoneExpired(H: Hasher, start: Time, events: seq<Event>)
    requires 1 <= start && NoOverlap(H, start, events)
    ensures var s := Run(H, Initial(start), events);
            !s.pass.Evicting? && (forall t | t in s.ttl.tree :: s.now < t) && (forall p | p in s.pending :: p.Drop?) ==>
            forall h | h in s.store :: s.store[h].expiry == NO_EXPIRY || s.now < s.store[h].expiry
  {
    NoOverlapNoneStranded(H, start, events);
    NoExpiredEntryIsLive(H, start, events);
    hide Run, LateVictims;
  }

  // The condition cannot be weaker: a set with an expiry is safe against the
  // rest of the dels exactly when it does not overlap one of its own key. When
  // it does, finishing the set and then the del strands the entry.
  lemma OverlapStrands(H: Hasher, s: State, e: Event)
    requires Invariant(H, s) && e.Set? && e.duration != 0 && 1 <= e.clock <= s.now
    requires var t := Expiry(e.clock, e.duration);
             Add(t, e.key) !in s.pending && !(s.pass.Evicting? && s.pass.batch.at == t && e.key in s.pass.batch.keys)
    ensures var t := Expiry(e.clock, e.duration);
            Stranded(Run(H, s, [e, FinishSet(t, e.key), FinishDel(e.key, t)]), H(e.key)) <==> OverlapsDel(s, e)
  {
    var t := Expiry(e.clock, e.duration);
    var s1 := Step(H, s, e);
    var s2 := Step(H, s1, FinishSet(t, e.key));
    var s3 := Step(H, s2, FinishDel(e.key, t));
    ThreeEvents(H, s, e, FinishSet(t, e.key), FinishDel(e.key, t));
    PutRecords(s1.ttl, t, e.key);
    RemoveRecords(s2.ttl, t, e.key);
    hide Run, Recorded, Put, Remove, Timely;
    assert s1.pending == s.pending + multiset{Add(t, e.key)};
    assert s2.pending == s.pending;
  }

  lemma ThreeEvents(H: Hasher, s: State, a: Event, b: Event, c: Event)
    ensures Run(H, s, [a, b, c]) == Step(H, Step(H, Step(H, s, a), b), c)
  {
    hide Step;
    assert [a, b, c][..2] == [a, b] && [a, b][..1] == [a] && [a][..0] == [];
    assert Run(H, s, [a]) == Step(H, s, a);
    assert Run(H, s, [a, b]) == Step(H, Run(H, s, [a]), b);
  }

  // ---- undivided calls ----

  // A client's call from beginning to end, or a step of the goroutine or the
  // clock.
  datatype Call =
    | SetCall(key: Key, value: seq<byte>, duration: nat, clock: Time)
    | DelCall(key: Key, read: Time)
    | Other(e: Event)

  function EventsOf(call: Call): seq<Event> {
    match call
    case SetCall(key, value, duration, clock) =>
      [Set(key, value, duration, clock), FinishSet(Expiry(clock, duration), key)]
    case DelCall(key, read) => [Del(key), FinishDel(key, read)]
    case Other(e) => if e.Set? || e.Del? then [] else [e]
  }

  ghost function RunCalls(H: Hasher, s: State, calls: seq<Call>): State {
    if calls == [] then s else Run(H, RunCalls(H, s, calls[..|calls| - 1]), EventsOf(calls[|calls| - 1]))
  }

  // Every live entry that should expire is in the tree at its second or in the
  // batch about to be deleted.
  ghost predicate InTreeOrBatch(s: State) {
    forall h | h in s.store && s.store[h].expiry != NO_EXPIRY ::
      var e := s.store[h];
      Recorded(s.ttl, e.expiry, e.key)
      || (s.pass.Evicting? && s.pass.batch.at == e.expiry && e.key in s.pass.batch.keys)
  }

  lemma TwoEvents(H: Hasher, s: State, a: Event, b: Event)
    ensures Run(H, s, [a, b]) == Step(H, Step(H, s, a), b)
  {
    hide Step;
    assert [a, b][..1] == [a] && [a][..0] == [];
    assert Run(H, s, [a]) == Step(H, s, a);
  }

  lemma OneEvent(H: Hasher, s: State, a: Event)
    ensures Run(H, s, [a]) == Step(H, s, a) && Run(H, s, []) == s
  {
    assert [a][..0] == [];
  }

  // A step from a state without unfinished calls leaves at most its own work
  // unfinished, and strands nothing.
  lemma FirstHalf(H: Hasher, s: State, e: Event)
    requires s.pending == multiset{}
    ensures var after := Step(H, s, e).pending;
            match e
            case Set(key, _, duration, clock) => after <= multiset{Add(Expiry(clock, duration), key)}
            case Del(key) => after <= multiset{Drop(key)}
            case _ => after == multiset{}
    ensures !Strands(H, s, e)
  {
  }

  lemma NoneStrandedIn(H: Hasher, s: State, e: Event)
    requires Invariant(H, s) && (forall h :: !Stranded(s, h)) && !Strands(H, s, e)
    ensures Invariant(H, Step(H, s, e)) && forall h :: !Stranded(Step(H, s, e), h)
  {
    hide Invariant, Step, Stranded, Strands, Renews;
    StepKeeps(H, s, e);
    forall h ensures !Stranded(Step(H, s, e), h) {
      StepStranding(H, s, e, h);
    }
  }

  ghost predicate Whole(H: Hasher, s: State) {
    Invariant(H, s) && s.pending == multiset{} && forall h :: !Stranded(s, h)
  }

  lemma SetCallKeeps(H: Hasher, s: State, call: Call)
    requires Whole(H, s) && call.SetCall?
    ensures Whole(H, Run(H, s, EventsOf(call)))
  {
    var e := EventsOf(call);
    TwoEvents(H, s, e[0], e[1]);
    FirstHalf(H, s, e[0]);
    NoneStrandedIn(H, s, e[0]);
    NoneStrandedIn(H, Step(H, s, e[0]), e[1]);
    hide Invariant, Run, Stranded, Put, Withdrawn;
  }

  lemma DelCallKeeps(H: Hasher, s: State, call: Call)
    requires Whole(H, s) && call.DelCall?
    ensures Whole(H, Run(H, s, EventsOf(call)))
  {
    var e := EventsOf(call);
    TwoEvents(H, s, e[0], e[1]);
    FirstHalf(H, s, e[0]);
    NoneStrandedIn(H, s, e[0]);
    NoneStrandedIn(H, Step(H, s, e[0]), e[1]);
    hide Invariant, Run, Stranded, Remove;
  }

  lemma OtherKeeps(H: Hasher, s: State, call: Call)
    requires Whole(H, s) && call.Other?
    ensures Whole(H, Run(H, s, EventsOf(call)))
  {
    OneEvent(H, s, call.e);
    if !call.e.Set? && !call.e.Del? {
      FirstHalf(H, s, call.e);
      NoneStrandedIn(H, s, call.e);
    }
    hide Invariant, Run, Stranded, Step;
  }

  // When every set and every del runs to its end before the next event, every
  // live entry that should expire is in the tree or in the batch in flight.
  lemma {:induction false} UndividedOnTheBooks(H: Hasher, start: Time, calls: seq<Call>)
    requires 1 <= start
    ensures Whole(H, RunCalls(H, Initial(start), calls)) && InTreeOrBatch(RunCalls(H, Initial(start), calls))
  {
    if calls == [] {
      InitialInvariant(H, start);
    } else {
      var n := |calls| - 1;
      UndividedOnTheBooks(H, start, calls[..n]);
      hide Whole, Run, EventsOf;
      match calls[n]
      case SetCall(_, _, _, _) => SetCallKeeps(H, RunCalls(H, Initial(start), calls[..n]), calls[n]);
      case DelCall(_, _) => DelCallKeeps(H, RunCalls(H, Initial(start), calls[..n]), calls[n]);
      case Other(_) => OtherKeeps(H, RunCalls(H, Initial(start), calls[..n]), calls[n]);
    }
    WholeBooks(H, RunCalls(H, Initial(start), calls));
  }

  lemma WholeBooks(H: Hasher, s: State)
    requires Whole(H, s)
    ensures InTreeOrBatch(s)
  {
    forall h | h in s.store && s.store[h].expiry != NO_EXPIRY
      ensures OnBooks(s, s.store[h].expiry, s.store[h].key)
    {
      assert !Stranded(s, h);
    }
  }

  // What an undivided set and an undivided del, which reads the second of the
  // entry it deletes, do to the map and to the table.
  lemma SetCallLeads(H: Hasher, s: State, key: Key, value: seq<byte>, duration: nat, clock: Time)
    requires 1 <= clock <= s.now && Add(NO_EXPIRY, key) !in s.pending
    ensures Run(H, s, EventsOf(SetCall(key, value, duration, clock))) ==
            s.(store := s.store[H(key) := Entry(Expiry(clock, duration), key, value)],
               ttl := Registered(s.ttl, s.store, key, H(key), Expiry(clock, duration), duration))
  {
    var t := Expiry(clock, duration);
    TwoEvents(H, s, Set(key, value, duration, clock), FinishSet(t, key));
    hide Run, TtlSpec.Put, Withdrawn;
    assert s.pending + multiset{Add(t, key)} - multiset{Add(t, key)} == s.pending;
  }

  lemma DelCallLeads(H: Hasher, s: State, key: Key)
    requires Drop(key) !in s.pending
    ensures var read := if H(key) in s.store then s.store[H(key)].expiry else NO_EXPIRY;
            Run(H, s, EventsOf(DelCall(key, read))) ==
            s.(store := s.store - {H(key)}, ttl := Withdrawn(s.ttl, s.store, key, H(key)))
  {
    var read := if H(key) in s.store then s.store[H(key)].expiry else NO_EXPIRY;
    TwoEvents(H, s, Del(key), FinishDel(key, read));
    DelBothHalves(H, s, key, read);
    hide Run, Withdrawn, DelStep, FinishDelStep;
  }

  lemma DelBothHalves(H: Hasher, s: State, key: Key, read: Time)
    requires Drop(key) !in s.pending && (H(key) in s.store ==> read == s.store[H(key)].expiry)
    ensures FinishDelStep(DelStep(H, s, key), key, read) ==
            s.(store := s.store - {H(key)}, ttl := Withdrawn(s.ttl, s.store, key, H(key)))
  {
    hide Remove;
    if H(key) in s.store {
      assert s.pending + multiset{Drop(key)} - multiset{Drop(key)} == s.pending;
    } else {
      assert s.store - {H(key)} == s.store;
    }
  }

  // ---- the table against a tick on its way ----

  // Works on the expiry table.
  predicate UsesTable(e: Event) {
    e.Set? || e.FinishSet? || e.FinishDel?
  }

  // No client gets at the table between the receipt of a tick and the pop that
  // answers it.
  ghost predicate PromptPops(H: Hasher, start: Time, events: seq<Event>) {
    events == [] || (PromptPops(H, start, events[..|events| - 1])
                     && (Run(H, Initial(start), events[..|events| - 1]).pass == Ticked ==>
                           !UsesTable(events[|events| - 1])))
  }

  lemma StepPunctual(H: Hasher, s: State, e: Event)
    requires Invariant(H, s) && Punctual(s) && (s.pass == Ticked ==> !UsesTable(e))
    ensures Punctual(Step(H, s, e))
  {
    hide Put, Remove, Evicted;
  }

  lemma {:induction false} PromptPopsPunctual(H: Hasher, start: Time, events: seq<Event>)
    requires 1 <= start && PromptPops(H, start, events)
    ensures Punctual(Run(H, Initial(start), events))
  {
    hide Invariant, Step;
    if events != [] {
      var n := |events| - 1;
      PromptPopsPunctual(H, start, events[..n]);
      RunKeeps(H, start, events[..n]);
      StepPunctual(H, Run(H, Initial(start), events[..n]), events[n]);
    }
  }

  // Then an entry disappears or changes only because its own slot is set or
  // deleted, or because its second has come.
  lemma OnlyExpiredAreEvicted(H: Hasher, start: Time, events: seq<Event>, e: Event, h: nat)
    requires 1 <= start && PromptPops(H, start, events)
    ensures var s := Run(H, Initial(start), events); var after := Step(H, s, e);
            h in s.store && (h !in after.store || after.store[h] != s.store[h]) ==>
              || (e.Set? && H(e.key) == h)
              || (e.Del? && H(e.key) == h)
              || (e == EvictBatch && NO_EXPIRY < s.store[h].expiry <= s.now)
  {
    PromptPopsPunctual(H, start, events);
    OnlyBatchesEvict(H, start, events, e, h);
    hide Run, Step;
  }

  // A tick taken up when the earliest second lies ahead evicts exactly the
  // entries recorded there, before their time; otherwise it evicts no entry
  // before its time.
  lemma EarlyEviction(H: Hasher, s: State, h: nat)
    requires Invariant(H, s) && s.pass == Ticked && h in s.store && s.now < s.store[h].expiry
    ensures h !in Run(H, s, [PopFirst, EvictBatch]).store <==>
            s.ttl.tree.Keys != {} && s.store[h].expiry == Min(s.ttl.tree.Keys) && Booked(H, s, h)
  {
    TwoEvents(H, s, PopFirst, EvictBatch);
    hide Run, Timely, Named;
  }
}
