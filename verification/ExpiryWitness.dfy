// A late withdrawal makes an entry outlive its second.
module ExpiryWitness {
  import opened KeyedBlob
  import opened Results
  import opened TtlSpec
  import opened ExpirySystem

  // A live entry that should expire while no key of its hash is due at its
  // second.
  ghost predicate Forgotten(H: Hasher, s: State, h: nat, e: Entry) {
    && h in s.store && s.store[h] == e && e.expiry != NO_EXPIRY
    && forall k: Key | H(k) == h :: !OnBooks(s, e.expiry, k)
  }

  predicate Touches(H: Hasher, e: Event, h: nat) {
    (e.Set? || e.Del?) && H(e.key) == h
  }

  lemma SetForgets(H: Hasher, s: State, ev: Event, h: nat, e: Entry)
    requires ev.Set? && Forgotten(H, s, h, e) && H(ev.key) != h
    ensures Forgotten(H, Step(H, s, ev), h, e)
  {
    if H(ev.key) in s.store {
      RemoveRecords(s.ttl, s.store[H(ev.key)].expiry, ev.key);
    }
    hide Recorded, Remove;
  }

  lemma FinishForgets(H: Hasher, s: State, key: Key, at: Time, h: nat, e: Entry)
    requires Forgotten(H, s, h, e)
    ensures Forgotten(H, FinishSetStep(s, at, key), h, e) && Forgotten(H, FinishDelStep(s, key, at), h, e)
  {
    PutRecords(s.ttl, at, key);
    RemoveRecords(s.ttl, at, key);
    hide Recorded, Remove, TtlSpec.Put;
  }

  lemma EvictForgets(H: Hasher, s: State, h: nat, e: Entry)
    requires Forgotten(H, s, h, e)
    ensures Forgotten(H, EvictStep(H, s), h, e)
  {
  }

  lemma TickForgets(H: Hasher, s: State, h: nat, e: Entry)
    requires Forgotten(H, s, h, e)
    ensures Forgotten(H, TickStep(s), h, e) && Forgotten(H, PopStep(s), h, e) && Forgotten(H, NextStep(s), h, e)
  {
  }

  lemma StepForgets(H: Hasher, s: State, ev: Event, h: nat, e: Entry)
    requires Forgotten(H, s, h, e) && !Touches(H, ev, h)
    ensures Forgotten(H, Step(H, s, ev), h, e)
  {
    match ev
    case Set(_, _, _, _) => SetForgets(H, s, ev, h, e);
    case Del(_) =>
    case FinishSet(at, key) => FinishForgets(H, s, key, at, h, e);
    case FinishDel(key, read) => FinishForgets(H, s, key, read, h, e);
    case TimerTick => TickForgets(H, s, h, e);
    case PopFirst => TickForgets(H, s, h, e);
    case EvictBatch => EvictForgets(H, s, h, e);
    case NextBatch => TickForgets(H, s, h, e);
    case ClockAdvance(d) =>
  }

  // Whatever else happens, a forgotten entry stays for ever: only a set or a
  // del of its own hash can end it.
  lemma {:induction false} ForgottenForEver(H: Hasher, s: State, events: seq<Event>, h: nat, e: Entry)
    requires Forgotten(H, s, h, e) && forall ev | ev in events :: !Touches(H, ev, h)
    ensures Forgotten(H, Run(H, s, events), h, e)
  {
    hide Forgotten, Step;
    if events != [] {
      var n := |events| - 1;
      ForgottenForEver(H, s, events[..n], h, e);
      StepForgets(H, Run(H, s, events[..n]), events[n], h, e);
    }
  }

  // A key is set, deleted and set again within one second, and the withdrawal
  // that the del owes comes last and finds that second.
  function LateRun(start: Time, key: Key, value: seq<byte>, duration: nat): seq<Event> {
    var t := Expiry(start, duration);
    var e := Set(key, value, duration, start);
    [e, FinishSet(t, key), Del(key), e, FinishSet(t, key), FinishDel(key, t)]
  }

  lemma NextOf(H: Hasher, s: State, events: seq<Event>, n: nat)
    requires n < |events|
    ensures Run(H, s, events[..n + 1]) == Step(H, Run(H, s, events[..n]), events[n])
    ensures n + 1 == |events| ==> events[..n + 1] == events
  {
    assert events[..n + 1][..n] == events[..n];
  }

  // A set that finds an empty table, from beginning to end.
  lemma SetRecorded(H: Hasher, s: State, key: Key, value: seq<byte>, duration: nat, clock: Time)
    requires 1 <= clock <= s.now && 0 < duration && s.ttl.tree == map[] && H(key) !in s.store
    ensures var t := Expiry(clock, duration);
            Step(H, Step(H, s, Set(key, value, duration, clock)), FinishSet(t, key)) ==
              s.(store := s.store[H(key) := Entry(t, key, value)], ttl := Ttl(map[t := {key}], Armed(t)))
  {
    var t := Expiry(clock, duration);
    PutAlone(s.ttl, t, key);
    hide TtlSpec.Put;
    assert s.pending + multiset{Add(t, key)} - multiset{Add(t, key)} == s.pending;
  }

  lemma PutAlone(ttl: Ttl, t: Time, key: Key)
    requires ttl.tree == map[]
    ensures TtlSpec.Put(ttl, t, key) == Ttl(map[t := {key}], Armed(t))
  {
    assert ttl.tree[t := {key}] == map[t := {key}] && (map[t := {key}]).Keys == {t};
  }

  lemma FirstHalf(H: Hasher, start: Time, key: Key, value: seq<byte>, duration: nat)
    requires 1 <= start && 0 < duration
    ensures var t := Expiry(start, duration);
            Run(H, Initial(start), LateRun(start, key, value, duration)[..3]) ==
              State(map[], Ttl(map[t := {key}], Armed(t)), Idle, start, multiset{Drop(key)})
  {
    var t, all := Expiry(start, duration), LateRun(start, key, value, duration);
    SetRecorded(H, Initial(start), key, value, duration, start);
    var s2 := State(map[H(key) := Entry(t, key, value)], Ttl(map[t := {key}], Armed(t)), Idle, start, multiset{});
    assert Initial(start).store[H(key) := Entry(t, key, value)] == s2.store;
    assert Step(H, s2, Del(key)) == State(map[], s2.ttl, Idle, start, multiset{Drop(key)}) by {
      assert s2.store - {H(key)} == map[];
    }
    assert Run(H, Initial(start), all[..0]) == Initial(start);
    hide Run, Step;
    NextOf(H, Initial(start), all, 0);
    NextOf(H, Initial(start), all, 1);
    NextOf(H, Initial(start), all, 2);
  }

  // Recording a key again changes nothing; withdrawing it empties the table.
  lemma RecordedAgain(t: Time, key: Key)
    ensures TtlSpec.Put(Ttl(map[t := {key}], Armed(t)), t, key) == Ttl(map[t := {key}], Armed(t))
    ensures Remove(Ttl(map[t := {key}], Armed(t)), t, key) == Ttl(map[], Armed(t))
  {
    assert {key} + {key} == {key};
    assert map[t := {key}] - {t} == map[];
  }

  // The second set while the withdrawal is owed, and what follows.
  lemma SetAgain(H: Hasher, start: Time, key: Key, value: seq<byte>, duration: nat)
    requires 1 <= start && 0 < duration
    ensures var t := Expiry(start, duration); var ttl := Ttl(map[t := {key}], Armed(t));
            var s := State(map[], ttl, Idle, start, multiset{Drop(key)});
            var after := Step(H, s, Set(key, value, duration, start));
            && after == State(map[H(key) := Entry(t, key, value)], ttl, Idle, start, multiset{Drop(key), Add(t, key)})
            && Step(H, after, FinishSet(t, key)) == after.(pending := multiset{Drop(key)})
            && Step(H, after.(pending := multiset{Drop(key)}), FinishDel(key, t)) ==
               State(after.store, Ttl(map[], Armed(t)), Idle, start, multiset{})
  {
    var t := Expiry(start, duration);
    RecordedAgain(t, key);
    hide TtlSpec.Put, Remove;
  }

  lemma SecondHalf(H: Hasher, start: Time, key: Key, value: seq<byte>, duration: nat)
    requires 1 <= start && 0 < duration
    ensures var t := Expiry(start, duration);
            Run(H, Initial(start), LateRun(start, key, value, duration)) ==
              State(map[H(key) := Entry(t, key, value)], Ttl(map[], Armed(t)), Idle, start, multiset{})
  {
    var all := LateRun(start, key, value, duration);
    FirstHalf(H, start, key, value, duration);
    SetAgain(H, start, key, value, duration);
    hide Run, Step;
    NextOf(H, Initial(start), all, 3);
    NextOf(H, Initial(start), all, 4);
    NextOf(H, Initial(start), all, 5);
  }

  // That entry is still there after any further events that do not set or
  // delete its hash, however far the clock advances.
  lemma LateWithdrawalOutlives(H: Hasher, start: Time, key: Key, value: seq<byte>, duration: nat, more: seq<Event>)
    requires 1 <= start && 0 < duration
    requires forall e | e in more :: !Touches(H, e, H(key))
    ensures var s := Run(H, Run(H, Initial(start), LateRun(start, key, value, duration)), more);
            Stranded(s, H(key)) && Lookup(s.store, key, H(key)) == Ok(value)
  {
    SecondHalf(H, start, key, value, duration);
    var s := Run(H, Initial(start), LateRun(start, key, value, duration));
    var e := Entry(Expiry(start, duration), key, value);
    hide Run;
    assert Forgotten(H, s, H(key), e);
    ForgottenForEver(H, s, more, H(key), e);
  }

  // ---- evicted before its time ----

  // A key expires and its tick is received. Before the pop, the key is deleted
  // and another one is set, with an expiry that lies ahead.
  function EarlyRun(start: Time, key: Key, value: seq<byte>, duration: nat,
                    late: Key, lateValue: seq<byte>, lateDuration: nat): seq<Event>
  {
    var t := Expiry(start, duration);
    [Set(key, value, duration, start), FinishSet(t, key), ClockAdvance(duration / SECOND), TimerTick,
     Del(key), FinishDel(key, t), Set(late, lateValue, lateDuration, t), FinishSet(Expiry(t, lateDuration), late),
     PopFirst, EvictBatch]
  }

  lemma EarlyParts(start: Time, key: Key, value: seq<byte>, duration: nat,
                   late: Key, lateValue: seq<byte>, lateDuration: nat)
    ensures var all := EarlyRun(start, key, value, duration, late, lateValue, lateDuration);
            var t := Expiry(start, duration);
            && |all| == 10
            && all[0] == Set(key, value, duration, start) && all[1] == FinishSet(t, key)
            && all[2] == ClockAdvance(duration / SECOND) && all[3] == TimerTick
            && all[4] == Del(key) && all[5] == FinishDel(key, t)
            && all[6] == Set(late, lateValue, lateDuration, t) && all[7] == FinishSet(Expiry(t, lateDuration), late)
            && all[8] == PopFirst && all[9] == EvictBatch
    ensures 0 < duration ==> Expiry(start, duration) == start + duration / SECOND
  {
  }

  // The tick of that key, received.
  lemma TickReceived(H: Hasher, s: State, t: Time, key: Key)
    requires s.pass == Idle && s.now <= t && s.ttl == Ttl(map[t := {key}], Armed(t))
    ensures Step(H, Step(H, s, ClockAdvance(t - s.now)), TimerTick) ==
            s.(ttl := Ttl(map[t := {key}], Off), pass := Ticked, now := t)
  {
  }

  // A del of that key, from beginning to end.
  lemma DelWithdrawn(H: Hasher, s: State, t: Time, key: Key)
    requires s.ttl.tree == map[t := {key}] && H(key) in s.store
    ensures Step(H, Step(H, s, Del(key)), FinishDel(key, t)) ==
            s.(store := s.store - {H(key)}, ttl := Ttl(map[], s.ttl.timer))
  {
    RemoveAlone(s.ttl, t, key);
    hide Remove;
    assert s.pending + multiset{Drop(key)} - multiset{Drop(key)} == s.pending;
  }

  lemma RemoveAlone(ttl: Ttl, t: Time, key: Key)
    requires ttl.tree == map[t := {key}]
    ensures Remove(ttl, t, key) == Ttl(map[], ttl.timer)
  {
    assert ttl.tree - {t} == map[] && {key} - {key} == {};
  }

  // The pop that the tick asked for finds the other key.
  lemma EvictedEarly(H: Hasher, s: State, t: Time, key: Key)
    requires s.pass == Ticked && s.ttl.tree == map[t := {key}]
    requires s.store.Keys == {H(key)} && s.store[H(key)].expiry == t
    ensures Step(H, Step(H, s, PopFirst), EvictBatch).store == map[]
    ensures Step(H, Step(H, s, PopFirst), EvictBatch).now == s.now
  {
    assert s.ttl.tree.Keys == {t};
    assert Named(H, {key}, H(key));
  }

  lemma EarlyStates(H: Hasher, start: Time, key: Key, value: seq<byte>, duration: nat,
                    late: Key, lateValue: seq<byte>, lateDuration: nat)
    requires 1 <= start && 0 < duration && 0 < lateDuration
    ensures var t := Expiry(start, duration); var u := Expiry(t, lateDuration);
            Run(H, Initial(start), EarlyRun(start, key, value, duration, late, lateValue, lateDuration)[..8]) ==
              State(map[H(late) := Entry(u, late, lateValue)], Ttl(map[u := {late}], Armed(u)), Ticked, t, multiset{})
  {
    hide Run, Step, Expiry, EarlyRun;
    EarlyParts(start, key, value, duration, late, lateValue, lateDuration);
    var t, u := Expiry(start, duration), Expiry(Expiry(start, duration), lateDuration);
    var all := EarlyRun(start, key, value, duration, late, lateValue, lateDuration);
    HalfWay(H, start, key, value, duration, late, lateValue, lateDuration);
    var s4 := State(map[H(key) := Entry(t, key, value)], Ttl(map[t := {key}], Off), Ticked, t, multiset{});
    var s6 := State(map[], Ttl(map[], Off), Ticked, t, multiset{});
    DelWithdrawn(H, s4, t, key);
    assert s4.store - {H(key)} == map[];
    SetRecorded(H, s6, late, lateValue, lateDuration, t);
    assert s6.store[H(late) := Entry(u, late, lateValue)] == map[H(late) := Entry(u, late, lateValue)];
    NextTwo(H, Initial(start), all, 4);
    NextTwo(H, Initial(start), all, 6);
  }

  lemma HalfWay(H: Hasher, start: Time, key: Key, value: seq<byte>, duration: nat,
                late: Key, lateValue: seq<byte>, lateDuration: nat)
    requires 1 <= start && 0 < duration
    ensures var t := Expiry(start, duration);
            Run(H, Initial(start), EarlyRun(start, key, value, duration, late, lateValue, lateDuration)[..4]) ==
              State(map[H(key) := Entry(t, key, value)], Ttl(map[t := {key}], Off), Ticked, t, multiset{})
    ensures 1 <= Expiry(start, duration)
  {
    hide Run, Step, Expiry, EarlyRun, Initial;
    var t, all := Expiry(start, duration), EarlyRun(start, key, value, duration, late, lateValue, lateDuration);
    var s2 := State(map[H(key) := Entry(t, key, value)], Ttl(map[t := {key}], Armed(t)), Idle, start, multiset{});
    EarlyParts(start, key, value, duration, late, lateValue, lateDuration);
    SetFromNothing(H, start, key, value, duration);
    TickReceived(H, s2, t, key);
    NoEvents(H, Initial(start), all);
    NextTwo(H, Initial(start), all, 0);
    NextTwo(H, Initial(start), all, 2);
  }

  lemma SetFromNothing(H: Hasher, start: Time, key: Key, value: seq<byte>, duration: nat)
    requires 1 <= start && 0 < duration
    ensures var t := Expiry(start, duration);
            Step(H, Step(H, Initial(start), Set(key, value, duration, start)), FinishSet(t, key)) ==
              State(map[H(key) := Entry(t, key, value)], Ttl(map[t := {key}], Armed(t)), Idle, start, multiset{})
  {
    hide Step, Expiry;
    var t := Expiry(start, duration);
    SetRecorded(H, Initial(start), key, value, duration, start);
    assert Initial(start).store[H(key) := Entry(t, key, value)] == map[H(key) := Entry(t, key, value)];
  }

  lemma NoEvents(H: Hasher, s: State, events: seq<Event>)
    ensures Run(H, s, events[..0]) == s
  {
  }

  lemma NextTwo(H: Hasher, s: State, events: seq<Event>, n: nat)
    requires n + 1 < |events|
    ensures Run(H, s, events[..n + 2]) == Step(H, Step(H, Run(H, s, events[..n]), events[n]), events[n + 1])
    ensures n + 2 == |events| ==> events[..n + 2] == events
  {
    NextOf(H, s, events, n);
    NextOf(H, s, events, n + 1);
  }

  // For every two keys: the second one is evicted although its second has not
  // come.
  lemma EvictedBeforeItsTime(H: Hasher, start: Time, key: Key, value: seq<byte>, duration: nat,
                             late: Key, lateValue: seq<byte>, lateDuration: nat)
    requires 1 <= start && 0 < duration && SECOND <= lateDuration
    ensures var all := EarlyRun(start, key, value, duration, late, lateValue, lateDuration);
            var before, after := Run(H, Initial(start), all[..8]), Run(H, Initial(start), all);
            && Lookup(before.store, late, H(late)) == Ok(lateValue)
            && after.now < before.store[H(late)].expiry
            && Lookup(after.store, late, H(late)) == Err(EntryNotFound)
  {
    var all := EarlyRun(start, key, value, duration, late, lateValue, lateDuration);
    var t := Expiry(start, duration);
    EarlyStates(H, start, key, value, duration, late, lateValue, lateDuration);
    EarlyParts(start, key, value, duration, late, lateValue, lateDuration);
    hide Run, Step, EarlyRun;
    EvictedEarly(H, Run(H, Initial(start), all[..8]), Expiry(t, lateDuration), late);
    NextTwo(H, Initial(start), all, 8);
  }
}
