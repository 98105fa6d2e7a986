// One shard and its eviction goroutine as a step system. The shard is the
// plain map that Shard.dfy refines. The source works under two locks, the
// shard's and the expiry table's: set and del change the map under the first
// and finish their work on the table under the second. The goroutine receives
// a tick, pops a batch under the second lock later, and deletes it later still
// under the first. Every step is one locked section or the receipt of a tick,
// and anything may happen in between.
module ExpirySystem {
  import opened KeyedBlob
  import opened Results
  import opened TtlSpec

  datatype Entry = Entry(expiry: Time, key: Key, value: seq<byte>)

  type Store = map<nat, Entry>  // by hash of the key
  type Hasher = Key -> nat

  // Where the eviction goroutine stands: waiting for a tick, about to pop the
  // first batch, holding a batch it has popped, or about to look for the next
  // batch of the same pass.
  datatype Pass = Idle | Ticked | Evicting(batch: Batch) | Looking

  // What a set or a del still has to do to the expiry table.
  datatype Pending = Add(at: Time, key: Key) | Drop(key: Key)

  datatype State = State(store: Store, ttl: Ttl, pass: Pass, now: Time, pending: multiset<Pending>)

  datatype Event =
    | Set(key: Key, value: seq<byte>, duration: nat, clock: Time)  // nanoseconds, and what the clock read
    | Del(key: Key)
    | FinishSet(at: Time, key: Key)
    | FinishDel(key: Key, read: Time)  // the second it finds
    | TimerTick
    | PopFirst
    | EvictBatch
    | NextBatch
    | ClockAdvance(seconds: nat)

  // ---- the plain map ----

  const NO_EXPIRY := 0

  function Expiry(now: Time, duration: nat): Time {
    if duration != 0 then now + duration / SECOND else NO_EXPIRY
  }

  function Lookup(store: Store, key: Key, hash: nat): Result<seq<byte>> {
    if hash in store && store[hash].key == key then Ok(store[hash].value) else Err(EntryNotFound)
  }

  // Deletes the entries of a batch whose stored second is still the batch's.
  function Evicted(H: Hasher, store: Store, batch: Batch): Store {
    map h | h in store && !(store[h].expiry == batch.at && Named(H, batch.keys, h)) :: store[h]
  }

  predicate Named(H: Hasher, keys: set<Key>, h: nat) {
    exists k | k in keys :: H(k) == h
  }

  // ---- steps ----

  // Dropping the slot of a key withdraws that key from the slot's second,
  // even when the slot held another key with the same hash.
  function Withdrawn(ttl: Ttl, store: Store, key: Key, hash: nat): Ttl {
    if hash in store then Remove(ttl, store[hash].expiry, key) else ttl
  }

  function Registered(ttl: Ttl, store: Store, key: Key, hash: nat, expiry: Time, duration: nat): Ttl {
    var cleared := Withdrawn(ttl, store, key, hash);
    if duration != 0 then Put(cleared, expiry, key) else cleared
  }

  // An entry with a duration expires in the second in which that has passed.
  lemma ExpiryExact(now: Time, duration: nat)
    ensures duration == 0 ==> Expiry(now, duration) == NO_EXPIRY
    ensures duration != 0 ==>
              SECOND * Expiry(now, duration) <= SECOND * now + duration < SECOND * (Expiry(now, duration) + 1)
  {
  }

  // The second of the entry under a hash.
  ghost function SecondOf(store: Store, hash: nat): Option<Time> {
    if hash in store then Some(store[hash].expiry) else None
  }

  // Withdrawing takes the key off the second of the entry under its hash and
  // touches no other record.
  lemma WithdrawnRecords(ttl: Ttl, store: Store, key: Key, hash: nat)
    ensures OnlyMoves(ttl, Withdrawn(ttl, store, key, hash), key, SecondOf(store, hash), None)
  {
    if hash in store {
      RemoveRecords(ttl, store[hash].expiry, key);
    }
    hide Recorded, Remove;
  }

  // A set with a duration puts its key on the books for the new second, takes
  // it off those for the old one, and touches no other record.
  lemma RegisteredRecords(ttl: Ttl, store: Store, key: Key, hash: nat, expiry: Time, duration: nat)
    ensures var after := Registered(ttl, store, key, hash, expiry, duration);
            && (duration != 0 ==> Recorded(after, expiry, key))
            && OnlyMoves(ttl, after, key, SecondOf(store, hash), if duration != 0 then Some(expiry) else None)
  {
    WithdrawnRecords(ttl, store, key, hash);
    var cleared, after :=
      Withdrawn(ttl, store, key, hash), Registered(ttl, store, key, hash, expiry, duration);
    if duration != 0 {
      PutRecords(cleared, expiry, key);
      assert after == TtlSpec.Put(cleared, expiry, key);
    } else {
      assert after == cleared;
    }
    hide Recorded, Withdrawn, TtlSpec.Put, Registered;
  }

  // What a set of a key that gives second r means for the records: the key is
  // on the books for the second in which its time runs out, unless it has no
  // duration or the set is refused, and off those for the old second of its
  // hash; no other record is touched.
  ghost predicate Rebooks(before: Ttl, after: Ttl, key: Key, from: Option<Time>, now: Time, duration: nat,
                          refused: bool, r: Time)
  {
    if duration == 0 || refused then r == NO_EXPIRY && OnlyMoves(before, after, key, from, None)
    else
      && SECOND * r <= SECOND * now + duration < SECOND * (r + 1)
      && Recorded(after, r, key) && OnlyMoves(before, after, key, from, Some(r))
  }

  // Either way the timer goes on waiting for the earliest second.
  lemma RegisteredTimely(ttl: Ttl, store: Store, key: Key, hash: nat, expiry: Time, duration: nat)
    requires Timely(ttl)
    ensures Timely(Withdrawn(ttl, store, key, hash))
    ensures Timely(Registered(ttl, store, key, hash, expiry, duration))
  {
    if hash in store {
      RemoveTimely(ttl, store[hash].expiry, key);
    }
    PutTimely(Withdrawn(ttl, store, key, hash), expiry, key);
    hide Timely, Remove, TtlSpec.Put;
  }

  // set, up to the release of the shard lock. The clock was read before.
  function SetStep(H: Hasher, s: State, key: Key, value: seq<byte>, duration: nat, clock: Time): State {
    var expiry := Expiry(clock, duration);
    if !(1 <= clock <= s.now) then s
    else s.(store := s.store[H(key) := Entry(expiry, key, value)],
            ttl := Withdrawn(s.ttl, s.store, key, H(key)),
            pending := if duration != 0 then s.pending + multiset{Add(expiry, key)} else s.pending)
  }

  // del, up to the release of the shard lock.
  function DelStep(H: Hasher, s: State, key: Key): State {
    if H(key) !in s.store then s
    else s.(store := s.store - {H(key)}, pending := s.pending + multiset{Drop(key)})
  }

  // The rest of a set.
  function FinishSetStep(s: State, at: Time, key: Key): State {
    if Add(at, key) !in s.pending then s
    else s.(ttl := Put(s.ttl, at, key), pending := s.pending - multiset{Add(at, key)})
  }

  // The rest of a del. It takes the second to withdraw from out of the block
  // that has been freed, which may have been written again since, so that the
  // second it reads may be any.
  function FinishDelStep(s: State, key: Key, read: Time): State {
    if Drop(key) !in s.pending then s
    else s.(ttl := Remove(s.ttl, read, key), pending := s.pending - multiset{Drop(key)})
  }

  predicate Due(s: State) {
    s.pass == Idle && s.ttl.timer.Armed? && s.ttl.timer.at <= s.now
  }

  function TickStep(s: State): State {
    if !Due(s) then s else s.(ttl := Fired(s.ttl), pass := Ticked)
  }

  function PopStep(s: State): State {
    if s.pass != Ticked then s
    else
      var (ttl, batch) := First(s.ttl);
      s.(ttl := ttl, pass := if batch.Some? then Evicting(batch.value) else Idle)
  }

  function EvictStep(H: Hasher, s: State): State {
    if !s.pass.Evicting? then s
    else s.(store := Evicted(H, s.store, s.pass.batch), pass := Looking)
  }

  function NextStep(s: State): State {
    if s.pass != Looking then s
    else
      var (ttl, batch) := Next(s.ttl, s.now);
      s.(ttl := ttl, pass := if batch.Some? then Evicting(batch.value) else Idle)
  }

  function Step(H: Hasher, s: State, e: Event): State {
    match e
    case Set(key, value, duration, clock) => SetStep(H, s, key, value, duration, clock)
    case Del(key) => DelStep(H, s, key)
    case FinishSet(at, key) => FinishSetStep(s, at, key)
    case FinishDel(key, read) => FinishDelStep(s, key, read)
    case TimerTick => TickStep(s)
    case PopFirst => PopStep(s)
    case EvictBatch => EvictStep(H, s)
    case NextBatch => NextStep(s)
    case ClockAdvance(d) => s.(now := s.now + d)
  }

  function Run(H: Hasher, s: State, events: seq<Event>): State {
    if events == [] then s else Step(H, Run(H, s, events[..|events| - 1]), events[|events| - 1])
  }

  function Initial(now: Time): State {
    State(map[], Ttl(map[], Armed(now + 36000)), Idle, now, multiset{})
  }

  // ---- the invariant ----

  ghost predicate Hashed(H: Hasher, s: State) {
    forall h | h in s.store :: H(s.store[h].key) == h
  }

  ghost predicate Invariant(H: Hasher, s: State) {
    && 1 <= s.now
    && Hashed(H, s)
    && (s.pass == Idle ==> Timely(s.ttl))
    && (s.pass.Evicting? ==> 1 <= s.pass.batch.at)
    && (forall t | t in s.ttl.tree :: 1 <= t && s.ttl.tree[t] != {})
    && (forall p | p in s.pending && p.Add? :: 1 <= p.at)
  }

  lemma InitialInvariant(H: Hasher, now: Time)
    requires 1 <= now
    ensures Invariant(H, Initial(now))
  {
  }

  lemma SetKeeps(H: Hasher, s: State, key: Key, value: seq<byte>, duration: nat, clock: Time)
    requires Invariant(H, s)
    ensures Invariant(H, SetStep(H, s, key, value, duration, clock))
  {
    if H(key) in s.store && s.pass == Idle {
      RemoveTimely(s.ttl, s.store[H(key)].expiry, key);
    }
    hide Timely;
  }

  lemma DelKeeps(H: Hasher, s: State, key: Key)
    requires Invariant(H, s)
    ensures Invariant(H, DelStep(H, s, key))
  {
  }

  lemma FinishSetKeeps(H: Hasher, s: State, at: Time, key: Key)
    requires Invariant(H, s)
    ensures Invariant(H, FinishSetStep(s, at, key))
  {
    if s.pass == Idle {
      PutTimely(s.ttl, at, key);
    }
    hide Timely;
  }

  lemma FinishDelKeeps(H: Hasher, s: State, key: Key, read: Time)
    requires Invariant(H, s)
    ensures Invariant(H, FinishDelStep(s, key, read))
  {
    if s.pass == Idle {
      RemoveTimely(s.ttl, read, key);
    }
    hide Timely;
  }

  lemma TickKeeps(H: Hasher, s: State)
    requires Invariant(H, s)
    ensures Invariant(H, TickStep(s))
  {
  }

  lemma PopKeeps(H: Hasher, s: State)
    requires Invariant(H, s)
    ensures Invariant(H, PopStep(s))
  {
  }

  lemma EvictKeeps(H: Hasher, s: State)
    requires Invariant(H, s)
    ensures Invariant(H, EvictStep(H, s))
  {
  }

  lemma NextKeeps(H: Hasher, s: State)
    requires Invariant(H, s)
    ensures Invariant(H, NextStep(s))
  {
  }

  lemma AdvanceKeeps(H: Hasher, s: State, d: nat)
    requires Invariant(H, s)
    ensures Invariant(H, s.(now := s.now + d))
  {
  }

  lemma StepKeeps(H: Hasher, s: State, e: Event)
    requires Invariant(H, s)
    ensures Invariant(H, Step(H, s, e))
  {
    hide Invariant;
    match e
    case Set(key, value, duration, clock) => SetKeeps(H, s, key, value, duration, clock);
    case Del(key) => DelKeeps(H, s, key);
    case FinishSet(at, key) => FinishSetKeeps(H, s, at, key);
    case FinishDel(key, read) => FinishDelKeeps(H, s, key, read);
    case TimerTick => TickKeeps(H, s);
    case PopFirst => PopKeeps(H, s);
    case EvictBatch => EvictKeeps(H, s);
    case NextBatch => NextKeeps(H, s);
    case ClockAdvance(d) => AdvanceKeeps(H, s, d);
  }

  lemma {:induction false} RunKeeps(H: Hasher, start: Time, events: seq<Event>)
    requires 1 <= start
    ensures Invariant(H, Run(H, Initial(start), events))
  {
    hide Invariant, Step;
    if events == [] {
      InitialInvariant(H, start);
    } else {
      var n := |events| - 1;
      RunKeeps(H, start, events[..n]);
      StepKeeps(H, Run(H, Initial(start), events[..n]), events[n]);
    }
  }

  // ---- which entries are on the books ----

  // Key k is due to be deleted at second t: in the tree, in the batch in
  // flight, or about to be recorded.
  ghost predicate OnBooks(s: State, t: Time, k: Key) {
    || Recorded(s.ttl, t, k)
    || (s.pass.Evicting? && s.pass.batch.at == t && k in s.pass.batch.keys)
    || Add(t, k) in s.pending
  }

  // A live entry that should expire and that nothing will ever delete.
  ghost predicate Stranded(s: State, h: nat) {
    h in s.store && s.store[h].expiry != NO_EXPIRY && !OnBooks(s, s.store[h].expiry, s.store[h].key)
  }

  // A withdrawal that comes late: its key has been set again since the del
  // that owes it, and recorded again, at the second that the withdrawal reads.
  predicate Strands(H: Hasher, s: State, e: Event) {
    && e.FinishDel? && Drop(e.key) in s.pending
    && var h := H(e.key);
       && h in s.store && s.store[h].key == e.key && s.store[h].expiry == e.read && e.read != NO_EXPIRY
       && Add(e.read, e.key) !in s.pending
       && !(s.pass.Evicting? && s.pass.batch.at == e.read && e.key in s.pass.batch.keys)
  }

  // The event puts a new entry under h.
  predicate Renews(H: Hasher, s: State, e: Event, h: nat) {
    e.Set? && 1 <= e.clock <= s.now && H(e.key) == h
  }

  // The hashes whose entry a late withdrawal has taken off the books and that
  // has been neither renewed nor removed since.
  ghost function LateVictims(H: Hasher, start: Time, events: seq<Event>): set<nat> {
    if events == [] then {}
    else
      var n := |events| - 1;
      var s, e := Run(H, Initial(start), events[..n]), events[n];
      var hit := if Strands(H, s, e) then {H(e.key)} else {};
      set h | h in LateVictims(H, start, events[..n]) + hit && h in Step(H, s, e).store && !Renews(H, s, e, h)
  }

  lemma SetStranding(H: Hasher, s: State, key: Key, value: seq<byte>, duration: nat, clock: Time, h: nat)
    requires Invariant(H, s)
    ensures var e := Set(key, value, duration, clock); var after := Step(H, s, e);
            Stranded(after, h) <==> h in after.store && !Renews(H, s, e, h) && Stranded(s, h)
  {
    if H(key) in s.store {
      RemoveRecords(s.ttl, s.store[H(key)].expiry, key);
    }
    hide Recorded, Remove, Timely;
  }

  lemma DelStranding(H: Hasher, s: State, key: Key, h: nat)
    requires Invariant(H, s)
    ensures var after := Step(H, s, Del(key)); Stranded(after, h) <==> h in after.store && Stranded(s, h)
  {
    hide Recorded, Timely;
  }

  lemma FinishSetStranding(s: State, at: Time, key: Key, h: nat)
    ensures Stranded(FinishSetStep(s, at, key), h) <==> Stranded(s, h)
  {
    PutRecords(s.ttl, at, key);
    hide Recorded, TtlSpec.Put;
  }

  lemma FinishDelStranding(H: Hasher, s: State, key: Key, read: Time, h: nat)
    requires Invariant(H, s)
    ensures Stranded(FinishDelStep(s, key, read), h) <==>
            Stranded(s, h) || (Strands(H, s, FinishDel(key, read)) && H(key) == h)
  {
    RemoveRecords(s.ttl, read, key);
    hide Recorded, Remove, Timely;
  }

  lemma TickStranding(H: Hasher, s: State, h: nat)
    ensures Stranded(TickStep(s), h) <==> Stranded(s, h)
    ensures Stranded(PopStep(s), h) <==> Stranded(s, h)
  {
  }

  lemma EvictStranding(H: Hasher, s: State, h: nat)
    requires Invariant(H, s)
    ensures Stranded(EvictStep(H, s), h) <==> h in EvictStep(H, s).store && Stranded(s, h)
  {
    hide Timely, Recorded;
    if s.pass.Evicting? && h in s.store {
      assert s.store[h].key in s.pass.batch.keys ==> Named(H, s.pass.batch.keys, h);
    }
  }

  lemma NextStranding(H: Hasher, s: State, h: nat)
    ensures Stranded(NextStep(s), h) <==> Stranded(s, h)
  {
  }

  lemma StepStranding(H: Hasher, s: State, e: Event, h: nat)
    requires Invariant(H, s)
    ensures var after := Step(H, s, e);
            Stranded(after, h) <==>
              h in after.store && !Renews(H, s, e, h) && (Stranded(s, h) || (Strands(H, s, e) && H(e.key) == h))
  {
    hide Invariant, OnBooks;
    match e
    case Set(key, value, duration, clock) => SetStranding(H, s, key, value, duration, clock, h);
    case Del(key) => DelStranding(H, s, key, h);
    case FinishSet(at, key) => FinishSetStranding(s, at, key, h);
    case FinishDel(key, read) => FinishDelStranding(H, s, key, read, h);
    case TimerTick => TickStranding(H, s, h);
    case PopFirst => TickStranding(H, s, h);
    case EvictBatch => EvictStranding(H, s, h);
    case NextBatch => NextStranding(H, s, h);
    case ClockAdvance(d) => AdvanceStranding(s, d, h);
  }

  lemma AdvanceStranding(s: State, d: nat, h: nat)
    ensures Stranded(s.(now := s.now + d), h) <==> Stranded(s, h)
  {
  }

  // In every reachable state, a live entry that should expire is on the books
  // unless a late withdrawal has struck it.
  lemma {:induction false} OnlyLateWithdrawalsStrand(H: Hasher, start: Time, events: seq<Event>)
    requires 1 <= start
    ensures forall h :: Stranded(Run(H, Initial(start), events), h) <==> h in LateVictims(H, start, events)
  {
    if events != [] {
      var n := |events| - 1;
      var s := Run(H, Initial(start), events[..n]);
      OnlyLateWithdrawalsStrand(H, start, events[..n]);
      RunKeeps(H, start, events[..n]);
      hide Invariant, Step, Stranded, Strands, Renews;
      forall h ensures Stranded(Run(H, Initial(start), events), h) <==> h in LateVictims(H, start, events) {
        StepStranding(H, s, events[n], h);
      }
    }
  }

  // What the goroutine is about to pop, or holds, has expired.
  ghost predicate Punctual(s: State) {
    && (s.pass == Ticked && s.ttl.tree.Keys != {} ==> Min(s.ttl.tree.Keys) <= s.now)
    && (s.pass.Evicting? ==> s.pass.batch.at <= s.now)
  }

  // ---- what the invariant gives in every reachable state ----

  // Once every recorded second lies ahead, no batch is in flight and no set
  // is half done, no expired entry is live except for the late victims.
  lemma NoExpiredEntryIsLive(H: Hasher, start: Time, events: seq<Event>)
    requires 1 <= start
    ensures var s := Run(H, Initial(start), events);
            !s.pass.Evicting? && (forall t | t in s.ttl.tree :: s.now < t) && (forall p | p in s.pending :: p.Drop?) ==>
            forall h | h in s.store ::
              s.store[h].expiry == NO_EXPIRY || s.now < s.store[h].expiry || h in LateVictims(H, start, events)
  {
    OnlyLateWithdrawalsStrand(H, start, events);
    hide Run, LateVictims;
    var s := Run(H, Initial(start), events);
    assert forall h :: h !in LateVictims(H, start, events) ==> !Stranded(s, h);
  }

  // While the goroutine waits, the timer is armed for the earliest second, and
  // some key is recorded for that.
  lemma TimerWatchesEarliest(H: Hasher, start: Time, events: seq<Event>)
    requires 1 <= start
    ensures var s := Run(H, Initial(start), events);
            s.pass == Idle && s.ttl.tree.Keys != {} ==>
              var t := Min(s.ttl.tree.Keys); s.ttl.timer == Armed(t) && exists k :: Recorded(s.ttl, t, k)
  {
    RunKeeps(H, start, events);
    var s := Run(H, Initial(start), events);
    hide Run;
    if s.ttl.tree.Keys != {} {
      var k :| k in s.ttl.tree[Min(s.ttl.tree.Keys)];
      assert Recorded(s.ttl, Min(s.ttl.tree.Keys), k);
    }
  }

  // An entry disappears or changes only because its own slot is set or
  // deleted, or because it expires and the batch in flight is for its second.
  lemma OnlyBatchesEvict(H: Hasher, start: Time, events: seq<Event>, e: Event, h: nat)
    requires 1 <= start
    ensures var s := Run(H, Initial(start), events); var after := Step(H, s, e);
            h in s.store && (h !in after.store || after.store[h] != s.store[h]) ==>
              || (e.Set? && H(e.key) == h)
              || (e.Del? && H(e.key) == h)
              || (e == EvictBatch && s.pass.Evicting? && NO_EXPIRY < s.store[h].expiry == s.pass.batch.at)
  {
    RunKeeps(H, start, events);
    var s := Run(H, Initial(start), events);
    hide Run;
  }

  // A pass goes on exactly when the earliest second is the current one. It then
  // takes all keys recorded for that second and no others; otherwise it ends,
  // every record stays, and the timer waits for the earliest second.
  lemma PassGoesOn(s: State)
    requires s.pass == Looking
    ensures var after := NextStep(s);
            if s.now in s.ttl.tree && forall t | t in s.ttl.tree :: s.now <= t then
              && after.pass.Evicting? && after.pass.batch.at == s.now
              && (forall k :: k in after.pass.batch.keys <==> Recorded(s.ttl, s.now, k))
              && (forall t, k :: Recorded(after.ttl, t, k) <==> Recorded(s.ttl, t, k) && t != s.now)
            else
              && after.pass == Idle
              && (forall t, k :: Recorded(after.ttl, t, k) <==> Recorded(s.ttl, t, k))
              && Timely(after.ttl)
  {
  }

  // A shard nobody uses is ticked for the first time after ten hours.
  lemma FirstTick(H: Hasher, start: Time, seconds: nat)
    ensures Due(Run(H, Initial(start), [ClockAdvance(seconds)])) <==> 10 * 3600 <= seconds
  {
    assert [ClockAdvance(seconds)][..0] == [];
  }

  // Nothing is left to be armed for.
  ghost predicate Spent(s: State) {
    s.pass == Idle && s.ttl.tree.Keys == {} && s.ttl.timer == Off
  }

  // A tick that finds nothing spends the timer, and it stays so until a set is
  // recorded: no tick is received in between.
  lemma TickSpendsTimer(H: Hasher, s: State)
    requires Due(s) && s.ttl.tree.Keys == {}
    ensures Spent(Run(H, s, [TimerTick, PopFirst]))
  {
    assert [TimerTick, PopFirst][..1] == [TimerTick] && [TimerTick][..0] == [];
    assert Run(H, s, [TimerTick]) == TickStep(s);
  }

  lemma {:induction false} SpentUntilNextSet(H: Hasher, s: State, events: seq<Event>)
    requires Spent(s) && forall e | e in events :: !e.FinishSet?
    ensures Spent(Run(H, s, events)) && !Due(Run(H, s, events))
  {
    if events != [] {
      var n := |events| - 1;
      assert events[n] in events && forall e | e in events[..n] :: e in events;
      SpentUntilNextSet(H, s, events[..n]);
      SpentStep(H, Run(H, s, events[..n]), events[n]);
    }
  }

  lemma SpentStep(H: Hasher, s: State, e: Event)
    requires Spent(s) && !e.FinishSet?
    ensures Spent(Step(H, s, e))
  {
    assert forall t | t in s.ttl.tree :: t in s.ttl.tree.Keys;
  }

  // ---- draining ----

  // How much of a pass is left within one batch.
  function Stage(pass: Pass): nat {
    match pass case Idle => 0 case Looking => 1 case Evicting(_) => 2 case Ticked => 3
  }

  // The rest of a pass when nothing else happens.
  function Settle(H: Hasher, s: State): State
    decreases |s.ttl.tree|, Stage(s.pass)
  {
    if s.pass == Idle then s
    else if s.pass == Ticked then
      PopShrinks(s);
      Settle(H, PopStep(s))
    else if s.pass.Evicting? then Settle(H, EvictStep(H, s))
    else
      NextShrinks(s);
      Settle(H, NextStep(s))
  }

  lemma PopShrinks(s: State)
    requires s.pass == Ticked
    ensures PopStep(s).pass == Idle || |PopStep(s).ttl.tree| < |s.ttl.tree|
    ensures |PopStep(s).ttl.tree| <= |s.ttl.tree|
  {
    if s.ttl.tree.Keys != {} {
      Shrinks(s.ttl.tree, Min(s.ttl.tree.Keys));
    }
  }

  lemma NextShrinks(s: State)
    requires s.pass == Looking
    ensures NextStep(s).pass == Idle || |NextStep(s).ttl.tree| < |s.ttl.tree|
  {
    if s.ttl.tree.Keys != {} {
      Shrinks(s.ttl.tree, Min(s.ttl.tree.Keys));
    }
  }

  lemma Shrinks(tree: TimeTree, k: Time)
    requires k in tree
    ensures |tree - {k}| < |tree|
  {
    assert tree == (tree - {k})[k := tree[k]];
  }

  // A due tick that is taken up at once.
  function FirePass(s: State): State {
    PopStep(TickStep(s))
  }

  lemma FirePassShrinks(s: State)
    requires Due(s) && s.ttl.tree.Keys != {}
    ensures FirePass(s).pass.Evicting? && FirePass(s).pass.batch.at == Min(s.ttl.tree.Keys)
    ensures FirePass(s).ttl.tree == s.ttl.tree - {Min(s.ttl.tree.Keys)} && |FirePass(s).ttl.tree| < |s.ttl.tree|
  {
    Shrinks(s.ttl.tree, Min(s.ttl.tree.Keys));
  }

  // Ticks followed to the end of their pass, as long as the timer is due and
  // finds something.
  function Drain(H: Hasher, s: State): State
    decreases |s.ttl.tree|
  {
    if Due(s) && s.ttl.tree.Keys != {} then
      FirePassShrinks(s);
      SettleShrinks(H, FirePass(s));
      Drain(H, Settle(H, FirePass(s)))
    else s
  }

  lemma {:induction false} SettleShrinks(H: Hasher, s: State)
    ensures |Settle(H, s).ttl.tree| <= |s.ttl.tree|
    decreases |s.ttl.tree|, Stage(s.pass)
  {
    if s.pass == Ticked {
      PopShrinks(s);
      SettleShrinks(H, PopStep(s));
    } else if s.pass.Evicting? {
      SettleShrinks(H, EvictStep(H, s));
    } else if s.pass == Looking {
      NextShrinks(s);
      SettleShrinks(H, NextStep(s));
    }
  }

  // Live at s.now: never expires, or not yet.
  ghost predicate Fresh(s: State, h: nat) {
    h in s.store && (s.store[h].expiry == NO_EXPIRY || s.now < s.store[h].expiry)
  }

  // Some key of that hash is due at the entry's second: in the tree or in the
  // batch in flight.
  ghost predicate Booked(H: Hasher, s: State, h: nat) {
    h in s.store &&
    var t := s.store[h].expiry;
    || (t in s.ttl.tree && Named(H, s.ttl.tree[t], h))
    || (s.pass.Evicting? && s.pass.batch.at == t && Named(H, s.pass.batch.keys, h))
  }

  // What eviction alone has done to the entry of h: fresh ones and unbooked
  // ones stay, and what stays is booked as before.
  ghost predicate TrimmedAt(H: Hasher, s: State, t: State, h: nat) {
    && (h in t.store ==> h in s.store && t.store[h] == s.store[h])
    && (Fresh(s, h) ==> h in t.store)
    && (h in s.store && !Booked(H, s, h) ==> h in t.store)
    && (h in t.store ==> (Booked(H, t, h) <==> Booked(H, s, h)))
  }

  ghost predicate Trimmed(H: Hasher, s: State, t: State) {
    && t.now == s.now
    && t.ttl.tree.Keys <= s.ttl.tree.Keys
    && forall h :: TrimmedAt(H, s, t, h)
  }

  lemma TrimmedTwice(H: Hasher, s: State, t: State, u: State)
    requires Trimmed(H, s, t) && Trimmed(H, t, u)
    ensures Trimmed(H, s, u)
  {
    hide Booked;
    forall h ensures TrimmedAt(H, s, u, h) {
      assert TrimmedAt(H, s, t, h) && TrimmedAt(H, t, u, h);
    }
  }

  lemma TrimmedNot(H: Hasher, s: State)
    ensures Trimmed(H, s, s)
  {
    hide Booked;
  }

  lemma EvictTrims(H: Hasher, s: State)
    requires Invariant(H, s) && Punctual(s)
    ensures Trimmed(H, s, EvictStep(H, s))
  {
    hide Timely, Named;
  }

  lemma NextTrims(H: Hasher, s: State)
    requires s.pass == Looking
    ensures Trimmed(H, s, NextStep(s))
  {
    hide Named;
  }

  lemma PopTrims(H: Hasher, s: State)
    ensures Trimmed(H, s, PopStep(s))
  {
    hide Named;
  }

  lemma TickTrims(H: Hasher, s: State)
    ensures Trimmed(H, s, TickStep(s))
  {
    hide Named;
  }

  lemma {:induction false} SettleTrims(H: Hasher, s: State)
    requires Invariant(H, s) && Punctual(s)
    ensures Invariant(H, Settle(H, s)) && Trimmed(H, s, Settle(H, s)) && Settle(H, s).pass == Idle
    decreases |s.ttl.tree|, Stage(s.pass)
  {
    hide Invariant, Trimmed;
    if s.pass == Ticked {
      PopShrinks(s);
      PopKeeps(H, s);
      PopTrims(H, s);
      SettleTrims(H, PopStep(s));
      TrimmedTwice(H, s, PopStep(s), Settle(H, s));
    } else if s.pass.Evicting? {
      EvictKeeps(H, s);
      EvictTrims(H, s);
      SettleTrims(H, EvictStep(H, s));
      TrimmedTwice(H, s, EvictStep(H, s), Settle(H, s));
    } else if s.pass == Looking {
      NextShrinks(s);
      NextKeeps(H, s);
      NextTrims(H, s);
      assert Punctual(NextStep(s));
      hide NextStep;
      SettleTrims(H, NextStep(s));
      TrimmedTwice(H, s, NextStep(s), Settle(H, s));
    } else {
      TrimmedNot(H, s);
    }
  }

  lemma FiresPunctually(H: Hasher, s: State)
    requires Invariant(H, s) && Due(s)
    ensures Punctual(TickStep(s)) && Punctual(FirePass(s))
  {
  }

  // Every pass that starts on time removes a recorded second that has come.
  lemma PassProgress(H: Hasher, s: State)
    requires Invariant(H, s) && Due(s) && s.ttl.tree.Keys != {}
    ensures Overdue(Settle(H, FirePass(s))) < Overdue(s)
  {
    var k, t := Min(s.ttl.tree.Keys), Settle(H, FirePass(s));
    TickKeeps(H, s);
    PopKeeps(H, TickStep(s));
    FirePassShrinks(s);
    SettleTrims(H, FirePass(s));
    hide Settle;
    assert k in Overdue(s) && k !in t.ttl.tree.Keys;
    assert forall j | j in Overdue(t) :: j in s.ttl.tree.Keys;
  }

  function Overdue(s: State): set<Time> {
    set k | k in s.ttl.tree.Keys && k <= s.now
  }

  // With no new operations, draining leaves exactly the entries that have no
  // expiry, whose second lies ahead, or that are not on the books; and nothing
  // on the books for the past.
  lemma DrainExact(H: Hasher, s: State)
    requires Invariant(H, s) && s.pass == Idle
    ensures var d := Drain(H, s);
            && Invariant(H, d) && d.pass == Idle
            && d.store == (map h | h in s.store && (Fresh(s, h) || !Booked(H, s, h)) :: s.store[h])
            && forall k | k in d.ttl.tree :: d.now < k
  {
    DrainTrims(H, s);
    var d := Drain(H, s);
    hide Drain;
    assert forall k | k in d.ttl.tree :: d.now < k;
    hide Named;
    forall h ensures h in d.store <==> h in s.store && (Fresh(s, h) || !Booked(H, s, h)) {
      assert TrimmedAt(H, s, d, h);
    }
    forall h | h in d.store ensures h in s.store && d.store[h] == s.store[h] {
      assert TrimmedAt(H, s, d, h);
    }
  }

  lemma {:induction false} DrainTrims(H: Hasher, s: State)
    requires Invariant(H, s) && s.pass == Idle
    ensures Invariant(H, Drain(H, s)) && Trimmed(H, s, Drain(H, s)) && Drain(H, s).pass == Idle
    ensures !Due(Drain(H, s)) || Drain(H, s).ttl.tree.Keys == {}
    decreases |s.ttl.tree|
  {
    hide Invariant, Trimmed;
    if Due(s) && s.ttl.tree.Keys != {} {
      var t := FirePass(s);
      FirePassShrinks(s);
      FiresPunctually(H, s);
      TickKeeps(H, s);
      PopKeeps(H, TickStep(s));
      TickTrims(H, s);
      PopTrims(H, TickStep(s));
      TrimmedTwice(H, s, TickStep(s), t);
      SettleShrinks(H, t);
      SettleTrims(H, t);
      hide Settle;
      DrainTrims(H, Settle(H, t));
      TrimmedTwice(H, s, t, Settle(H, t));
      TrimmedTwice(H, s, Settle(H, t), Drain(H, s));
    } else {
      TrimmedNot(H, s);
    }
  }

  // Whatever a pass starts with, no second that it leaves for earliest is the
  // current one, and the timer waits for the earliest.
  lemma {:induction false} PassTakesItsSecond(H: Hasher, s: State)
    requires s.pass == Looking || s.pass.Evicting?
    ensures Settle(H, s).pass == Idle && Timely(Settle(H, s).ttl)
    ensures Settle(H, s).ttl.tree.Keys != {} ==> Min(Settle(H, s).ttl.tree.Keys) != s.now
    decreases |s.ttl.tree|, Stage(s.pass)
  {
    if s.pass.Evicting? {
      PassTakesItsSecond(H, EvictStep(H, s));
    } else {
      NextShrinks(s);
      if NextStep(s).pass.Evicting? {
        PassTakesItsSecond(H, NextStep(s));
      }
    }
  }
}
