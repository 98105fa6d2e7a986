// Whole runs of a shard with its expiry table, its clients and its eviction
// goroutine. The concrete objects are driven by any sequence of events and
// end in the state that the step system of ExpirySystem.dfy computes.
module ShardRun {
  import opened KeyedBlob
  import opened Encoding
  import opened Results
  import opened TtlSpec
  import opened ExpirySystem
  import opened ExpiryClients
  import opened ShardIndex
  import opened Layouts
  import opened BytesQueues
  import opened CacheQueue
  import opened Shards

  // The integers of the source carry the step: the clock and all recorded
  // seconds are within reach of a 64-bit timer, and an entry can be encoded.
  predicate Carried(H: Hasher, now: Time, tree: TimeTree, e: Event) {
    && now < 0x4000_0000_0000_0000 && (forall t | t in tree :: Near(t, now))
    && (e.Set? ==> && e.duration < 0x8000_0000_0000_0000 && H(e.key) < 0x1_0000_0000_0000_0000
                   && |e.key| <= MAX_KEY_LENGTH && Readable(Entry(NO_EXPIRY, e.key, e.value)))
    && (e.FinishSet? ==> Near(e.at, now))
  }

  // What stands for the abstract state: the shard, where the goroutine is, the
  // clock, and what the clients still have to do.
  ghost function StateOf(shard: Shard, pass: Pass, now: Time, pending: multiset<Pending>): State
    reads shard, shard.ttlTable
  {
    State(shard.store, shard.ttlTable.View(), pass, now, pending)
  }

  // How an event or a run ends: done, before a step that the integers of the
  // source do not carry, with a set that finds no room and leaves the shard
  // locked, or with a set at an index that does not fit the slot.
  datatype Ending = Done | Uncarried | Blocked | Overflowed(index: int)

  // The queue has no room for the entry under the capacity limit.
  ghost predicate NoRoomFor(shard: Shard, e: Event)
    requires e.Set?
    reads shard, shard.entries, shard.entries.freelist
  {
    !CanHold(shard.entries.View(), HEADER_ENTRY_SIZE + HEADERS_SIZE_IN_BYTES + |e.key| + |e.value|,
             shard.entries.maxCapacity)
  }

  // The slot of the entry's hash holds an index cut to 32 bits.
  ghost predicate CutSlot(shard: Shard, e: Event, index: int)
    requires e.Set?
    reads shard, shard.entries
  {
    && UINT32_LIMIT <= index && index in shard.entries.live
    && shard.hasher(e.key) in shard.hashmap && shard.hashmap[shard.hasher(e.key)] == index % UINT32_LIMIT
  }

  // The locked part of a set.
  method PerformSet(shard: Shard, now: Time, pending: multiset<Pending>, e: Event)
    returns (end: Ending, more: multiset<Pending>)
    requires shard.Valid() && e.Set? && 1 <= e.clock <= now
    requires Carried(shard.hasher, now, shard.ttlTable.timeTree, e)
    modifies shard.Repr
    ensures shard.Owned() && old(shard.Repr) <= shard.Repr && fresh(shard.Repr - old(shard.Repr)) && end != Uncarried
    ensures end == Blocked ==> shard.locked && NoRoomFor(shard, e)
    ensures end.Overflowed? ==> CutSlot(shard, e, end.index)
    ensures shard.WithinLimit(old(shard.entries.capacity)) ==> shard.WithinLimit(shard.entries.capacity)
    ensures end == Done ==> shard.Valid()
    ensures forall pass | end == Done ::
              StateOf(shard, pass, now, more) ==
                old(SetStep(shard.hasher, StateOf(shard, pass, now, pending), e.key, e.value, e.duration, e.clock))
  {
    hide BytesQueue.Valid, Linked, Withdrawn, Shard.WithoutSlot, CanHold, Wrapped, Kept, MustGrow;
    var expiry := Expiry(e.clock, e.duration);
    var hashedKey := shard.hasher(e.key);
    KeptBytes(hashedKey, Entry(expiry, e.key, e.value));
    var ok, index := shard.SetLocked(e.key, hashedKey, e.value, expiry, now);
    LiveKeys(shard.entries);
    more := if e.duration != 0 then pending + multiset{Add(expiry, e.key)} else pending;
    end := if !ok then Blocked else if UINT32_LIMIT <= index then Overflowed(index) else Done;
  }

  method Perform(shard: Shard, pass: Pass, now: Time, pending: multiset<Pending>, e: Event)
    returns (end: Ending, pass': Pass, now': Time, pending': multiset<Pending>)
    requires shard.Valid() && Carried(shard.hasher, now, shard.ttlTable.timeTree, e)
    modifies shard.Repr
    ensures shard.Owned() && old(shard.Repr) <= shard.Repr && fresh(shard.Repr - old(shard.Repr)) && end != Uncarried
    ensures end == Blocked ==> e.Set? && shard.locked && NoRoomFor(shard, e)
    ensures end.Overflowed? ==> e.Set? && CutSlot(shard, e, end.index)
    ensures shard.WithinLimit(old(shard.entries.capacity)) ==> shard.WithinLimit(shard.entries.capacity)
    ensures end == Done ==> shard.Valid() && StateOf(shard, pass', now', pending') ==
                                             Step(shard.hasher, old(StateOf(shard, pass, now, pending)), e)
  {
    hide BytesQueue.Valid, Linked, Evicted, TtlSpec.Put, TtlSpec.Remove, First, Next, Withdrawn, Shard.WithoutSlot,
         Readable, NoRoomFor, CutSlot;
    end, pass', now', pending' := Done, pass, now, pending;
    match e
    case Set(key, value, duration, clock) =>
      if 1 <= clock <= now {
        end, pending' := PerformSet(shard, now, pending, e);
      }
    case Del(key) =>
      var second := shard.DelLocked(shard.hasher(key));
      pending' := if second.Ok? then pending + multiset{Drop(key)} else pending;
      assert second.Err? ==> shard.store == old(shard.store);
    case FinishSet(at, key) =>
      if Add(at, key) in pending {
        shard.ttlTable.Put(at, key, now);
        pending' := pending - multiset{Add(at, key)};
      }
    case FinishDel(key, read) =>
      if Drop(key) in pending {
        shard.ttlTable.Remove(read, key, now);
        pending' := pending - multiset{Drop(key)};
      }
    case TimerTick =>
      if pass == Idle && shard.ttlTable.timer.Armed? && shard.ttlTable.timer.at <= now {
        shard.ttlTable.OnTick();
        pass' := Ticked;
      }
    case PopFirst =>
      if pass == Ticked {
        var batch := shard.ttlTable.OnFirst();
        pass' := if batch.Some? then Evicting(batch.value) else Idle;
      }
    case EvictBatch =>
      if pass.Evicting? {
        shard.EvictDel(pass.batch.at, pass.batch.keys);
        pass' := Looking;
      }
    case NextBatch =>
      if pass == Looking {
        var batch := shard.ttlTable.OnNext(now);
        pass' := if batch.Some? then Evicting(batch.value) else Idle;
      }
    case ClockAdvance(d) =>
      now' := now + d;
  }

  // The undivided set, for an entry that can be encoded.
  method SetEncodable(shard: Shard, key: Key, value: seq<byte>, duration: nat, clock: Time)
    returns (end: Ending)
    requires shard.Valid() && shard.ttlTable.InReach(clock)
    requires Carried(shard.hasher, clock, shard.ttlTable.timeTree, Set(key, value, duration, clock))
    modifies shard.Repr
    ensures end == Done || (end == Blocked && shard.locked)
            || (end.Overflowed? && CutSlot(shard, Set(key, value, duration, clock), end.index))
    ensures end == Done ==>
              var h, expiry := shard.hasher(key), Expiry(clock, duration);
              && shard.Valid() && shard.store == old(shard.store)[h := Entry(expiry, key, value)]
              && shard.ttlTable.View() ==
                 Registered(old(shard.ttlTable.View()), old(shard.store), key, h, expiry, duration)
  {
    hide BytesQueue.Valid, Linked, Registered, Withdrawn, Shard.WithoutSlot, CanHold, EntryBytes, Kept,
         Rebooks, SecondOf, Timely;
    var hashedKey := shard.hasher(key);
    KeptBytes(hashedKey, Entry(Expiry(clock, duration), key, value));
    var r, index := shard.Set(key, hashedKey, value, duration, clock);
    LiveKeys(shard.entries);
    end := if shard.locked then Blocked else if UINT32_LIMIT <= index then Overflowed(index) else Done;
  }

  // The undivided methods lead the shard where a whole call leads the step
  // system, so that what holds of runs of whole calls holds of them.
  method SetWhole(shard: Shard, ghost pass: Pass, ghost pending: multiset<Pending>, key: Key, value: seq<byte>,
                  duration: nat, clock: Time, ghost now: Time)
    returns (end: Ending)
    requires shard.Valid() && 1 <= clock <= now && shard.ttlTable.InReach(clock) && Add(NO_EXPIRY, key) !in pending
    requires Carried(shard.hasher, clock, shard.ttlTable.timeTree, Set(key, value, duration, clock))
    modifies shard.Repr
    ensures end == Done || (end == Blocked && shard.locked)
            || (end.Overflowed? && CutSlot(shard, Set(key, value, duration, clock), end.index))
    ensures end == Done ==>
              && shard.Valid()
              && StateOf(shard, pass, now, pending) ==
                 old(Run(shard.hasher, StateOf(shard, pass, now, pending),
                         EventsOf(SetCall(key, value, duration, clock))))
  {
    hide Shard.Valid, Shard.Owned, Carried, Run, Registered, EventsOf, CutSlot;
    SetCallLeads(shard.hasher, StateOf(shard, pass, now, pending), key, value, duration, clock);
    end := SetEncodable(shard, key, value, duration, clock);
  }

  method DelWhole(shard: Shard, ghost pass: Pass, ghost pending: multiset<Pending>, key: Key, clock: Time,
                  ghost now: Time)
    returns (r: Result<()>)
    requires shard.Valid() && shard.ttlTable.InReach(clock) && Drop(key) !in pending
    modifies shard.Repr
    ensures shard.Valid()
    ensures var before := old(StateOf(shard, pass, now, pending));
            var read := if shard.hasher(key) in before.store then before.store[shard.hasher(key)].expiry else NO_EXPIRY;
            StateOf(shard, pass, now, pending) == Run(shard.hasher, before, EventsOf(DelCall(key, read)))
  {
    hide BytesQueue.Valid, Linked, Withdrawn, Run, OnlyMoves, SecondOf, Timely;
    DelCallLeads(shard.hasher, StateOf(shard, pass, now, pending), key);
    r := shard.Del(key, shard.hasher(key), clock);
  }

  // Any events, on a shard of any capacity and limit, lead where the step
  // system says, up to one of the other endings.
  method RunShard(H: Hasher, start: Time, capacity: nat, maxCapacity: int, bufferSize: nat, events: seq<Event>)
    returns (shard: Shard, done: nat, end: Ending, ghost s: State)
    ensures fresh(shard.Repr) && shard.Owned() && shard.hasher == H && done <= |events|
    ensures shard.entries.maxCapacity == maxCapacity && s == Run(H, Initial(start), events[..done])
    ensures end == Done || end == Uncarried ==>
              shard.Valid() && shard.store == s.store && shard.ttlTable.View() == s.ttl
    ensures match end
            case Done => done == |events|
            case Uncarried => done < |events| && !Carried(H, s.now, s.ttl.tree, events[done])
            case Blocked => done < |events| && events[done].Set? && shard.locked && NoRoomFor(shard, events[done])
            case Overflowed(index) => done < |events| && events[done].Set? && CutSlot(shard, events[done], index)
    ensures 0 < maxCapacity && capacity <= maxCapacity ==> shard.entries.capacity <= maxCapacity
  {
    hide BytesQueue.Valid, Linked, Step, Carried, NoRoomFor, CutSlot;
    shard := new Shard(capacity, maxCapacity, bufferSize, H, start);
    var pass, now, pending: multiset<Pending> := Idle, start, multiset{};
    done, end, s := 0, Done, Initial(start);
    while done < |events|
      invariant shard.Valid() && fresh(shard.Repr) && shard.hasher == H && shard.entries.maxCapacity == maxCapacity
      invariant 0 <= done <= |events| && end == Done && s == Run(H, Initial(start), events[..done])
      invariant StateOf(shard, pass, now, pending) == s
      invariant 0 < maxCapacity && capacity <= maxCapacity ==> shard.entries.capacity <= maxCapacity
    {
      var e := events[done];
      assert events[..done + 1][..done] == events[..done];
      if !Carried(H, now, shard.ttlTable.timeTree, e) {
        end := Uncarried;
        return;
      }
      var pass', now', pending';
      end, pass', now', pending' := Perform(shard, pass, now, pending, e);
      if end != Done {
        return;
      }
      s := Step(H, s, e);
      done, pass, now, pending := done + 1, pass', now', pending';
    }
  }

  // After any run a shard that a set has neither blocked nor cut answers a
  // lookup as the plain map of the step system does, and has its size.
  method RunAndGet(H: Hasher, start: Time, capacity: nat, maxCapacity: int, bufferSize: nat, events: seq<Event>,
                   key: Key)
    returns (shard: Shard, done: nat, end: Ending, answer: Result<seq<byte>>, size: nat)
    ensures done <= |events| && shard.Owned() && shard.hasher == H && shard.entries.maxCapacity == maxCapacity
    ensures var s := Run(H, Initial(start), events[..done]);
            match end
            case Done => done == |events| && answer == Lookup(s.store, key, H(key)) && size == |s.store|
            case Uncarried =>
              && done < |events| && !Carried(H, s.now, s.ttl.tree, events[done])
              && answer == Lookup(s.store, key, H(key)) && size == |s.store|
            case Blocked => done < |events| && events[done].Set? && shard.locked && NoRoomFor(shard, events[done])
            case Overflowed(index) => done < |events| && events[done].Set? && CutSlot(shard, events[done], index)
  {
    hide Run, Carried, Shard.Valid, Shard.Owned, Step, NoRoomFor, CutSlot;
    ghost var s;
    shard, done, end, s := RunShard(H, start, capacity, maxCapacity, bufferSize, events);
    if end != Done && end != Uncarried {
      return shard, done, end, Err(EntryNotFound), 0;
    }
    answer := shard.Get(key, H(key));
    size := shard.Len();
  }

  // An entry as long as the capacity limit is refused by every shard. The set
  // returns 0, as if it had stored an entry without expiry, and leaves the
  // shard locked for ever; the slot of an earlier entry under that hash is left
  // behind, pointing at a block that is gone.
  method OversizedSet(shard: Shard, key: Key, value: seq<byte>, duration: nat, now: Time) returns (r: Time)
    requires shard.Valid() && shard.ttlTable.InReach(now) && duration < 0x8000_0000_0000_0000
    requires shard.hasher(key) < 0x1_0000_0000_0000_0000
    requires 0 < shard.entries.maxCapacity <= HEADER_ENTRY_SIZE + HEADERS_SIZE_IN_BYTES + |key| + |value|
    requires shard.WithinLimit(shard.entries.capacity)
    modifies shard.Repr
    ensures r == NO_EXPIRY && shard.locked && shard.Owned() && shard.hashmap == old(shard.hashmap)
    ensures var h := shard.hasher(key); h in shard.hashmap ==> shard.hashmap[h] !in shard.entries.Payloads()
  {
    hide BytesQueue.Valid, BytesQueue.Payloads, Linked, LimitReached, Fits, Wrapped;
    NoRoom(shard, shard.hasher(key), HEADER_ENTRY_SIZE + HEADERS_SIZE_IN_BYTES + |key| + |value|);
    var index;
    r, index := shard.Set(key, shard.hasher(key), value, duration, now);
  }

  lemma NoRoom(shard: Shard, h: nat, n: int)
    requires shard.Valid() && 0 < shard.entries.maxCapacity <= n && HEADER_ENTRY_SIZE <= n
    requires shard.WithinLimit(shard.entries.capacity)
    ensures !CanHold(shard.WithoutSlot(h), n, shard.entries.maxCapacity)
  {
    SoundOf(shard.entries);
    hide BytesQueue.Valid, Linked, Sound, LimitReached, Fits;
    var l := shard.entries.View();
    if h in shard.hashmap && shard.hashmap[h] in shard.entries.live {
      DeletedSound(l, shard.hashmap[h]);
    }
    TooBig(shard.WithoutSlot(h), n, shard.entries.maxCapacity);
  }

  // Such a shard and such a set: an entry is stored, then replaced by one that
  // does not fit, and its slot is left behind.
  method RefusedSet(H: Hasher, key: Key, value: seq<byte>, now: Time) returns (shard: Shard, r: Time)
    requires |key| <= 100 && |value| == 300 && H(key) < 0x1_0000_0000_0000_0000 && now < 0x4000_0000_0000_0000
    ensures r == NO_EXPIRY && shard.locked
    ensures shard.Owned() && H(key) in shard.hashmap && shard.hashmap[H(key)] !in shard.entries.Payloads()
  {
    hide BytesQueue.Valid, Linked, Wrapped, Kept;
    shard := new Shard(200, 200, 0, H, now);
    var index;
    r, index := shard.Set(key, H(key), [], 0, now);
    r := OversizedSet(shard, key, value, 0, now);
  }
}
