// bigcache/ttl.go: the expiry table of one shard. Every method is one section
// that the source runs under the tree lock.
module TtlManagers {
  import opened KeyedBlob
  import opened Results
  import opened TtlSpec

  class TtlManager {
    var timeTree: TimeTree
    var timer: Timer

    ghost function View(): Ttl
      reads this
    {
      Ttl(timeTree, timer)
    }

    // No recorded second is further than the timer can count from now.
    ghost predicate InReach(now: Time)
      reads this
    {
      now < 0x4000_0000_0000_0000 && forall s | s in timeTree :: Near(s, now)
    }

    // The source arms a ten hour timer that finds an empty tree.
    constructor (now: Time)
      ensures View() == Ttl(map[], Armed(now + 36000))
    {
      timeTree := map[];
      timer := Armed(now + 36000);
    }

    // Stops, drains and restarts the timer; `now` is what the clock reads.
    method ResetTimer(timeStamp: Time, now: Time)
      requires Near(timeStamp, now) && now < 0x4000_0000_0000_0000
      modifies this`timer
      ensures timer == Armed(timeStamp)
    {
      DurationExact(timeStamp, now);
      var duration := TimerDuration(timeStamp, now);
      hide TimerDuration;
      timer := Armed(now + duration / SECOND);
    }

    method Put(timestamp: Time, cacheKey: Key, now: Time)
      requires Near(timestamp, now) && now < 0x4000_0000_0000_0000
      modifies this
      ensures View() == TtlSpec.Put(old(View()), timestamp, cacheKey)
    {
      if timestamp in timeTree {
        timeTree := timeTree[timestamp := timeTree[timestamp] + {cacheKey}];
        return;
      }
      timeTree := timeTree[timestamp := {cacheKey}];
      assert timestamp in timeTree.Keys;
      if |timeTree| == 1 {
        assert timeTree.Keys == {timestamp} by { Singleton(timeTree.Keys, timestamp); }
        ResetTimer(timestamp, now);
        return;
      }
      if Min(timeTree.Keys) == timestamp {
        ResetTimer(timestamp, now);
      }
    }

    method Remove(timestamp: Time, key: Key, now: Time)
      requires InReach(now)
      modifies this
      ensures View() == TtlSpec.Remove(old(View()), timestamp, key)
    {
      if timestamp in timeTree {
        var keys := timeTree[timestamp] - {key};
        if keys == {} {
          if Min(timeTree.Keys) == timestamp {
            timeTree := timeTree - {timestamp};
            if timeTree.Keys != {} {
              ResetTimer(Min(timeTree.Keys), now);
            }
            return;
          }
          timeTree := timeTree - {timestamp};
        } else {
          timeTree := timeTree[timestamp := keys];
        }
      }
    }

    // The eviction goroutine receives a tick. It does not hold the lock yet.
    method OnTick()
      modifies this`timer
      ensures View() == Fired(old(View()))
    {
      timer := Off;
    }

    // Its first locked section after the tick.
    method OnFirst() returns (batch: Option<Batch>)
      modifies this
      ensures (View(), batch) == First(old(View()))
    {
      if |timeTree| < 1 {
        return None;
      }
      assert timeTree.Keys != {};
      var key := Min(timeTree.Keys);
      batch := Some(Batch(key, timeTree[key]));
      timeTree := timeTree - {key};
    }

    // One round of the inner loop of the eviction goroutine.
    method OnNext(now: Time) returns (batch: Option<Batch>)
      requires InReach(now)
      modifies this
      ensures (View(), batch) == Next(old(View()), now)
    {
      if |timeTree| < 1 {
        return None;
      }
      assert timeTree.Keys != {};
      var key := Min(timeTree.Keys);
      var interval := ToUint64(key - now);
      if 0 == interval {
        batch := Some(Batch(key, timeTree[key]));
        timeTree := timeTree - {key};
      } else {
        ResetTimer(key, now);
        batch := None;
      }
    }
  }

  lemma Singleton(s: set<Time>, x: Time)
    requires |s| == 1 && x in s
    ensures s == {x}
  {
    assert |s - {x}| == 0;
  }
}
