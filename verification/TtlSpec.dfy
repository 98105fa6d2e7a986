// The expiry table as a value: which keys expire at which second, and when
// the one timer fires. TtlManager.dfy is proved against these functions.
module TtlSpec {
  import opened KeyedBlob
  import opened Results

  type Time = nat
  type TimeTree = map<Time, set<Key>>

  // Armed also stands for a timer that has fired and whose tick is waiting.
  datatype Timer = Off | Armed(at: Time)

  datatype Ttl = Ttl(tree: TimeTree, timer: Timer)

  predicate IsMin(s: set<Time>, k: Time) {
    k in s && forall j | j in s :: k <= j
  }

  // The first key in tree order.
  function Min(s: set<Time>): (k: Time)
    requires s != {}
    ensures IsMin(s, k)
  {
    SomeMin(s);
    var k :| k in s && IsMin(s, k);
    k
  }

  lemma {:induction false} SomeMin(s: set<Time>)
    requires s != {}
    ensures exists k :: k in s && IsMin(s, k)
    decreases |s|
  {
    var x :| x in s;
    if x' :| x' in s && x' < x {
      SomeMin(s - {x});
      var r :| r in s - {x} && IsMin(s - {x}, r);
      assert x' in s - {x} && forall j | j in s :: j == x || j in s - {x};
      assert IsMin(s, r);
    } else {
      assert IsMin(s, x);
    }
  }

  function Put(t: Ttl, timestamp: Time, key: Key): Ttl {
    if timestamp in t.tree then
      t.(tree := t.tree[timestamp := t.tree[timestamp] + {key}])
    else
      var tree := t.tree[timestamp := {key}];
      assert timestamp in tree.Keys;
      Ttl(tree, if Min(tree.Keys) == timestamp then Armed(timestamp) else t.timer)
  }

  function Remove(t: Ttl, timestamp: Time, key: Key): Ttl {
    if timestamp !in t.tree then t
    else if t.tree[timestamp] - {key} != {} then
      t.(tree := t.tree[timestamp := t.tree[timestamp] - {key}])
    else
      var tree := t.tree - {timestamp};
      Ttl(tree, if Min(t.tree.Keys) == timestamp && tree.Keys != {} then Armed(Min(tree.Keys)) else t.timer)
  }

  // What the eviction goroutine takes out of the tree to delete.
  datatype Batch = Batch(at: Time, keys: set<Key>)

  function Popped(t: Ttl): (Ttl, Batch)
    requires t.tree.Keys != {}
  {
    var k := Min(t.tree.Keys);
    (t.(tree := t.tree - {k}), Batch(k, t.tree[k]))
  }

  // The tick is received: the timer has done its work.
  function Fired(t: Ttl): Ttl {
    t.(timer := Off)
  }

  // The first batch of a pass is taken whatever the clock says.
  function First(t: Ttl): (Ttl, Option<Batch>) {
    if t.tree.Keys == {} then (t, None)
    else var (u, batch) := Popped(t); (u, Some(batch))
  }

  // The rest of the pass: further batches only for the current second.
  function Next(t: Ttl, now: Time): (Ttl, Option<Batch>) {
    if t.tree.Keys == {} then (t, None)
    else
      var k := Min(t.tree.Keys);
      if k == now then var (u, batch) := Popped(t); (u, Some(batch))
      else (t.(timer := Armed(k)), None)
  }

  // Whenever something is left to expire, the timer waits for the earliest.
  ghost predicate Timely(t: Ttl) {
    t.tree.Keys != {} ==> t.timer == Armed(Min(t.tree.Keys))
  }

  lemma PutTimely(t: Ttl, timestamp: Time, key: Key)
    requires Timely(t)
    ensures Timely(Put(t, timestamp, key))
  {
    var u := Put(t, timestamp, key);
    if timestamp in t.tree {
      assert u.tree.Keys == t.tree.Keys;
    } else {
      assert u.tree.Keys == t.tree.Keys + {timestamp};
    }
  }

  lemma RemoveTimely(t: Ttl, timestamp: Time, key: Key)
    requires Timely(t)
    ensures Timely(Remove(t, timestamp, key))
  {
    var u := Remove(t, timestamp, key);
    if timestamp in t.tree && t.tree[timestamp] - {key} == {} {
      assert u.tree.Keys == t.tree.Keys - {timestamp};
      if u.tree.Keys != {} && Min(t.tree.Keys) != timestamp {
        assert Min(t.tree.Keys) in u.tree.Keys;
      }
    } else {
      assert u.tree.Keys == t.tree.Keys;
    }
  }

  // Recorded(t, s, k): the table will expire key k at second s.
  ghost predicate Recorded(t: Ttl, s: Time, k: Key) {
    s in t.tree && k in t.tree[s]
  }

  // Putting and removing are each other's inverse on the records, and touch
  // no other record.
  lemma PutRecords(t: Ttl, timestamp: Time, key: Key)
    ensures forall s, k :: Recorded(Put(t, timestamp, key), s, k) <==> Recorded(t, s, k) || (s == timestamp && k == key)
  {
  }

  lemma RemoveRecords(t: Ttl, timestamp: Time, key: Key)
    ensures forall s, k ::
              Recorded(Remove(t, timestamp, key), s, k) <==> Recorded(t, s, k) && !(s == timestamp && k == key)
  {
    if timestamp in t.tree && t.tree[timestamp] - {key} == {} {
      assert forall k | k in t.tree[timestamp] :: k == key || k in t.tree[timestamp] - {key};
    }
  }

  // Of all records only those of one key have changed: it has left one second
  // and come to another.
  ghost predicate OnlyMoves(before: Ttl, after: Ttl, key: Key, from: Option<Time>, to: Option<Time>) {
    forall t: Time, k :: Recorded(after, t, k) <==>
                         (to == Some(t) && k == key) || (Recorded(before, t, k) && !(from == Some(t) && k == key))
  }

  // ---- the timer's arithmetic ----

  const SECOND := 1_000_000_000

  // The longest difference that still fits a signed 64-bit count of
  // nanoseconds, about 292 years.
  const REACH := 9_223_372_036

  function ToUint64(n: int): nat {
    n % 0x1_0000_0000_0000_0000
  }

  function ToInt64(n: int): int {
    var m := n % 0x1_0000_0000_0000_0000;
    if m < 0x8000_0000_0000_0000 then m else m - 0x1_0000_0000_0000_0000
  }

  // time.Second * time.Duration(timeStamp - uint64(now)), in 64 bits.
  function TimerDuration(timeStamp: Time, now: Time): int {
    ToInt64(SECOND * ToInt64(ToUint64(timeStamp - now)))
  }

  predicate Near(timeStamp: Time, now: Time) {
    -REACH <= timeStamp - now <= REACH
  }

  // The unsigned difference read back as signed is the true distance, so the
  // timer gets exactly the time left, negative when it is already past.
  lemma DurationExact(timeStamp: Time, now: Time)
    requires timeStamp < 0x8000_0000_0000_0000 && now < 0x8000_0000_0000_0000
    ensures TimerDuration(timeStamp, now) == SECOND * (timeStamp - now) <==> Near(timeStamp, now)
  {
    var d := timeStamp - now;
    assert ToInt64(ToUint64(d)) == d;
    if Near(timeStamp, now) {
      assert -0x8000_0000_0000_0000 <= SECOND * d < 0x8000_0000_0000_0000;
    }
  }

  // With the clock read in nanoseconds and cut to seconds, a timer for a
  // future second fires in that second or at its end, never before.
  lemma FiresInItsSecond(timeStamp: Time, nowNs: nat)
    requires timeStamp < 0x8000_0000_0000_0000 && nowNs / SECOND < 0x8000_0000_0000_0000
    requires Near(timeStamp, nowNs / SECOND) && nowNs / SECOND <= timeStamp
    ensures var fires := nowNs + TimerDuration(timeStamp, nowNs / SECOND);
            SECOND * timeStamp <= fires < SECOND * (timeStamp + 1)
  {
    DurationExact(timeStamp, nowNs / SECOND);
  }
}
