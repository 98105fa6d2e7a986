// How an expiry travels: the receiver of a PUT turns the absolute second back
// into a duration and stores with its own clock (handlePut in
// Cluster/remoteNode.go, set in bigcache/shard.go).
module ReplicatedExpiry {
  import opened TtlSpec
  import opened ExpirySystem

  // The receiver's two clock readings in nanoseconds, and what its processor
  // makes of a negative number of seconds as an unsigned one: the language
  // leaves that open.
  datatype Reading = Reading(readNs: nat, storeNs: nat, converted: nat)

  const MAX_DURATION := 0x7FFF_FFFF_FFFF_FFFF

  // A difference of times as a 64-bit count of nanoseconds; it saturates.
  function Saturated(n: int): int {
    if n > MAX_DURATION then MAX_DURATION else if n < -MAX_DURATION - 1 then -MAX_DURATION - 1 else n
  }

  // time.Unix(expiry, 0).Sub(now), the duration that set is called with.
  function TimeLeft(expiry: Time, readNs: nat): int {
    Saturated(ToInt64(expiry) * SECOND - readNs)
  }

  // The whole seconds of a duration, cut towards zero, as an unsigned number.
  function WholeSeconds(duration: int, converted: nat): nat {
    if duration >= 0 then duration / SECOND else if -SECOND < duration then 0 else converted
  }

  // The second that the receiver stores.
  function Received(expiry: Time, t: Reading): Time {
    if expiry == NO_EXPIRY || TimeLeft(expiry, t.readNs) == 0 then NO_EXPIRY
    else ToUint64(t.storeNs / SECOND + WholeSeconds(TimeLeft(expiry, t.readNs), t.converted))
  }

  // A clock within 64 bits, and less than a second between its readings.
  ghost predicate Prompt(t: Reading) {
    SECOND <= t.readNs <= t.storeNs < t.readNs + SECOND && t.storeNs < 0x4000_0000_0000_0000 * SECOND
  }

  // No expiry stays none. An expiry ahead, as far as a duration can count,
  // arrives unchanged or one second early, never late. One that has been past
  // for less than a second becomes the receiver's own second, and an older one
  // what the conversion makes of it.
  lemma ReceivedExpiry(expiry: Time, t: Reading)
    requires Prompt(t) && expiry < 0x8000_0000_0000_0000
    ensures expiry == NO_EXPIRY ==> Received(expiry, t) == NO_EXPIRY
    ensures expiry != NO_EXPIRY && 0 < expiry * SECOND - t.readNs <= MAX_DURATION ==>
              expiry - 1 <= Received(expiry, t) <= expiry
    ensures expiry != NO_EXPIRY && -SECOND < expiry * SECOND - t.readNs < 0 ==>
              Received(expiry, t) == t.storeNs / SECOND && expiry <= Received(expiry, t) <= expiry + 1
    ensures expiry != NO_EXPIRY && expiry * SECOND - t.readNs <= -SECOND ==>
              Received(expiry, t) == ToUint64(t.storeNs / SECOND + t.converted)
  {
    var left := expiry * SECOND - t.readNs;
    if expiry != NO_EXPIRY {
      ReceivedAs(expiry, t);
      if -SECOND < left <= MAX_DURATION {
        SumOfSeconds(left, t.readNs, t.storeNs, expiry);
      }
      hide Received, TimeLeft, ToUint64;
    }
  }

  // The stored second, by how much time is left.
  lemma ReceivedAs(expiry: Time, t: Reading)
    requires Prompt(t) && 0 < expiry < 0x8000_0000_0000_0000
    ensures var left, now := expiry * SECOND - t.readNs, t.storeNs / SECOND;
            && (0 < left <= MAX_DURATION ==> Received(expiry, t) == now + left / SECOND)
            && (-SECOND < left < 0 ==> Received(expiry, t) == now)
            && (left <= -SECOND ==> Received(expiry, t) == ToUint64(now + t.converted))
  {
    var left, now := expiry * SECOND - t.readNs, t.storeNs / SECOND;
    assert ToInt64(expiry) == expiry;
    assert 1 <= now < 0x4000_0000_0000_0000;
    if -SECOND < left <= MAX_DURATION {
      InReachExactly(expiry, t.readNs);
      var more := WholeSeconds(left, t.converted);
      assert 0 <= more <= MAX_DURATION / SECOND;
      assert ToUint64(now + more) == now + more;
    }
  }

  // Two cuts to whole seconds lose at most one.
  lemma SumOfSeconds(left: int, readNs: nat, storeNs: nat, expiry: nat)
    requires left == expiry * SECOND - readNs && readNs <= storeNs < readNs + SECOND && -SECOND < left
    ensures 0 < left ==> expiry - 1 <= storeNs / SECOND + left / SECOND <= expiry
    ensures left < 0 ==> expiry <= storeNs / SECOND <= expiry + 1
  {
    var a, b := storeNs / SECOND, left / SECOND;
    assert a * SECOND <= storeNs < (a + 1) * SECOND;
    assert b * SECOND <= left < (b + 1) * SECOND;
  }

  // An entry loses its expiry on the way exactly when it is received at the
  // very instant it expires, or a second or more later where the conversion
  // happens to bring the sum to zero.
  lemma ExpiryLost(expiry: Time, t: Reading)
    requires Prompt(t) && expiry < 0x8000_0000_0000_0000 && expiry != NO_EXPIRY
    ensures Received(expiry, t) == NO_EXPIRY <==>
            || expiry * SECOND == t.readNs
            || (expiry * SECOND - t.readNs <= -SECOND && ToUint64(t.storeNs / SECOND + t.converted) == 0)
  {
    var left, now := expiry * SECOND - t.readNs, t.storeNs / SECOND;
    assert ToInt64(expiry) == expiry;
    assert 1 <= now < 0x4000_0000_0000_0000;
    if -SECOND < left && left != 0 {
      var more := WholeSeconds(TimeLeft(expiry, t.readNs), t.converted);
      assert 0 <= more <= MAX_DURATION / SECOND;
      assert ToUint64(now + more) == now + more;
    }
  }

  lemma InReachExactly(expiry: Time, readNs: nat)
    requires expiry < 0x8000_0000_0000_0000
    requires -MAX_DURATION <= expiry * SECOND - readNs <= MAX_DURATION
    ensures TimeLeft(expiry, readNs) == expiry * SECOND - readNs
  {
  }
}
