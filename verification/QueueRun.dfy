// Whole runs of the byte queue under Push and Delete, as the cache uses it.
module QueueRun {
  import opened Layouts
  import opened Memory
  import opened BytesQueues
  import opened Results
  import opened CacheQueue

  // Delete names the push it takes back by its position among all operations.
  datatype QueueOp = Push(data: seq<byte>) | Delete(k: nat)

  // What the accepted pushes wrote that no accepted deletion has taken back.
  ghost function Held(ops: seq<QueueOp>, accepted: seq<bool>): map<nat, seq<byte>>
    requires |ops| == |accepted|
  {
    if ops == [] then map[]
    else
      var n := |ops| - 1;
      var before := Held(ops[..n], accepted[..n]);
      match ops[n]
      case Push(data) => if accepted[n] then before[n := data] else before
      case Delete(k) => if accepted[n] then before - {k} else before
  }

  // The handed-out indexes: distinct, all live, reading what was pushed, and
  // nothing else is live.
  ghost predicate Tracks(index: map<nat, int>, held: map<nat, seq<byte>>, payloads: map<int, seq<byte>>) {
    && index.Keys == held.Keys
    && (forall k | k in index :: index[k] in payloads && payloads[index[k]] == held[k])
    && (forall j, k | j in index && k in index && j != k :: index[j] != index[k])
    && (forall i | i in payloads :: i in index.Values)
  }

  lemma TracksPush(index: map<nat, int>, held: map<nat, seq<byte>>, payloads: map<int, seq<byte>>,
                   k: nat, i: int, data: seq<byte>)
    requires Tracks(index, held, payloads) && k !in held && i !in payloads
    ensures Tracks(index[k := i], held[k := data], payloads[i := data])
  {
    var more := index[k := i];
    forall j | j in payloads[i := data].Keys ensures j in more.Values {
      if j == i {
        assert k in more && more[k] == j;
      } else {
        var g :| g in index && index[g] == j;
        assert g in more && more[g] == j;
      }
    }
  }

  lemma TracksDelete(index: map<nat, int>, held: map<nat, seq<byte>>, payloads: map<int, seq<byte>>, k: nat)
    requires Tracks(index, held, payloads) && k in index
    ensures Tracks(index - {k}, held - {k}, payloads - {index[k]})
  {
    forall j | j in (payloads - {index[k]}).Keys ensures j in (index - {k}).Values {
      var g :| g in index && index[g] == j;
      assert g in index - {k} && (index - {k})[g] == j;
    }
  }

  lemma CountDrop<K, V>(m: map<K, V>, k: K)
    requires k in m
    ensures |m - {k}| == |m| - 1
  {
    assert m.Keys == (m - {k}).Keys + {k};
    assert |m| == |m.Keys| && |m - {k}| == |(m - {k}).Keys|;
  }

  lemma NothingTracked(index: map<nat, int>, held: map<nat, seq<byte>>, payloads: map<int, seq<byte>>)
    requires Tracks(index, held, payloads) && index.Keys == {}
    ensures held == map[] && payloads == map[]
  {
    assert index == map[];
    assert index.Values == {};
    forall i ensures i !in payloads {
      assert i in payloads ==> i in index.Values;
    }
  }

  lemma {:induction false} TracksCount(index: map<nat, int>, held: map<nat, seq<byte>>, payloads: map<int, seq<byte>>)
    requires Tracks(index, held, payloads)
    ensures |held| == |payloads|
    decreases |index|
  {
    SameHandles(index, held, payloads);
    hide Tracks;
    if index.Keys == {} {
      NothingTracked(index, held, payloads);
    } else {
      var k :| k in index.Keys;
      TracksDelete(index, held, payloads, k);
      CountDrop(index, k);
      CountDrop(held, k);
      CountDrop(payloads, index[k]);
      TracksCount(index - {k}, held - {k}, payloads - {index[k]});
    }
  }

  // A deletion succeeds only on a push that is still held, and it fails on one
  // only if nothing was written there.
  ghost predicate Decided(ops: seq<QueueOp>, accepted: seq<bool>, i: nat)
    requires i < |ops| && |ops| == |accepted| && ops[i].Delete?
  {
    var held := Held(ops[..i], accepted[..i]);
    if accepted[i] then ops[i].k in held else ops[i].k in held ==> held[ops[i].k] == []
  }

  // What one operation does to the queue and to the indexes handed out.
  method Perform(q: BytesQueue, op: QueueOp, n: nat, index: map<nat, int>, ghost held: map<nat, seq<byte>>)
    returns (ok: bool, after: map<nat, int>, ghost left: map<nat, seq<byte>>)
    requires q.Valid() && q.head == LEFT_MARGIN_INDEX && Tracks(index, held, q.Payloads()) && n !in held
    modifies q.Repr
    ensures q.Valid() && old(q.Repr) <= q.Repr && fresh(q.Repr - old(q.Repr)) && q.head == LEFT_MARGIN_INDEX
    ensures Tracks(after, left, q.Payloads())
    ensures match op
            case Push(data) => left == (if ok then held[n := data] else held) && (q.maxCapacity <= 0 ==> ok)
            case Delete(j) =>
              if ok then j in held && left == held - {j} else left == held && (j in held ==> held[j] == [])
  {
    hide BytesQueue.Valid, BytesQueue.Payloads, BytesQueue.Fifo, Tracks;
    QueueOwns(q);
    SameHandles(index, held, q.Payloads());
    match op {
      case Push(data) =>
        var r := PushOne(q, data);
        if r.Err? {
          return false, index, held;
        }
        TracksPush(index, held, old(q.Payloads()), n, r.value, data);
        return true, index[n := r.value], held[n := data];
      case Delete(j) =>
        if j !in index {
          return false, index, held;
        }
        ok := DeleteOne(q, index[j]);
        if !ok {
          return false, index, held;
        }
        TracksDelete(index, held, old(q.Payloads()), j);
        return true, index - {j}, held - {j};
    }
  }

  // For every run of pushes and deletions of any data, each index that was
  // handed out and not given back reads exactly the bytes pushed there (as far
  // as the 32-bit header tells their length), however much the array was
  // reused, bumped or reallocated since; and the count is the number of such
  // indexes.
  method RunAndRead(ops: seq<QueueOp>, capacity: nat, maxCapacity: int, k: nat)
    returns (accepted: seq<bool>, read: Option<Result<seq<byte>>>, count: int)
    ensures |accepted| == |ops|
    ensures maxCapacity <= 0 ==> forall i | 0 <= i < |ops| && ops[i].Push? :: accepted[i]
    ensures forall i | 0 <= i < |ops| && ops[i].Delete? :: Decided(ops, accepted, i)
    ensures var held := Held(ops, accepted);
            match read
            case None => k !in held
            case Some(Ok(data)) => k in held && data == Low32(held[k])
            case Some(Err(e)) => k in held && held[k] == [] && e == IndexOutOfRange
    ensures count == |Held(ops, accepted)|
  {
    hide BytesQueue.Valid, BytesQueue.Payloads, BytesQueue.Fifo, Tracks, Low32;
    var q := new BytesQueue(capacity, maxCapacity);
    var index: map<nat, int> := map[];
    ghost var held: map<nat, seq<byte>> := map[];
    accepted := [];
    StartsTracking(q.Payloads());
    for n := 0 to |ops|
      invariant q.Valid() && fresh(q.Repr) && q.head == LEFT_MARGIN_INDEX && q.maxCapacity == maxCapacity
      invariant |accepted| == n && held == Held(ops[..n], accepted) && Tracks(index, held, q.Payloads())
      invariant forall j | j in held :: j < n
      invariant maxCapacity <= 0 ==> forall i | 0 <= i < n && ops[i].Push? :: accepted[i]
      invariant forall i | 0 <= i < n && ops[i].Delete? :: Decided(ops[..n], accepted, i)
    {
      var ok, more;
      ok, more, held := Perform(q, ops[n], n, index, held);
      DecidedSoFar(ops, n, accepted, ok);
      index := more;
      accepted := accepted + [ok];
    }
    assert ops[..|ops|] == ops;
    SameHandles(index, held, q.Payloads());
    TracksCount(index, held, q.Payloads());
    CountOf(q);
    count := q.count;
    read := None;
    if k in index {
      var data := ReadOne(q, index[k]);
      read := Some(data);
    }
  }

  lemma DecidedSoFar(ops: seq<QueueOp>, n: nat, accepted: seq<bool>, ok: bool)
    requires n < |ops| && |accepted| == n
    requires forall i | 0 <= i < n && ops[i].Delete? :: Decided(ops[..n], accepted, i)
    requires var held := Held(ops[..n], accepted);
             ops[n].Delete? ==> if ok then ops[n].k in held else ops[n].k in held ==> held[ops[n].k] == []
    ensures ops[..n + 1][..n] == ops[..n] && (accepted + [ok])[..n] == accepted
    ensures forall i | 0 <= i < n + 1 && ops[i].Delete? :: Decided(ops[..n + 1], accepted + [ok], i)
  {
    forall i | 0 <= i < n + 1 && ops[i].Delete? ensures Decided(ops[..n + 1], accepted + [ok], i) {
      assert ops[..n + 1][..i] == ops[..n][..i] && (accepted + [ok])[..i] == accepted[..i];
      if i == n {
        assert ops[..n][..n] == ops[..n] && accepted[..n] == accepted;
      } else {
        assert Decided(ops[..n], accepted, i);
      }
    }
  }

  lemma StartsTracking(payloads: map<int, seq<byte>>)
    requires payloads == map[]
    ensures Tracks(map[], map[], payloads)
  {
  }

  lemma SameHandles(index: map<nat, int>, held: map<nat, seq<byte>>, payloads: map<int, seq<byte>>)
    requires Tracks(index, held, payloads)
    ensures index.Keys == held.Keys
    ensures forall k | k in index :: index[k] in payloads && payloads[index[k]] == held[k]
  {
  }
}
