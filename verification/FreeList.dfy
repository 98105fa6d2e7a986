// bigcache/queue/freeList.go: free byte ranges of the queue's array, tracked
// twice. `indexTree` finds a range by its first or its last byte; `sizeList`
// groups the same items into eight size classes.
module FreeLists {
  import opened FreeRanges
  import opened FreeIndex

  // Position of v in arr by identity, or -1.
  method ListPos(v: ItemPos, arr: seq<ItemPos>) returns (pos: int)
    ensures pos == -1 <==> v !in arr
    ensures pos != -1 ==> 0 <= pos < |arr| && arr[pos] == v && v !in arr[..pos]
  {
    for x := 0 to |arr|
      invariant v !in arr[..x]
    {
      if v == arr[x] {
        return x;
      }
    }
    return -1;
  }

  function WithoutAt(arr: seq<ItemPos>, pos: int): seq<ItemPos>
    requires 0 <= pos < |arr|
  {
    arr[..pos] + arr[pos + 1..]
  }

  lemma WithoutAtMembers(arr: seq<ItemPos>, pos: int)
    requires 0 <= pos < |arr| && NoDuplicates(arr)
    ensures NoDuplicates(WithoutAt(arr, pos))
    ensures forall it :: it in WithoutAt(arr, pos) <==> it in arr && it != arr[pos]
  {
    var rest := WithoutAt(arr, pos);
    forall it | it in arr && it != arr[pos] ensures it in rest {
      var i :| 0 <= i < |arr| && arr[i] == it;
      assert rest[if i < pos then i else i - 1] == it;
    }
  }

  // Dropping position pos of bucket b drops one item from one bucket.
  lemma DropAt(x: Index, v: ItemPos, b: int, pos: int)
    requires Consistent(x) && 0 <= b < 8 && 0 <= pos < |x.sizes[b]| && x.sizes[b][pos] == v
    ensures v in x.at && Bucket(x.free[x.at[v]]) == b
    ensures Without(x.sizes[b := WithoutAt(x.sizes[b], pos)], x.sizes, v)
  {
    WithoutAtMembers(x.sizes[b], pos);
  }

  class FreeList {
    var sizeList: seq<seq<ItemPos>>
    var indexTree: map<int, ItemPos>
    // Start of every tracked item, and length of every tracked range.
    ghost var at: map<ItemPos, int>
    ghost var free: Ranges
    ghost var Repr: set<object>

    ghost function View(): Index
      reads this
    {
      Index(indexTree, sizeList, at, free)
    }

    // Every tracked item describes its range.
    ghost predicate Linked()
      reads this, Repr
    {
      forall it | it in at ::
        it in Repr && at[it] in free && it.parentIndex == at[it] && it.actualSize == free[at[it]]
    }

    ghost predicate Valid()
      reads this, Repr
      ensures Valid() ==> this in Repr && Separated(free)
    {
      this in Repr && Linked() && Consistent(View())
    }

    constructor ()
      ensures Valid() && fresh(Repr)
      ensures free == map[]
    {
      sizeList := [[], [], [], [], [], [], [], []];
      indexTree := map[];
      at := map[];
      free := map[];
      Repr := {this};
    }

    method RemoveFromSizeList(v: ItemPos)
      requires Valid() && v in at
      modifies this`sizeList
      ensures Without(sizeList, old(sizeList), v)
    {
      var b := Bucket(v.actualSize);
      if b != NO_BUCKET {
        var pos := ListPos(v, sizeList[b]);
        if pos != -1 {
          DropAt(View(), v, b, pos);
          sizeList := sizeList[b := WithoutAt(sizeList[b], pos)];
        }
      }
    }

    method PutIntoSizeList(item: ItemPos)
      requires |sizeList| == 8
      requires forall b | 0 <= b < 8 :: NoDuplicates(sizeList[b]) && item !in sizeList[b]
      modifies this`sizeList
      ensures With(sizeList, old(sizeList), item, item.actualSize)
    {
      var b := Bucket(item.actualSize);
      if b != NO_BUCKET {
        sizeList := sizeList[b := sizeList[b] + [item]];
      }
    }

    // Takes a tracked item out of the tree and out of its bucket.
    method Untrack(v: ItemPos)
      requires Valid() && v in at
      modifies this`indexTree, this`sizeList, this`at, this`free
      ensures Valid() && free == old(free) - {v.parentIndex} && at == old(at) - {v}
      ensures v.parentIndex in old(free) && v.actualSize == old(free)[v.parentIndex]
    {
      hide Consistent;
      Distinct(View(), v);
      RemoveFromSizeList(v);
      ghost var y := old(Untracked(View(), v, sizeList)).(sizes := sizeList);
      UntrackedConsistent(old(View()), v, sizeList);
      indexTree := indexTree - {v.parentIndex};
      indexTree := indexTree - {v.parentIndex + v.actualSize - 1};
      at, free := at - {v}, free - {v.parentIndex};
      assert View() == y;
    }

    // Enters a range that touches no tracked one.
    method Track(index: int, size: int)
      requires Valid() && index !in free && Separated(free[index := size])
      modifies this
      ensures Valid() && old(Repr) <= Repr && fresh(Repr - old(Repr))
      ensures free == old(free)[index := size]
    {
      hide Consistent, Separated, With;
      var item := new ItemPos(index, size);
      NewItem(View(), item);
      PutIntoSizeList(item);
      indexTree := indexTree[item.parentIndex := item];
      indexTree := indexTree[item.parentIndex + item.actualSize - 1 := item];
      at, free, Repr := at[item := index], free[index := size], Repr + {item};
      TrackedConsistent(old(View()), item, index, size, sizeList);
      assert View() == Tracked(old(View()), item, index, size, sizeList);
    }

    // Adds a range, merged with a free neighbour. When both neighbours are
    // free the second merge overwrites the first.
    method Add(index: int, size: int)
      requires Valid() && 0 <= index && 1 <= size && Disjoint(free, index, size)
      modifies this
      ensures Valid() && old(Repr) <= Repr && fresh(Repr - old(Repr))
      ensures free == Added(old(free), index, size)
    {
      hide Consistent, Separated, Added, HasLeft, IsLeft;
      Neighbours(View(), index, size);
      AddedCases(free, index, size);
      AddedSeparated(free, index, size);
      var parentIndex, actualSize := index, size;
      if index - 1 in indexTree {
        var v := indexTree[index - 1];
        Untrack(v);
        Neighbours(View(), index, size);
        parentIndex, actualSize := v.parentIndex, v.actualSize + size;
      }
      if index + size in indexTree {
        var v := indexTree[index + size];
        Untrack(v);
        parentIndex, actualSize := index, size + v.actualSize;
      }
      assert free[parentIndex := actualSize] == Added(old(free), index, size);
      Track(parentIndex, actualSize);
    }

    // The first item of bucket idx that is large enough.
    method FirstFit(idx: int, size: int) returns (x: int)
      requires Valid() && 0 <= idx < 8
      ensures |sizeList| == 8
      ensures 0 <= x <= |sizeList[idx]|
      ensures x < |sizeList[idx]| ==> sizeList[idx][x] in at && size <= sizeList[idx][x].actualSize
                                      && Bucket(sizeList[idx][x].actualSize) == idx
      ensures x == |sizeList[idx]| ==> forall s | s in free && Bucket(free[s]) == idx :: free[s] < size
    {
      hide Consistent;
      EightBuckets(View());
      x := 0;
      while x < |sizeList[idx]|
        invariant 0 <= x <= |sizeList[idx]|
        invariant forall y | 0 <= y < x :: sizeList[idx][y] in at && sizeList[idx][y].actualSize < size
      {
        BucketItem(View(), idx, sizeList[idx][x]);
        if size <= sizeList[idx][x].actualSize {
          return;
        }
        x := x + 1;
      }
      forall s | s in free && Bucket(free[s]) == idx ensures free[s] < size {
        BucketRanges(View(), idx, s);
      }
    }

    // Moves the start of an item up without touching its last byte or bucket.
    method SplitInPlace(tmp: ItemPos, size: int)
      requires Valid() && tmp in at && 1 <= size < tmp.actualSize
      requires Bucket(tmp.actualSize - size) == Bucket(tmp.actualSize)
      modifies this`indexTree, this`at, this`free, tmp
      ensures Valid() && free == Taken(old(free), old(tmp.parentIndex), size)
    {
      hide Consistent, Separated;
      Distinct(View(), tmp);
      SplitConsistent(View(), tmp, size);
      TakenSeparated(free, tmp.parentIndex, size);
      indexTree := indexTree - {tmp.parentIndex};
      at, free := at[tmp := tmp.parentIndex + size], Taken(free, tmp.parentIndex, size);
      tmp.parentIndex := tmp.parentIndex + size;
      tmp.actualSize := tmp.actualSize - size;
      indexTree := indexTree[tmp.parentIndex := tmp];
      assert View() == old(Split(View(), tmp, size));
    }

    // Hands out the front of the first fitting range of one bucket. Only
    // bucket 7 can leave a remainder that stays where it is.
    method FindInSizeList(idx: int, size: int, buckSize: int) returns (v: int, found: bool)
      requires Valid() && 0 <= idx < 8 && 1 <= size
      requires if idx < 7 then size == 4096 || buckSize == Limit(idx) else buckSize == 4097
      modifies Repr
      ensures Valid() && old(Repr) <= Repr && fresh(Repr - old(Repr))
      ensures found ==> v in old(free) && size <= old(free)[v] && Bucket(old(free)[v]) == idx
                        && free == Taken(old(free), v, size)
      ensures !found ==> free == old(free) && forall s | s in free && Bucket(free[s]) == idx :: free[s] < size
    {
      hide Consistent, Separated;
      var x := FirstFit(idx, size);
      if x == |sizeList[idx]| {
        return -1, false;
      }
      var tmp := sizeList[idx][x];
      v := tmp.parentIndex;
      if size == tmp.actualSize {
        Untrack(tmp);
        return v, true;
      }
      if tmp.actualSize - size >= buckSize {
        OnlyLastBucketSplits(idx, tmp.actualSize, size, buckSize);
        SplitInPlace(tmp, size);
        return v, true;
      }
      Untrack(tmp);
      RestIsApart(old(free), v, size);
      Add(tmp.parentIndex + size, tmp.actualSize - size);
      return v, true;
    }

    // Hands out `size` bytes, or -1 when no bucketed range is long enough.
    method Find(size: int) returns (r: int)
      requires Valid() && 1 <= size
      modifies Repr
      ensures Valid() && old(Repr) <= Repr && fresh(Repr - old(Repr))
      ensures r == -1 <==> forall s | s in old(free) :: old(free)[s] < size || old(free)[s] == 4096
      ensures r == -1 ==> free == old(free)
      ensures r != -1 ==> r in old(free) && size <= old(free)[r] && free == Taken(old(free), r, size)
      ensures r != -1 ==> forall s | s in old(free) && size <= old(free)[s] && old(free)[s] != 4096 ::
                            Bucket(old(free)[r]) <= Bucket(old(free)[s])
    {
      var index, buckSize := 0, 0;
      if size < 64 {
        index, buckSize := 0, 64;
      } else if size < 128 {
        index, buckSize := 1, 128;
      } else if size < 256 {
        index, buckSize := 2, 256;
      } else if size < 512 {
        index, buckSize := 3, 512;
      } else if size < 1024 {
        index, buckSize := 4, 1024;
      } else if size < 2048 {
        index, buckSize := 5, 2048;
      } else if size < 4096 {
        index, buckSize := 6, 4096;
      } else if size > 4096 {
        index, buckSize := 7, 4097;
      }
      hide Consistent;
      for idx := index to 8
        invariant Valid() && free == old(free) && old(Repr) <= Repr && fresh(Repr - old(Repr))
        invariant size == 4096 || index == Bucket(size)
        invariant size == 4096 ==> index == 0
        invariant if idx < 7 then size == 4096 || buckSize == Limit(idx) else buckSize == 4097
        invariant size == 4096 && idx < 7 ==> buckSize == 0
        invariant forall s | s in free && index <= Bucket(free[s]) < idx :: free[s] < size
      {
        var v, found := FindInSizeList(idx, size, buckSize);
        if found {
          return v;
        }
        if idx < 6 {
          buckSize := buckSize * 2;
        } else {
          buckSize := 4097;
        }
      }
      return -1;
    }
  }

  // Only the unbounded bucket can leave a remainder as large as its bucket
  // size, and that remainder belongs to it as well.
  lemma OnlyLastBucketSplits(idx: int, actual: int, size: int, buckSize: int)
    requires Bucket(actual) == idx && 1 <= size < actual
    requires if idx < 7 then size == 4096 || buckSize == Limit(idx) else buckSize == 4097
    ensures idx != NO_BUCKET && buckSize <= actual - size ==> idx == 7 && Bucket(actual - size) == 7
  {
  }

  // What is left of a range once its front is handed out touches nothing.
  lemma RestIsApart(f: Ranges, s: int, size: int)
    requires Separated(f) && s in f && 1 <= size < f[s]
    ensures 0 <= s + size
    ensures Disjoint(f - {s}, s + size, f[s] - size)
    ensures Added(f - {s}, s + size, f[s] - size) == Taken(f, s, size)
  {
    assert !HasLeft(f - {s}, s + size);
  }
}
