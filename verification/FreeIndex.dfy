// The two indexes of the free list as values. Items are compared by identity
// only; `at` says where each tracked item starts and `free` how long it is.
module FreeIndex {
  import opened FreeRanges

  class ItemPos {
    var actualSize: int
    var parentIndex: int

    constructor (index: int, size: int)
      ensures parentIndex == index && actualSize == size
    {
      parentIndex, actualSize := index, size;
    }
  }

  datatype Index = Index(
    tree: map<int, ItemPos>,
    sizes: seq<seq<ItemPos>>,
    at: map<ItemPos, int>,
    free: Ranges)

  // The tree's keys are exactly the first and last bytes of the tracked
  // ranges, and both ends of a range lead to its one item.
  ghost predicate TreeAgrees(x: Index) {
    && (forall it | it in x.at :: ItemAgrees(x, it))
    && (forall s | s in x.free :: RangeAgrees(x, s))
    && (forall k | k in x.tree :: KeyAgrees(x, k))
  }

  ghost predicate ItemAgrees(x: Index, it: ItemPos)
    requires it in x.at
  {
    x.at[it] in x.free && x.at[it] in x.tree && x.tree[x.at[it]] == it
  }

  ghost predicate RangeAgrees(x: Index, s: int)
    requires s in x.free
  {
    && s in x.tree && x.tree[s] in x.at && x.at[x.tree[s]] == s
    && Last(x.free, s) in x.tree && x.tree[Last(x.free, s)] == x.tree[s]
  }

  ghost predicate KeyAgrees(x: Index, k: int)
    requires k in x.tree
  {
    && x.tree[k] in x.at && x.at[x.tree[k]] in x.free
    && (k == x.at[x.tree[k]] || k == Last(x.free, x.at[x.tree[k]]))
  }

  ghost function Last(f: Ranges, s: int): int
    requires s in f
  {
    s + f[s] - 1
  }

  // Bucket b holds exactly the items of size class b, each once.
  ghost predicate BucketsAgree(x: Index) {
    && |x.sizes| == 8
    && (forall it | it in x.at :: x.at[it] in x.free)
    && (forall b | 0 <= b < 8 :: NoDuplicates(x.sizes[b]))
    && (forall b, it | 0 <= b < 8 && it in x.sizes[b] :: it in x.at && Bucket(x.free[x.at[it]]) == b)
    && (forall it | it in x.at && Bucket(x.free[x.at[it]]) != NO_BUCKET :: it in x.sizes[Bucket(x.free[x.at[it]])])
  }

  ghost predicate NoDuplicates(arr: seq<ItemPos>) {
    forall i, j | 0 <= i < j < |arr| :: arr[i] != arr[j]
  }

  ghost predicate Consistent(x: Index) {
    Separated(x.free) && TreeAgrees(x) && BucketsAgree(x)
  }

  // No two items track the same range.
  lemma Distinct(x: Index, v: ItemPos)
    requires Consistent(x) && v in x.at
    ensures x.at[v] in x.free
    ensures forall it | it in x.at && it != v :: x.at[it] != x.at[v]
  {
  }

  lemma NewItem(x: Index, v: ItemPos)
    requires Consistent(x) && v !in x.at
    ensures |x.sizes| == 8
    ensures forall b | 0 <= b < 8 :: NoDuplicates(x.sizes[b]) && v !in x.sizes[b]
  {
  }

  // Bucket contents: ys is xs without v, or with v added in bucket b.
  ghost predicate Without(ys: seq<seq<ItemPos>>, xs: seq<seq<ItemPos>>, v: ItemPos) {
    && |xs| == |ys| == 8
    && (forall b | 0 <= b < 8 :: NoDuplicates(ys[b]))
    && (forall b, it | 0 <= b < 8 && it in ys[b] :: it in xs[b] && it != v)
    && (forall b, it | 0 <= b < 8 && it in xs[b] && it != v :: it in ys[b])
  }

  ghost predicate With(ys: seq<seq<ItemPos>>, xs: seq<seq<ItemPos>>, v: ItemPos, size: int) {
    && |xs| == |ys| == 8
    && (forall b | 0 <= b < 8 :: NoDuplicates(ys[b]))
    && (forall b, it | 0 <= b < 8 && it in ys[b] :: it in xs[b] || (it == v && b == Bucket(size)))
    && (forall b, it | 0 <= b < 8 && it in xs[b] :: it in ys[b])
    && (Bucket(size) != NO_BUCKET ==> v in ys[Bucket(size)])
  }

  // Taking an item out of tree and buckets.
  ghost function Untracked(x: Index, v: ItemPos, sizes: seq<seq<ItemPos>>): Index
    requires v in x.at && x.at[v] in x.free
  {
    var s := x.at[v];
    Index(x.tree - {s} - {Last(x.free, s)}, sizes, x.at - {v}, x.free - {s})
  }

  lemma UntrackedConsistent(x: Index, v: ItemPos, sizes: seq<seq<ItemPos>>)
    requires Consistent(x) && v in x.at && Without(sizes, x.sizes, v)
    ensures ItemAgrees(x, v) && Consistent(Untracked(x, v, sizes))
  {
    UntrackedTree(x, v, sizes);
    UntrackedBuckets(x, v, sizes);
  }

  lemma UntrackedBuckets(x: Index, v: ItemPos, sizes: seq<seq<ItemPos>>)
    requires BucketsAgree(x) && TreeAgrees(x) && v in x.at && ItemAgrees(x, v) && Without(sizes, x.sizes, v)
    ensures BucketsAgree(Untracked(x, v, sizes))
  {
    hide Bucket, NoDuplicates;
    forall it | it in x.at && it != v ensures x.at[it] != x.at[v] {
      assert ItemAgrees(x, it);
    }
    hide TreeAgrees;
  }

  lemma UntrackedTree(x: Index, v: ItemPos, sizes: seq<seq<ItemPos>>)
    requires Separated(x.free) && TreeAgrees(x) && v in x.at
    ensures ItemAgrees(x, v) && TreeAgrees(Untracked(x, v, sizes)) && Separated(x.free - {x.at[v]})
  {
    assert ItemAgrees(x, v) && RangeAgrees(x, x.at[v]);
    var y := Untracked(x, v, sizes);
    forall t | t in y.free ensures RangeAgrees(y, t) {
      assert RangeAgrees(x, t);
      UntrackedRange(x, v, sizes, t);
    }
    forall it | it in y.at ensures ItemAgrees(y, it) {
      assert ItemAgrees(x, it) && RangeAgrees(x, x.at[it]);
      UntrackedRange(x, v, sizes, x.at[it]);
    }
    forall k | k in y.tree ensures KeyAgrees(y, k) {
      assert KeyAgrees(x, k) && ItemAgrees(x, x.tree[k]);
      UntrackedKey(x, v, sizes, k);
    }
  }

  lemma UntrackedRange(x: Index, v: ItemPos, sizes: seq<seq<ItemPos>>, t: int)
    requires Separated(x.free) && v in x.at && ItemAgrees(x, v) && RangeAgrees(x, x.at[v])
    requires t in x.free && t != x.at[v] && RangeAgrees(x, t)
    ensures RangeAgrees(Untracked(x, v, sizes), t)
  {
    TwoRanges(x.free, t, x.at[v]);
    hide Separated;
  }

  lemma UntrackedKey(x: Index, v: ItemPos, sizes: seq<seq<ItemPos>>, k: int)
    requires v in x.at && ItemAgrees(x, v) && k in Untracked(x, v, sizes).tree
    requires k in x.tree && KeyAgrees(x, k) && ItemAgrees(x, x.tree[k])
    ensures KeyAgrees(Untracked(x, v, sizes), k)
  {
  }

  // Two tracked ranges share neither a first nor a last byte.
  lemma TwoRanges(f: Ranges, s: int, t: int)
    requires Separated(f) && s in f && t in f && s != t
    ensures s != Last(f, t) && Last(f, s) != t && Last(f, s) != Last(f, t)
  {
  }

  // Entering an item for a range that touches no tracked one.
  ghost function Tracked(x: Index, v: ItemPos, s: int, size: int, sizes: seq<seq<ItemPos>>): Index {
    Index(x.tree[s := v][s + size - 1 := v], sizes, x.at[v := s], x.free[s := size])
  }

  lemma TrackedConsistent(x: Index, v: ItemPos, s: int, size: int, sizes: seq<seq<ItemPos>>)
    requires Consistent(x) && v !in x.at && s !in x.free && Separated(x.free[s := size])
    requires With(sizes, x.sizes, v, size)
    ensures Consistent(Tracked(x, v, s, size, sizes))
  {
    TrackedTree(x, v, s, size, sizes);
    assert BucketsAgree(Tracked(x, v, s, size, sizes));
  }

  lemma TrackedTree(x: Index, v: ItemPos, s: int, size: int, sizes: seq<seq<ItemPos>>)
    requires TreeAgrees(x) && v !in x.at && s !in x.free && Separated(x.free[s := size])
    ensures TreeAgrees(Tracked(x, v, s, size, sizes))
  {
    var y := Tracked(x, v, s, size, sizes);
    forall t | t in y.free ensures RangeAgrees(y, t) {
      if t != s {
        assert RangeAgrees(x, t);
        TrackedRange(x, v, s, size, sizes, t);
      }
    }
    forall it | it in y.at ensures ItemAgrees(y, it) {
      if it != v {
        assert ItemAgrees(x, it) && RangeAgrees(x, x.at[it]);
        TrackedRange(x, v, s, size, sizes, x.at[it]);
      }
    }
    forall k | k in y.tree ensures KeyAgrees(y, k) {
      if y.tree[k] != v {
        assert KeyAgrees(x, k);
      }
    }
  }

  lemma TrackedRange(x: Index, v: ItemPos, s: int, size: int, sizes: seq<seq<ItemPos>>, t: int)
    requires v !in x.at && s !in x.free && Separated(x.free[s := size])
    requires t in x.free && RangeAgrees(x, t)
    ensures t != s && RangeAgrees(Tracked(x, v, s, size, sizes), t)
  {
    Apart(x.free, s, size, t);
    hide Separated;
  }

  // Neither end of a tracked range is an end of the new one.
  lemma Apart(f: Ranges, s: int, size: int, t: int)
    requires Separated(f[s := size]) && s !in f && t in f
    ensures t != s && t != s + size - 1 && Last(f, t) != s && Last(f, t) != s + size - 1
  {
    var g := f[s := size];
    assert s in g && t in g && g[s] == size && g[t] == f[t];
  }

  // The in-place split of findInSizeList: the item keeps its last byte and
  // its bucket, and its start moves up.
  ghost function Split(x: Index, v: ItemPos, size: int): Index
    requires v in x.at && x.at[v] in x.free
  {
    var s := x.at[v];
    Index((x.tree - {s})[s + size := v], x.sizes, x.at[v := s + size], Taken(x.free, s, size))
  }

  lemma SplitConsistent(x: Index, v: ItemPos, size: int)
    requires Consistent(x) && v in x.at && 1 <= size < x.free[x.at[v]]
    requires Bucket(x.free[x.at[v]] - size) == Bucket(x.free[x.at[v]])
    ensures Consistent(Split(x, v, size))
  {
    assert ItemAgrees(x, v) && RangeAgrees(x, x.at[v]);
    TakenSeparated(x.free, x.at[v], size);
    SplitTree(x, v, size);
    SplitBuckets(x, v, size);
  }

  lemma SplitBuckets(x: Index, v: ItemPos, size: int)
    requires Consistent(x) && v in x.at && ItemAgrees(x, v) && 1 <= size < x.free[x.at[v]]
    requires Bucket(x.free[x.at[v]] - size) == Bucket(x.free[x.at[v]])
    ensures BucketsAgree(Split(x, v, size))
  {
    var y := Split(x, v, size);
    forall it | it in y.at ensures y.at[it] in y.free && Bucket(y.free[y.at[it]]) == Bucket(x.free[x.at[it]]) {
      SameClass(x, v, size, it);
    }
    hide TreeAgrees, Separated, Bucket, NoDuplicates;
  }

  lemma SameClass(x: Index, v: ItemPos, size: int, it: ItemPos)
    requires Separated(x.free) && TreeAgrees(x) && v in x.at && ItemAgrees(x, v) && it in x.at
    requires 1 <= size < x.free[x.at[v]] && Bucket(x.free[x.at[v]] - size) == Bucket(x.free[x.at[v]])
    ensures var y := Split(x, v, size);
            && it in y.at && y.at[it] in y.free && x.at[it] in x.free
            && Bucket(y.free[y.at[it]]) == Bucket(x.free[x.at[it]])
  {
    hide Bucket, RangeAgrees, KeyAgrees, Separated;
    TakenSeparated(x.free, x.at[v], size);
    assert ItemAgrees(x, it);
  }

  // The split is a removal followed by an entry of the same item.
  lemma SplitTree(x: Index, v: ItemPos, size: int)
    requires Separated(x.free) && TreeAgrees(x) && v in x.at && ItemAgrees(x, v) && RangeAgrees(x, x.at[v])
    requires 1 <= size < x.free[x.at[v]]
    ensures TreeAgrees(Split(x, v, size))
  {
    hide TreeAgrees, RangeAgrees, Separated, Tracked, Untracked, Split, Taken;
    var s := x.at[v];
    UntrackedTree(x, v, x.sizes);
    TakenSeparated(x.free, s, size);
    NoStartInside(x.free, s, size);
    SplitIsRetrack(x, v, size);
    TrackedTree(Untracked(x, v, x.sizes), v, s + size, x.free[s] - size, x.sizes);
  }

  lemma SplitIsRetrack(x: Index, v: ItemPos, size: int)
    requires v in x.at && ItemAgrees(x, v) && RangeAgrees(x, x.at[v])
    requires 1 <= size < x.free[x.at[v]] && x.at[v] + size !in x.free
    ensures var s := x.at[v]; var gone := Untracked(x, v, x.sizes);
            && v !in gone.at && s + size !in gone.free
            && gone.free[s + size := x.free[s] - size] == Taken(x.free, s, size)
            && Tracked(gone, v, s + size, x.free[s] - size, x.sizes) == Split(x, v, size)
  {
    var s := x.at[v];
    var y := Tracked(Untracked(x, v, x.sizes), v, s + size, x.free[s] - size, x.sizes);
    assert y.tree == Split(x, v, size).tree;
    assert y.at == Split(x, v, size).at;
  }

  lemma NoStartInside(f: Ranges, s: int, size: int)
    requires Separated(f) && s in f && 1 <= size < f[s]
    ensures s + size !in f
  {
  }

  // What the two lookups of `add` find: a key at index - 1 is the last byte
  // of the left neighbour, a key at index + size the first of the right one.
  lemma Neighbours(x: Index, index: int, size: int)
    requires Consistent(x) && 1 <= size && Disjoint(x.free, index, size)
    ensures index !in x.free
    ensures index - 1 in x.tree <==> HasLeft(x.free, index)
    ensures index - 1 in x.tree ==> x.tree[index - 1] in x.at && x.at[x.tree[index - 1]] == LeftOf(x.free, index)
    ensures index + size in x.tree <==> index + size in x.free
    ensures index + size in x.tree ==> x.tree[index + size] in x.at && x.at[x.tree[index + size]] == index + size
  {
    if index - 1 in x.tree {
      assert IsLeft(x.free, index, x.at[x.tree[index - 1]]);
    }
    if HasLeft(x.free, index) {
      assert Last(x.free, LeftOf(x.free, index)) == index - 1;
    }
  }

  // Items of one bucket stand for the tracked ranges of that size class.
  lemma BucketRanges(x: Index, b: int, s: int)
    requires Consistent(x) && 0 <= b < 8 && s in x.free && Bucket(x.free[s]) == b
    ensures s in x.tree && x.tree[s] in x.sizes[b] && x.at[x.tree[s]] == s
  {
  }

  lemma BucketItem(x: Index, b: int, v: ItemPos)
    requires Consistent(x) && 0 <= b < 8 && v in x.sizes[b]
    ensures v in x.at && x.at[v] in x.free && Bucket(x.free[x.at[v]]) == b
  {
  }

  lemma EightBuckets(x: Index)
    requires Consistent(x)
    ensures |x.sizes| == 8
  {
  }
}
