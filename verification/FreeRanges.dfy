// The free list seen from outside: a finite map from the start of each free
// byte range to its length. The class in FreeList.dfy is proved against the
// functions of this file.
module FreeRanges {

  type Ranges = map<int, int>

  // Ranges are non-empty, start at a valid offset, and no two of them touch.
  ghost predicate Separated(f: Ranges) {
    && (forall s | s in f :: 0 <= s && 1 <= f[s])
    && (forall s, t | s in f && t in f && s < t :: s + f[s] < t)
  }

  // The byte range [index, index + size) shares no byte with a tracked one.
  ghost predicate Disjoint(f: Ranges, index: int, size: int) {
    forall s | s in f :: s + f[s] <= index || index + size <= s
  }

  // The size class of a range; a range of exactly 4096 bytes has none.
  const NO_BUCKET := -1

  function Bucket(size: int): (b: int)
    ensures -1 <= b < 8
  {
    if size < 64 then 0
    else if size < 128 then 1
    else if size < 256 then 2
    else if size < 512 then 3
    else if size < 1024 then 4
    else if size < 2048 then 5
    else if size < 4096 then 6
    else if size > 4096 then 7
    else NO_BUCKET
  }

  // Exclusive upper bound of the sizes kept in bucket b < 7.
  function Limit(b: int): int {
    if b <= 0 then 64
    else if b == 1 then 128
    else if b == 2 then 256
    else if b == 3 then 512
    else if b == 4 then 1024
    else if b == 5 then 2048
    else 4096
  }

  // The start of the tracked range that ends right before `index`, if any.
  ghost predicate IsLeft(f: Ranges, index: int, s: int) {
    s in f && s + f[s] == index
  }

  ghost predicate HasLeft(f: Ranges, index: int) {
    exists s :: IsLeft(f, index, s)
  }

  ghost function LeftOf(f: Ranges, index: int): (s: int)
    requires HasLeft(f, index)
    ensures IsLeft(f, index, s)
  {
    var s :| IsLeft(f, index, s); s
  }

  // What `add` leaves behind. With a right neighbour the result starts at
  // `index` even when a left neighbour was just taken out of the list.
  ghost function Added(f: Ranges, index: int, size: int): Ranges {
    var lefts := if HasLeft(f, index) then {LeftOf(f, index)} else {};
    if index + size in f then
      (f - lefts - {index + size})[index := size + f[index + size]]
    else if HasLeft(f, index) then
      f[LeftOf(f, index) := f[LeftOf(f, index)] + size]
    else
      f[index := size]
  }

  // What `find` leaves behind when it hands out the front of the range at s.
  ghost function Taken(f: Ranges, s: int, size: int): Ranges
    requires s in f
  {
    if f[s] == size then f - {s} else (f - {s})[s + size := f[s] - size]
  }

  // The offsets lo, lo + 1, ..., hi - 1.
  ghost function Interval(lo: int, hi: int): (r: set<int>)
    ensures forall x :: x in r <==> lo <= x < hi
    ensures |r| == if lo < hi then hi - lo else 0
    decreases hi - lo
  {
    if lo < hi then {lo} + Interval(lo + 1, hi) else {}
  }

  // The bytes of all tracked ranges.
  ghost predicate Covers(f: Ranges, s: int, x: int) {
    s in f && s <= x < s + f[s]
  }

  ghost function Bytes(f: Ranges): set<int> {
    set s, x | s in f && x in Span(f, s) :: x
  }

  lemma BytesCovered(f: Ranges)
    ensures forall x :: x in Bytes(f) <==> exists s :: Covers(f, s, x)
  {
    assert forall s, x :: Covers(f, s, x) ==> x in Span(f, s);
  }

  ghost function Span(f: Ranges, s: int): (r: set<int>)
    requires s in f
    ensures forall x :: x in r <==> Covers(f, s, x)
  {
    Interval(s, s + f[s])
  }

  // The bytes an `add` drops from the books: the left neighbour, exactly when
  // both neighbours are free.
  ghost function Dropped(f: Ranges, index: int, size: int): set<int> {
    if HasLeft(f, index) && index + size in f
    then Interval(LeftOf(f, index), index) else {}
  }

  // The four outcomes of `add`, by which neighbours are free.
  lemma AddedCases(f: Ranges, index: int, size: int)
    requires Separated(f) && 1 <= size && Disjoint(f, index, size)
    ensures var right := index + size; var added := Added(f, index, size);
            if HasLeft(f, index)
            then var left := LeftOf(f, index);
                 left in f && left != right
                 && added == if right in f then (f - {left} - {right})[index := size + f[right]]
                             else (f - {left})[left := f[left] + size]
            else added == if right in f then (f - {right})[index := size + f[right]] else f[index := size]
  {
  }

  lemma AddedSeparated(f: Ranges, index: int, size: int)
    requires Separated(f) && 0 <= index && 1 <= size && Disjoint(f, index, size)
    ensures Separated(Added(f, index, size))
  {
    AddedCases(f, index, size);
    var g := Added(f, index, size);
    hide Added;
    forall s | s in f ensures s + f[s] < index || IsLeft(f, index, s) || index + size <= s {
    }
  }

  lemma TakenSeparated(f: Ranges, s: int, size: int)
    requires Separated(f) && s in f && 1 <= size <= f[s]
    ensures Separated(Taken(f, s, size))
    ensures forall t | t in f && t != s :: t in Taken(f, s, size) && Taken(f, s, size)[t] == f[t]
  {
  }

  // A byte of the result was free before or is new, and was not dropped.
  lemma AddedByteOld(f: Ranges, index: int, size: int, s: int, x: int)
    requires Separated(f) && 0 <= index && 1 <= size && Disjoint(f, index, size)
    requires Covers(Added(f, index, size), s, x)
    ensures x in Bytes(f) || index <= x < index + size
    ensures x !in Dropped(f, index, size)
  {
    BytesCovered(f);
    if index <= x < index + size {
    } else if x >= index + size && index + size in f && s == index {
      assert Covers(f, index + size, x);
    } else {
      assert s in f;
      assert Covers(f, s, x);
    }
  }

  // A byte that was free in the range at s, or is new, and was not dropped.
  lemma AddedByteNew(f: Ranges, index: int, size: int, s: int, x: int)
    requires Separated(f) && 0 <= index && 1 <= size && Disjoint(f, index, size)
    requires index <= x < index + size || Covers(f, s, x)
    requires x !in Dropped(f, index, size)
    ensures x in Bytes(Added(f, index, size))
  {
    var t := AddedCover(f, index, size, s, x);
    BytesCovered(Added(f, index, size));
    hide Added, Bytes, Dropped;
  }

  // The range of the result that holds the byte.
  lemma AddedCover(f: Ranges, index: int, size: int, s: int, x: int) returns (t: int)
    requires Separated(f) && 0 <= index && 1 <= size && Disjoint(f, index, size)
    requires index <= x < index + size || Covers(f, s, x)
    requires x !in Dropped(f, index, size)
    ensures Covers(Added(f, index, size), t, x)
  {
    hide Interval;
    var g := Added(f, index, size);
    if index <= x < index + size {
      t := if index in g then index else LeftOf(f, index);
    } else if s == index + size {
      t := index;
    } else {
      assert IsLeft(f, index, s) ==> s == LeftOf(f, index);
      t := s;
    }
  }

  // Whether a byte is free after an `add`, byte by byte.
  lemma AddedByte(f: Ranges, index: int, size: int, x: int)
    requires Separated(f) && 0 <= index && 1 <= size && Disjoint(f, index, size)
    ensures x in Bytes(Added(f, index, size)) <==>
            (x in Bytes(f) || index <= x < index + size) && x !in Dropped(f, index, size)
  {
    BytesCovered(f);
    BytesCovered(Added(f, index, size));
    hide Added;
    if s :| Covers(Added(f, index, size), s, x) {
      AddedByteOld(f, index, size, s, x);
    }
    if s :| Covers(f, s, x) && x !in Dropped(f, index, size) {
      AddedByteNew(f, index, size, s, x);
    } else if index <= x < index + size {
      AddedByteNew(f, index, size, index, x);
    }
  }

  // Byte accounting of `add`: old free bytes plus the new range, minus the
  // dropped left neighbour; the dropped bytes were free before.
  lemma AddedBytes(f: Ranges, index: int, size: int)
    requires Separated(f) && 0 <= index && 1 <= size && Disjoint(f, index, size)
    ensures Bytes(Added(f, index, size)) == Bytes(f) + Interval(index, index + size) - Dropped(f, index, size)
    ensures Dropped(f, index, size) <= Bytes(f)
    ensures Bytes(f) !! Interval(index, index + size)
  {
    BytesCovered(f);
    hide Interval, Bytes, Added;
    var g, dropped := Bytes(Added(f, index, size)), Dropped(f, index, size);
    forall x ensures x in g <==> x in Bytes(f) + Interval(index, index + size) - dropped {
      AddedByte(f, index, size, x);
    }
    forall x | x in dropped ensures x in Bytes(f) {
      assert Covers(f, LeftOf(f, index), x);
    }
  }

  lemma TakenByte(f: Ranges, s: int, size: int, x: int)
    requires Separated(f) && s in f && 1 <= size <= f[s]
    ensures (exists t :: Covers(Taken(f, s, size), t, x)) <==> (exists t :: Covers(f, t, x)) && !(s <= x < s + size)
  {
    var g := Taken(f, s, size);
    if t :| Covers(g, t, x) {
      assert Covers(f, if t == s + size && g[t] == f[s] - size then s else t, x);
    }
    if t :| Covers(f, t, x) && !(s <= x < s + size) {
      assert Covers(g, if t == s then s + size else t, x);
    }
  }

  // Byte accounting of `find`: exactly the handed-out bytes leave the books.
  lemma TakenBytes(f: Ranges, s: int, size: int)
    requires Separated(f) && s in f && 1 <= size <= f[s]
    ensures Bytes(Taken(f, s, size)) == Bytes(f) - Interval(s, s + size)
    ensures Interval(s, s + size) <= Bytes(f)
  {
    BytesCovered(f);
    BytesCovered(Taken(f, s, size));
    hide Interval, Bytes, Taken;
    forall x ensures x in Bytes(Taken(f, s, size)) <==> x in Bytes(f) - Interval(s, s + size) {
      TakenByte(f, s, size, x);
    }
    forall x | s <= x < s + size ensures x in Bytes(f) { assert Covers(f, s, x); }
  }
}
