// How hashes are spread over shards: bigcache/utils.go and the mask of
// bigcache/bigcache.go.
module Sharding {
  import opened ExpirySystem
  import opened TtlSpec
  import LE = LittleEndian

  // Bitwise and of two unsigned numbers.
  function And(a: nat, b: nat): nat
    decreases a + b
  {
    if a == 0 || b == 0 then 0 else (a % 2) * (b % 2) + 2 * And(a / 2, b / 2)
  }

  // number & (number - 1) == 0 on 64-bit integers, in two's complement.
  predicate PassesPowerOfTwoTest(number: int) {
    And(ToUint64(number), ToUint64(number - 1)) == 0
  }

  predicate PowerOfTwo(n: nat) {
    n == 1 || (n > 1 && n % 2 == 0 && PowerOfTwo(n / 2))
  }

  lemma {:induction false} AndSelf(n: nat)
    ensures And(n, n) == n
  {
    if n != 0 {
      AndSelf(n / 2);
      assert (n % 2) * (n % 2) == n % 2;
    }
  }

  lemma {:induction false} ClearsLowestBit(n: nat)
    requires 1 <= n
    ensures And(n, n - 1) == 0 <==> PowerOfTwo(n)
  {
    if n > 1 {
      if n % 2 == 1 {
        assert (n - 1) / 2 == n / 2 && (n - 1) % 2 == 0;
        AndSelf(n / 2);
      } else {
        assert (n - 1) / 2 == n / 2 - 1;
        ClearsLowestBit(n / 2);
      }
    }
  }

  // Between a power of two and its double there is no other.
  lemma {:induction false} NoneBetween(p: nat, n: nat)
    requires PowerOfTwo(p) && p < n < 2 * p
    ensures !PowerOfTwo(n)
  {
    if n % 2 == 0 {
      assert p > 1;
      NoneBetween(p / 2, n / 2);
    }
  }

  const INT64_MIN := -0x8000_0000_0000_0000

  lemma {:induction false} Products(p: nat, q: nat)
    requires PowerOfTwo(p) && PowerOfTwo(q)
    ensures PowerOfTwo(p * q)
  {
    if p > 1 {
      Products(p / 2, q);
      assert p * q == 2 * (p / 2 * q);
      assert (2 * (p / 2 * q)) / 2 == p / 2 * q;
      assert p / 2 * q > 0;
    }
  }

  // Half of 2^64, which is the square of the square of ... two.
  lemma HighestBit()
    ensures PowerOfTwo(0x8000_0000_0000_0000)
  {
    Products(2, 2);
    Products(4, 4);
    Products(16, 16);
    Products(256, 256);
    Products(0x1_0000, 0x1_0000);
    Products(0x1_0000_0000, 0x1_0000_0000);
  }

  // The test accepts the powers of two, and also zero and the least integer.
  lemma PowerOfTwoTest(n: int)
    requires INT64_MIN <= n < -INT64_MIN
    ensures PassesPowerOfTwoTest(n) <==> n == 0 || n == INT64_MIN || (0 < n && PowerOfTwo(n))
  {
    hide And, PowerOfTwo;
    if n == 0 {
      NothingToClear(ToUint64(-1));
    } else {
      Unsigned(n);
      ClearsLowestBit(ToUint64(n));
      HighestBit();
      if INT64_MIN < n < 0 {
        NoneBetween(0x8000_0000_0000_0000, ToUint64(n));
      }
    }
  }

  lemma NothingToClear(n: nat)
    ensures And(0, n) == 0
  {
  }

  lemma Unsigned(n: int)
    requires INT64_MIN <= n < -INT64_MIN && n != 0
    ensures ToUint64(n) == (if 0 < n then n else n + 0x1_0000_0000_0000_0000) && ToUint64(n - 1) == ToUint64(n) - 1
  {
  }

  // Masking with n - 1 is reduction modulo n.
  lemma {:induction false} MaskIsMod(hash: nat, n: nat)
    requires PowerOfTwo(n)
    ensures And(hash, n - 1) == hash % n < n
  {
    if n > 1 {
      var m := n / 2;
      MaskIsMod(hash / 2, m);
      HalfMod(hash, m);
      OddMask(hash, m);
      assert n == 2 * m;
    }
  }

  lemma OddMask(hash: nat, m: nat)
    requires 1 <= m
    ensures And(hash, 2 * m - 1) == hash % 2 + 2 * And(hash / 2, m - 1)
  {
    assert (2 * m - 1) % 2 == 1 && (2 * m - 1) / 2 == m - 1;
  }

  lemma HalfMod(hash: nat, m: nat)
    requires 1 <= m
    ensures hash % (2 * m) == hash % 2 + 2 * ((hash / 2) % m)
  {
    var q, r := (hash / 2) / m, (hash / 2) % m;
    assert hash / 2 == m * q + r;
    assert hash == (2 * m) * q + (2 * r + hash % 2);
    LE.UniqueMod(hash, 2 * m, q, 2 * r + hash % 2);
  }

  // The entries of shard i out of n.
  ghost function Part(store: Store, n: nat, i: nat): Store
    requires 1 <= n
  {
    map h | h in store && h % n == i :: store[h]
  }

  // Changing the entry at one hash changes the part of its shard only.
  lemma PartsPut(store: Store, n: nat, h: nat, e: Entry)
    requires 1 <= n
    ensures Part(store[h := e], n, h % n) == Part(store, n, h % n)[h := e]
    ensures forall j | 0 <= j < n && j != h % n :: Part(store[h := e], n, j) == Part(store, n, j)
  {
  }

  lemma PartsDrop(store: Store, n: nat, h: nat)
    requires 1 <= n
    ensures Part(store - {h}, n, h % n) == Part(store, n, h % n) - {h}
    ensures forall j | 0 <= j < n && j != h % n :: Part(store - {h}, n, j) == Part(store, n, j)
  {
  }

  ghost function Sum(sizes: seq<nat>): nat {
    if sizes == [] then 0 else Sum(sizes[..|sizes| - 1]) + sizes[|sizes| - 1]
  }

  // The shards' sizes add up to the size of the whole.
  lemma {:induction false} PartsAddUp(store: Store, n: nat, k: nat, sizes: seq<nat>)
    requires 1 <= n && k == |sizes| <= n
    requires forall i | 0 <= i < k :: sizes[i] == |Part(store, n, i)|
    ensures Sum(sizes) == |(set h | h in store.Keys && h % n < k)|
    ensures k == n ==> Sum(sizes) == |store|
    decreases k
  {
    var below := set h | h in store.Keys && h % n < k;
    if k > 0 {
      var fewer := set h | h in store.Keys && h % n < k - 1;
      PartsAddUp(store, n, k - 1, sizes[..k - 1]);
      var part := Part(store, n, k - 1);
      assert below == fewer + part.Keys && fewer !! part.Keys;
      assert |part| == |part.Keys|;
    }
    if k == n {
      assert below == store.Keys && |store| == |store.Keys|;
    }
  }
}
