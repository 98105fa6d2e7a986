// Bytes and little-endian integers (encoding/binary.LittleEndian).
module LittleEndian {

  newtype byte = x: int | 0 <= x < 0x100

  ghost function Pow256(w: nat): (p: nat)
    ensures 1 <= p
  {
    if w == 0 then 1 else 256 * Pow256(w - 1)
  }

  // The low w bytes of n, least significant first: what PutUint16, PutUint32
  // and PutUint64 store after the cast to the unsigned type.
  function Put(n: nat, w: nat): (s: seq<byte>)
    ensures |s| == w
  {
    if w == 0 then [] else [(n % 256) as byte] + Put(n / 256, w - 1)
  }

  function Get(s: seq<byte>): (n: nat) {
    if s == [] then 0 else s[0] as nat + 256 * Get(s[1..])
  }

  lemma {:induction false} GetPut(n: nat, w: nat)
    ensures Get(Put(n, w)) == n % Pow256(w)
  {
    if w > 0 {
      GetPut(n / 256, w - 1);
      var p := Pow256(w - 1);
      assert Put(n, w)[1..] == Put(n / 256, w - 1);
      SplitMod(n, p);
    } else {
      assert n % 1 == 0;
    }
  }

  lemma SplitMod(n: nat, p: nat)
    requires 1 <= p
    ensures n % (256 * p) == n % 256 + 256 * ((n / 256) % p)
  {
    var q, r := (n / 256) / p, (n / 256) % p;
    assert n / 256 == q * p + r;
    assert n == 256 * (q * p + r) + n % 256;
    assert n == q * (256 * p) + (256 * r + n % 256);
    UniqueMod(n, 256 * p, q, 256 * r + n % 256);
  }

  lemma UniqueMod(n: nat, m: nat, q: nat, r: nat)
    requires 1 <= m && n == q * m + r && r < m
    ensures n % m == r && n / m == q
  {
    var k, rest := n / m, n % m;
    assert n == m * k + rest;
    assert (q - k) * m == rest - r;
    if q > k {
      AtLeast(q - k, m);
    } else if q < k {
      AtLeast(k - q, m);
    }
  }

  lemma AtLeast(k: nat, m: nat)
    requires 1 <= k
    ensures m <= k * m
  {
  }

  lemma Widths()
    ensures Pow256(2) == 0x1_0000 && Pow256(4) == 0x1_0000_0000
    ensures Pow256(8) == 0x1_0000_0000_0000_0000
  {
    assert Pow256(1) == 256;
    assert Pow256(3) == 0x100_0000;
    assert Pow256(5) == 0x100_0000_0000;
    assert Pow256(6) == 0x1_0000_0000_0000;
    assert Pow256(7) == 0x100_0000_0000_0000;
  }

  // Integers read back unchanged exactly when they fit the width.
  lemma FitsWidth(n: nat, w: nat)
    ensures Get(Put(n, w)) == n <==> n < Pow256(w)
  {
    GetPut(n, w);
    if n < Pow256(w) {
      UniqueMod(n, Pow256(w), 0, n);
    }
  }

  // Only the value modulo the width is stored.
  lemma {:induction false} PutMod(n: nat, w: nat)
    ensures Put(n, w) == Put(n % Pow256(w), w)
  {
    if w > 0 {
      var m := n % Pow256(w);
      LowByte(n, w);
      PutMod(n / 256, w - 1);
      hide Pow256;
      assert Put(n, w) == [(n % 256) as byte] + Put(n / 256, w - 1);
      assert Put(m, w) == [(m % 256) as byte] + Put(m / 256, w - 1);
    }
  }

  lemma LowByte(n: nat, w: nat)
    requires w > 0
    ensures var m := n % Pow256(w); m % 256 == n % 256 && m / 256 == (n / 256) % Pow256(w - 1)
  {
    var p := Pow256(w - 1);
    SplitMod(n, p);
    UniqueMod(n % (256 * p), 256, (n / 256) % p, n % 256);
  }

  // The byte at place i counts the 256^i: the least significant comes first.
  lemma {:induction false} PutAt(n: nat, w: nat, i: nat)
    requires i < w
    ensures Put(n, w)[i] as nat == n / Pow256(i) % 256
  {
    if i > 0 {
      PutAt(n / 256, w - 1, i - 1);
      DivTwice(n, Pow256(i - 1));
      hide Pow256;
      assert Put(n, w) == [(n % 256) as byte] + Put(n / 256, w - 1);
    }
  }

  lemma DivTwice(n: nat, p: nat)
    requires 1 <= p
    ensures (n / 256) / p == n / (256 * p)
  {
    var q, r := (n / 256) / p, (n / 256) % p;
    assert n / 256 == q * p + r;
    assert n == 256 * (q * p + r) + n % 256;
    assert n == q * (256 * p) + (256 * r + n % 256);
    UniqueMod(n, 256 * p, q, 256 * r + n % 256);
  }

  // Bytes read and put again are the same bytes.
  lemma {:induction false} PutGet(s: seq<byte>)
    ensures Put(Get(s), |s|) == s && Get(s) < Pow256(|s|)
  {
    if s != [] {
      PutGet(s[1..]);
      var rest := Get(s[1..]);
      UniqueMod(Get(s), 256, rest, s[0] as nat);
      assert Put(Get(s), |s|) == [s[0]] + Put(rest, |s| - 1) == [s[0]] + s[1..] == s;
    }
  }
}
