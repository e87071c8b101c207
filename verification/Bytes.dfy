/** Fixed-width integers as bytes. */
module Bytes {
  type Byte = x: nat | x < 256
  type U32 = x: nat | x < 0x1_0000_0000
  type U64 = x: nat | x < 0x1_0000_0000_0000_0000

  function Pow256(n: nat): (r: nat)
    ensures r > 0
  {
    if n == 0 then 1 else 256 * Pow256(n - 1)
  }

  lemma Pow256Values()
    ensures Pow256(4) == 0x1_0000_0000
    ensures Pow256(8) == 0x1_0000_0000_0000_0000
  {
    assert Pow256(2) == 65536;
    assert Pow256(3) == 16777216;
    assert Pow256(5) == 256 * Pow256(4);
    assert Pow256(6) == 256 * Pow256(5);
    assert Pow256(7) == 256 * Pow256(6);
  }

  /** The `n` low bytes of `v`, least significant first. */
  function PutLE(v: nat, n: nat): (r: seq<Byte>)
    ensures |r| == n
  {
    if n == 0 then [] else [v % 256] + PutLE(v / 256, n - 1)
  }

  /** The number written in `s`, least significant byte first. */
  function GetLE(s: seq<Byte>): (r: nat)
    ensures r < Pow256(|s|)
  {
    if s == [] then 0 else var low: nat := s[0]; low + 256 * GetLE(s[1..])
  }

  /** Byte `k` is the one of weight 256^k. */
  lemma {:induction false} PutLEAt(v: nat, n: nat, k: nat)
    requires k < n
    ensures PutLE(v, n)[k] == v / Pow256(k) % 256
  {
    if k > 0 {
      PutLEAt(v / 256, n - 1, k - 1);
      DivideTwice(v, Pow256(k - 1));
    }
  }

  /** Dividing by 256 and then by `p` is dividing by their product. */
  lemma DivideTwice(v: nat, p: nat)
    requires p > 0
    ensures v / 256 / p == v / (256 * p)
  {
    var a, b := v / 256 / p, v / (256 * p);
    var r := v - 256 * p * a;
    assert v / 256 == p * a + v / 256 % p;
    assert 256 * (v / 256) == 256 * p * a + 256 * (v / 256 % p);
    assert 0 <= r < 256 * p;
    var k := b - a;
    assert v - 256 * p * b == r - 256 * p * k && 0 <= v - 256 * p * b < 256 * p;
    assert k == 0 by {
      assert k >= 1 ==> 256 * p * k >= 256 * p;
      assert k <= -1 ==> 256 * p * k <= 0 - 256 * p;
    }
  }

  lemma {:induction false} LERoundTrip(v: nat, n: nat)
    requires v < Pow256(n)
    ensures GetLE(PutLE(v, n)) == v
  {
    if n > 0 {
      LERoundTrip(v / 256, n - 1);
      assert PutLE(v, n)[1..] == PutLE(v / 256, n - 1);
    }
  }
}
