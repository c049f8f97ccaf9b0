/** Byte strings, hash functions over them, and powers of two. */
module Bytes {
  type Byte = b: int | 0 <= b < 256
  type Bytes = seq<Byte>

  const HASH_LENGTH: nat := 32

  /** All digests have the same length. */
  ghost predicate IsHash(h: Bytes -> Bytes) {
    forall x :: |h(x)| == HASH_LENGTH
  }

  /** No other string hashes to the digest of a string in `xs`. */
  ghost predicate NoSecondPreimage(h: Bytes -> Bytes, xs: iset<Bytes>) {
    forall x, y | x in xs && h(x) == h(y) :: x == y
  }

  function Pow2(k: nat): (p: nat)
    ensures p > 0
  {
    if k == 0 then 1 else 2 * Pow2(k - 1)
  }

  /** The least k with n <= 2^k. */
  function CeilLog2(n: nat): (k: nat)
    requires n > 0
    ensures n <= Pow2(k)
    ensures k > 0 ==> Pow2(k - 1) < n
  {
    if n == 1 then 0
    else
      var k := CeilLog2((n + 1) / 2);
      assert k == 0 ==> n == 2;
      k + 1
  }

  lemma {:induction false} Pow2Add(a: nat, b: nat)
    ensures Pow2(a + b) == Pow2(a) * Pow2(b)
  {
    if a > 0 {
      Pow2Add(a - 1, b);
      assert Pow2(a + b) == 2 * Pow2(a - 1 + b);
    }
  }

  lemma {:induction false} Pow2Mono(a: nat, b: nat)
    requires a <= b
    ensures Pow2(a) <= Pow2(b)
  {
    if a < b {
      Pow2Mono(a, b - 1);
    }
  }

  /** Strings glued from parts of equal length have equal parts. */
  lemma GluedFront(a: Bytes, b: Bytes, c: Bytes, d: Bytes)
    requires a + b == c + d && |a| == |c|
    ensures a == c && b == d
  {
    assert (a + b)[..|a|] == a && (c + d)[..|a|] == c;
    assert (a + b)[|a|..] == b && (c + d)[|a|..] == d;
  }

  lemma GluedBack(a: Bytes, b: Bytes, c: Bytes, d: Bytes)
    requires a + b == c + d && |b| == |d|
    ensures a == c && b == d
  {
    assert |a + b| == |a| + |b| && |c + d| == |c| + |d|;
    GluedFront(a, b, c, d);
  }
}
