/**
  The Merkle tree kept in a heap-ordered array, padded to a power of two, with path proofs
  against the root or a pollard.
 */
module Merkle {
  import opened Bytes
  import opened Division

  const ZERO_LEAF: Bytes := seq(HASH_LENGTH, i => 0)

  /** The salt of leaf `i`: its index as four big-endian bytes, modulo 2^32. */
  function Salt(i: nat): (s: Bytes)
    ensures |s| == 4
  {
    [i / 0x100_0000 % 256, i / 0x1_0000 % 256, i / 0x100 % 256, i % 256]
  }

  /** What is hashed for the value at leaf `i`. */
  function LeafText(value: Bytes, salt: bool, i: nat): Bytes {
    if salt then value + Salt(i) else value
  }

  function Depth(data: seq<Bytes>): nat
    requires data != []
  {
    CeilLog2(|data|)
  }

  /** Number of leaves after padding, which is also the index of the first one. */
  function Width(data: seq<Bytes>): (w: nat)
    requires data != []
    ensures |data| <= w
  {
    Pow2(Depth(data))
  }

  /** Node `i` of the tree: 1 is the root, the children of i are 2i and 2i+1. */
  function NodeAt(h: Bytes -> Bytes, data: seq<Bytes>, salt: bool, i: nat): Bytes
    requires data != [] && 1 <= i < 2 * Width(data)
    decreases 2 * Width(data) - i
  {
    var w := Width(data);
    if i >= w then
      if i - w < |data| then h(LeafText(data[i - w], salt, i - w)) else ZERO_LEAF
    else
      h(NodeAt(h, data, salt, 2 * i) + NodeAt(h, data, salt, 2 * i + 1))
  }

  lemma {:induction false} NodeLength(h: Bytes -> Bytes, data: seq<Bytes>, salt: bool, i: nat)
    requires IsHash(h) && data != [] && 1 <= i < 2 * Width(data)
    ensures |NodeAt(h, data, salt, i)| == HASH_LENGTH
  {
    var w := Width(data);
    if i >= w && i - w < |data| {
      assert |h(LeafText(data[i - w], salt, i - w))| == HASH_LENGTH;
    }
  }

  /** i^1. */
  function Sibling(i: nat): nat
    requires i >= 1
  {
    if i % 2 == 0 then i + 1 else i - 1
  }

  predicate AtLevel(i: nat, k: nat) {
    Pow2(k) <= i < Pow2(k + 1)
  }

  lemma ParentLevel(i: nat, k: nat)
    requires AtLevel(i, k) && k > 0
    ensures AtLevel(i / 2, k - 1) && i >= 2
    ensures Pow2(k) <= Sibling(i) < Pow2(k + 1)
  {
    assert Pow2(k) == 2 * Pow2(k - 1) && Pow2(k + 1) == 2 * Pow2(k);
  }

  /** The siblings met from node `i` on the way up, `len` of them. */
  function Path(h: Bytes -> Bytes, data: seq<Bytes>, salt: bool, i: nat, k: nat, len: nat): (p: seq<Bytes>)
    requires data != [] && k <= Depth(data) && len <= k && AtLevel(i, k)
    ensures |p| == len
    decreases len
  {
    if len == 0 then []
    else
      ParentLevel(i, k);
      LevelInTree(data, i, k);
      LevelInTree(data, Sibling(i), k);
      [NodeAt(h, data, salt, Sibling(i))] + Path(h, data, salt, i / 2, k - 1, len - 1)
  }

  lemma LevelInTree(data: seq<Bytes>, i: nat, k: nat)
    requires data != [] && k <= Depth(data) && AtLevel(i, k)
    ensures 1 <= i < 2 * Width(data)
  {
    Pow2Mono(k + 1, Depth(data) + 1);
    assert Pow2(Depth(data) + 1) == 2 * Width(data);
  }

  /** Hashing up from `acc`, the bits of `index` telling left from right. */
  function Climb(h: Bytes -> Bytes, acc: Bytes, index: nat, hashes: seq<Bytes>): Bytes
    decreases |hashes|
  {
    if hashes == [] then acc
    else
      var next := if index % 2 == 0 then h(acc + hashes[0]) else h(hashes[0] + acc);
      Climb(h, next, index / 2, hashes[1..])
  }

  datatype Proof = Proof(hashes: seq<Bytes>, index: nat)

  /** The ancestor `len` levels above node `i`. */
  function Ancestor(i: nat, len: nat): nat {
    if len == 0 then i else Ancestor(i / 2, len - 1)
  }

  lemma {:induction false} AncestorLevel(i: nat, k: nat, len: nat)
    requires AtLevel(i, k) && len <= k
    ensures AtLevel(Ancestor(i, len), k - len)
  {
    if len > 0 {
      ParentLevel(i, k);
      AncestorLevel(i / 2, k - 1, len - 1);
    }
  }

  /** Climbing a tree's own path from a node reaches that node's ancestor. */
  lemma {:induction false} ClimbPath(h: Bytes -> Bytes, data: seq<Bytes>, salt: bool, i: nat, k: nat, len: nat)
    requires data != [] && k <= Depth(data) && len <= k && AtLevel(i, k)
    ensures 1 <= i < 2 * Width(data) && 1 <= Ancestor(i, len) < 2 * Width(data)
    ensures Climb(h, NodeAt(h, data, salt, i), i, Path(h, data, salt, i, k, len))
         == NodeAt(h, data, salt, Ancestor(i, len))
    decreases len
  {
    hide Pow2, CeilLog2, AtLevel;
    LevelInTree(data, i, k);
    AncestorLevel(i, k, len);
    LevelInTree(data, Ancestor(i, len), k - len);
    if len > 0 {
      ParentLevel(i, k);
      BelowWidth(data, i / 2, k - 1);
      ClimbStep(h, data, salt, i, Path(h, data, salt, i / 2, k - 1, len - 1));
      ClimbPath(h, data, salt, i / 2, k - 1, len - 1);
    }
  }

  /** One step up: a node and its sibling hash to their parent. */
  lemma ClimbStep(h: Bytes -> Bytes, data: seq<Bytes>, salt: bool, i: nat, rest: seq<Bytes>)
    requires data != [] && 2 <= i < 2 * Width(data) && i / 2 < Width(data)
    ensures Climb(h, NodeAt(h, data, salt, i), i, [NodeAt(h, data, salt, Sibling(i))] + rest)
         == Climb(h, NodeAt(h, data, salt, i / 2), i / 2, rest)
  {
    hide Pow2, CeilLog2, Width;
    var hashes := [NodeAt(h, data, salt, Sibling(i))] + rest;
    assert hashes[1..] == rest;
    assert i == if i % 2 == 0 then 2 * (i / 2) else 2 * (i / 2) + 1;
  }

  lemma BelowWidth(data: seq<Bytes>, i: nat, k: nat)
    requires data != [] && k < Depth(data) && AtLevel(i, k)
    ensures i < Width(data)
  {
    Pow2Mono(k + 1, Depth(data));
  }

  /** Only the low |hashes| bits of the index matter. */
  lemma {:induction false} ClimbBits(h: Bytes -> Bytes, acc: Bytes, a: nat, b: nat, hashes: seq<Bytes>)
    requires a % Pow2(|hashes|) == b % Pow2(|hashes|)
    ensures Climb(h, acc, a, hashes) == Climb(h, acc, b, hashes)
    decreases |hashes|
  {
    if hashes != [] {
      HalfMod(a, b, |hashes|);
      var next := if a % 2 == 0 then h(acc + hashes[0]) else h(hashes[0] + acc);
      ClimbBits(h, next, a / 2, b / 2, hashes[1..]);
    }
  }

  lemma HalfMod(a: nat, b: nat, k: nat)
    requires k > 0 && a % Pow2(k) == b % Pow2(k)
    ensures a % 2 == b % 2 && a / 2 % Pow2(k - 1) == b / 2 % Pow2(k - 1)
  {
    var p := Pow2(k - 1);
    HalfModOne(a, p);
    HalfModOne(b, p);
  }

  lemma HalfModOne(a: nat, p: nat)
    requires p > 0
    ensures a % (2 * p) == 2 * (a / 2 % p) + a % 2
  {
    var q, r := a / 2 / p, a / 2 % p;
    assert a == 2 * (q * p + r) + a % 2;
    var m := 2 * r + a % 2;
    assert a == q * (2 * p) + m && 0 <= m < 2 * p;
    ModIs(a, q, 2 * p, m);
  }
}
