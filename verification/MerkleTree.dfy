/** The array-backed tree, its proof generators, and the verifier of single proofs. */
module MerkleTrees {
  import opened Bytes
  import opened Division
  import opened Merkle

  class MerkleTree {
    const hash: Bytes -> Bytes
    const salt: bool
    const data: seq<Bytes>
    const nodes: array<Bytes>

    /** Every array slot from 1 on holds its node. */
    ghost predicate Valid()
      reads this, nodes
    {
      && data != []
      && nodes.Length == 2 * Width(data)
      && forall i | 1 <= i < nodes.Length :: nodes[i] == NodeAt(hash, data, salt, i)
    }

    /** Leaves first, then the padding, then the branches from the highest index down. */
    constructor (data: seq<Bytes>, hash: Bytes -> Bytes, salt: bool)
      requires data != []
      ensures Valid() && fresh(nodes)
      ensures this.data == data && this.hash == hash && this.salt == salt
    {
      var w := Width(data);
      this.data, this.hash, this.salt := data, hash, salt;
      nodes := new Bytes[2 * w](i => []);
      new;
      FillLeaves(nodes, data, hash, salt);
      FillPadding(nodes, data, hash, salt);
      FillBranches(nodes, data, hash, salt);
    }

    lemma HasData()
      requires Valid()
      ensures data != []
    {
    }

    lemma Slot(i: nat)
      requires Valid() && 1 <= i < 2 * Width(data)
      ensures i < nodes.Length && nodes[i] == NodeAt(hash, data, salt, i)
    {
    }

    function Root(): (r: Bytes)
      requires Valid()
      reads this, nodes
      ensures r == NodeAt(hash, data, salt, 1)
    {
      nodes[1]
    }

    /** The nodes of the top `height` + 1 levels. */
    function Pollard(height: nat): (p: seq<Bytes>)
      requires Valid() && height <= Depth(data)
      reads this, nodes
      ensures |p| == Pow2(height + 1) - 1
      ensures forall i | 1 <= i < Pow2(height + 1) :: i < 2 * Width(data) && p[i - 1] == NodeAt(hash, data, salt, i)
    {
      Pow2Mono(height + 1, Depth(data) + 1);
      nodes[1..Pow2(height + 1)]
    }

    /** The first leaf holding `value`. */
    method IndexOf(value: Bytes) returns (found: bool, index: nat)
      ensures found <==> value in data
      ensures found ==> index < |data| && data[index] == value && value !in data[..index]
    {
      for i := 0 to |data|
        invariant value !in data[..i]
      {
        if data[i] == value { return true, i; }
      }
      return false, 0;
    }

    /** Fills exactly the path of leaf `index`, up to the pollard of that height. */
    method GenerateProofUsingIndex(index: nat, height: nat) returns (p: Proof)
      requires Valid() && index < Width(data) && height <= Depth(data)
      ensures AtLevel(index + Width(data), Depth(data))
      ensures p.index == index
      ensures p.hashes == Path(hash, data, salt, index + Width(data), Depth(data), Depth(data) - height)
    {
      hide *;
      HasData();
      var proofLen := Depth(data) - height;
      WayStart(hash, data, salt, index, height);
      var hashes := new Bytes[proofLen](i => []);
      var cur := 0;
      var i: nat := index + Width(data);
      ghost var k: nat := Depth(data);
      ghost var whole := Path(hash, data, salt, i, k, proofLen);
      while i > Pow2(height + 1) - 1
        invariant cur <= proofLen && Valid() && OnTheWay(hash, data, salt, whole, height, i, k, cur)
        invariant hashes[..cur] == whole[..cur]
        decreases k
      {
        WayNext(hash, data, salt, whole, height, i, k, cur);
        Slot(Sibling(i));
        hashes[cur] := nodes[Sibling(i)];
        cur := cur + 1;
        i := i / 2;
        k := k - 1;
      }
      WayEnd(hash, data, salt, whole, height, i, k, cur);
      assert hashes[..cur] == hashes[..] && whole[..cur] == whole;
      return Proof(hashes[..], index);
    }

    /** As above, for the first leaf holding `value`; absent values are an error. */
    method GenerateProof(value: Bytes, height: nat) returns (found: bool, p: Proof)
      requires Valid() && height <= Depth(data)
      ensures found <==> value in data
      ensures found ==> p.index < |data| && data[p.index] == value && value !in data[..p.index]
      ensures found ==> AtLevel(p.index + Width(data), Depth(data))
      ensures found ==>
        p.hashes == Path(hash, data, salt, p.index + Width(data), Depth(data), Depth(data) - height)
    {
      var index;
      found, index := IndexOf(value);
      p := Proof([], 0);
      if found {
        p := GenerateProofUsingIndex(index, height);
      }
    }
  }

  /** Slots from `lo` up to `hi` hold their nodes. */
  ghost predicate Filled(nodes: seq<Bytes>, data: seq<Bytes>, hash: Bytes -> Bytes, salt: bool, lo: nat, hi: nat)
    requires data != [] && |nodes| == 2 * Width(data)
  {
    1 <= lo && hi <= |nodes| && forall j | lo <= j < hi :: nodes[j] == NodeAt(hash, data, salt, j)
  }

  method FillLeaves(nodes: array<Bytes>, data: seq<Bytes>, hash: Bytes -> Bytes, salt: bool)
    requires data != [] && nodes.Length == 2 * Width(data)
    modifies nodes
    ensures Filled(nodes[..], data, hash, salt, Width(data), Width(data) + |data|)
  {
    hide NodeAt, CeilLog2, Pow2, Depth, Width;
    var w := Width(data);
    for i := 0 to |data|
      invariant forall j | w <= j < w + i :: nodes[j] == NodeAt(hash, data, salt, j)
    {
      NodeIs(hash, data, salt, i + w);
      nodes[i + w] := hash(LeafText(data[i], salt, i));
    }
  }

  method FillPadding(nodes: array<Bytes>, data: seq<Bytes>, hash: Bytes -> Bytes, salt: bool)
    requires data != [] && nodes.Length == 2 * Width(data)
    requires Filled(nodes[..], data, hash, salt, Width(data), Width(data) + |data|)
    modifies nodes
    ensures Filled(nodes[..], data, hash, salt, Width(data), nodes.Length)
  {
    hide NodeAt, CeilLog2, Pow2, Depth, Width;
    var w := Width(data);
    assert forall j | w <= j < w + |data| :: nodes[j] == nodes[..][j];
    for i := |data| + w to nodes.Length
      invariant forall j | w <= j < i :: nodes[j] == NodeAt(hash, data, salt, j)
    {
      NodeIs(hash, data, salt, i);
      nodes[i] := ZERO_LEAF;
    }
  }

  method FillBranches(nodes: array<Bytes>, data: seq<Bytes>, hash: Bytes -> Bytes, salt: bool)
    requires data != [] && nodes.Length == 2 * Width(data)
    requires Filled(nodes[..], data, hash, salt, Width(data), nodes.Length)
    modifies nodes
    ensures Filled(nodes[..], data, hash, salt, 1, nodes.Length)
  {
    hide NodeAt, CeilLog2, Pow2, Depth, Width;
    var w := Width(data);
    assert forall j | w <= j < nodes.Length :: nodes[j] == nodes[..][j];
    for i := w downto 1
      invariant forall j | i <= j < 2 * w :: nodes[j] == NodeAt(hash, data, salt, j)
    {
      NodeIs(hash, data, salt, i);
      nodes[i] := hash(nodes[2 * i] + nodes[2 * i + 1]);
    }
  }

  /** The three kinds of nodes. */
  lemma NodeIs(h: Bytes -> Bytes, data: seq<Bytes>, salt: bool, i: nat)
    requires data != [] && 1 <= i < 2 * Width(data)
    ensures var w := Width(data);
      NodeAt(h, data, salt, i) ==
        if i >= w + |data| then ZERO_LEAF
        else if i >= w then h(LeafText(data[i - w], salt, i - w))
        else h(NodeAt(h, data, salt, 2 * i) + NodeAt(h, data, salt, 2 * i + 1))
  {
  }

  lemma LeafLevel(data: seq<Bytes>, index: nat)
    requires data != [] && index < Width(data)
    ensures AtLevel(index + Width(data), Depth(data))
  {
  }

  /** Node i at level k is where the proof has got to after `cur` of its hashes. */
  ghost predicate OnTheWay(h: Bytes -> Bytes, data: seq<Bytes>, salt: bool, whole: seq<Bytes>, height: nat, i: nat, k: nat, cur: nat) {
    && data != [] && cur <= |whole| && k <= Depth(data) && k == height + (|whole| - cur) && AtLevel(i, k)
    && Path(h, data, salt, i, k, |whole| - cur) == whole[cur..]
  }

  lemma WayStart(h: Bytes -> Bytes, data: seq<Bytes>, salt: bool, index: nat, height: nat)
    requires data != [] && index < Width(data) && height <= Depth(data)
    ensures var i, k := index + Width(data), Depth(data);
      && AtLevel(i, k)
      && |Path(h, data, salt, i, k, k - height)| == k - height
      && OnTheWay(h, data, salt, Path(h, data, salt, i, k, k - height), height, i, k, 0)
  {
    LeafLevel(data, index);
    hide Path, AtLevel, Width, Depth;
  }

  lemma WayNext(h: Bytes -> Bytes, data: seq<Bytes>, salt: bool, whole: seq<Bytes>, height: nat, i: nat, k: nat, cur: nat)
    requires OnTheWay(h, data, salt, whole, height, i, k, cur) && i > Pow2(height + 1) - 1
    ensures 0 < k && cur < |whole| && i >= 1 && data != [] && 1 <= Sibling(i) < 2 * Width(data)
    ensures whole[cur] == NodeAt(h, data, salt, Sibling(i))
    ensures OnTheWay(h, data, salt, whole, height, i / 2, k - 1, cur + 1)
  {
    hide Path, AtLevel, Width, Depth, NodeAt, Sibling;
    LevelAbove(i, k, height);
    PathNext(h, data, salt, i, k, |whole| - cur);
    assert whole[cur] == whole[cur..][0] && whole[cur + 1..] == whole[cur..][1..];
  }

  lemma WayEnd(h: Bytes -> Bytes, data: seq<Bytes>, salt: bool, whole: seq<Bytes>, height: nat, i: nat, k: nat, cur: nat)
    requires OnTheWay(h, data, salt, whole, height, i, k, cur) && i <= Pow2(height + 1) - 1
    ensures cur == |whole|
  {
    hide Path, Depth;
    LevelReached(i, k, height);
  }

  lemma LevelAbove(i: nat, k: nat, height: nat)
    requires AtLevel(i, k) && i > Pow2(height + 1) - 1
    ensures k > height
  {
    if k <= height {
      Pow2Mono(k + 1, height + 1);
    }
  }

  lemma LevelReached(i: nat, k: nat, height: nat)
    requires AtLevel(i, k) && k >= height && i <= Pow2(height + 1) - 1
    ensures k == height
  {
    if k > height {
      Pow2Mono(height + 1, k);
    }
  }

  lemma PathNext(h: Bytes -> Bytes, data: seq<Bytes>, salt: bool, i: nat, k: nat, len: nat)
    requires data != [] && k <= Depth(data) && 0 < len <= k && AtLevel(i, k)
    ensures AtLevel(i / 2, k - 1) && 1 <= Sibling(i) < 2 * Width(data)
    ensures Path(h, data, salt, i, k, len)
         == [NodeAt(h, data, salt, Sibling(i))] + Path(h, data, salt, i / 2, k - 1, len - 1)
  {
    ParentLevel(i, k);
    LevelInTree(data, Sibling(i), k);
  }

  /** The verifier: hashes up the proof and compares with `root`. */
  method VerifyProofUsing(data: Bytes, proof: Proof, root: Bytes, hash: Bytes -> Bytes, salt: Bytes) returns (ok: bool)
    ensures ok <==> Verifies(data, proof, root, hash, salt)
  {
    var dataHash := hash(data + salt);
    var index: nat := proof.index + Pow2(|proof.hashes|);
    var i := 0;
    while i < |proof.hashes|
      invariant 0 <= i <= |proof.hashes|
      invariant Climb(hash, dataHash, index, proof.hashes[i..])
             == Climb(hash, hash(data + salt), proof.index + Pow2(|proof.hashes|), proof.hashes)
    {
      assert proof.hashes[i..][1..] == proof.hashes[i + 1..];
      if index % 2 == 0 {
        dataHash := hash(dataHash + proof.hashes[i]);
      } else {
        dataHash := hash(proof.hashes[i] + dataHash);
      }
      index := index / 2;
      i := i + 1;
    }
    return dataHash == root;
  }

  /** No salt is the empty salt: the same bytes are hashed. */
  predicate Verifies(data: Bytes, proof: Proof, root: Bytes, hash: Bytes -> Bytes, salt: Bytes) {
    Climb(hash, hash(data + salt), proof.index + Pow2(|proof.hashes|), proof.hashes) == root
  }

  function SaltOf(salt: bool, i: nat): Bytes {
    if salt then Salt(i) else []
  }

  /** The strings hashed to build a tree. */
  ghost function Hashed(h: Bytes -> Bytes, data: seq<Bytes>, salt: bool): iset<Bytes>
    requires data != []
  {
    (iset i | 0 <= i < |data| :: LeafText(data[i], salt, i))
    + (iset i | 1 <= i < Width(data) :: NodeAt(h, data, salt, 2 * i) + NodeAt(h, data, salt, 2 * i + 1))
  }

  /**
    Completeness: the proof of leaf `index` up to `height` verifies against the node of its
    path at that height, which is the root for height 0 and a pollard entry otherwise.
   */
  lemma ProofsVerify(h: Bytes -> Bytes, data: seq<Bytes>, salt: bool, index: nat, height: nat)
    requires data != [] && index < |data| && height <= Depth(data)
    ensures var len, leaf := Depth(data) - height, index + Width(data);
      && AtLevel(leaf, Depth(data))
      && AtLevel(Ancestor(leaf, len), height)
      && 1 <= Ancestor(leaf, len) < 2 * Width(data)
      && (height == 0 ==> Ancestor(leaf, len) == 1)
      && Verifies(data[index], Proof(Path(h, data, salt, leaf, Depth(data), len), index),
                  NodeAt(h, data, salt, Ancestor(leaf, len)), h, SaltOf(salt, index))
  {
    hide *;
    var d, len, leaf := Depth(data), Depth(data) - height, index + Width(data);
    LeafLevel(data, index);
    AncestorLevel(leaf, d, len);
    LevelInTree(data, Ancestor(leaf, len), height);
    if height == 0 { RootAncestor(data, leaf); }
    var hashes := Path(h, data, salt, leaf, d, len);
    LeafHashed(h, data, salt, index);
    LeafTextIs(data[index], salt, index);
    ClimbPath(h, data, salt, leaf, d, len);
    SameBits(data, index, height);
    ClimbBits(h, h(data[index] + SaltOf(salt, index)), leaf, index + Pow2(len), hashes);
    VerifiesIs(data[index], Proof(hashes, index), NodeAt(h, data, salt, Ancestor(leaf, len)), h, SaltOf(salt, index));
  }

  lemma VerifiesIs(data: Bytes, proof: Proof, root: Bytes, hash: Bytes -> Bytes, salt: Bytes)
    ensures Verifies(data, proof, root, hash, salt) <==>
      Climb(hash, hash(data + salt), proof.index + Pow2(|proof.hashes|), proof.hashes) == root
  {
  }

  lemma SameBits(data: seq<Bytes>, index: nat, height: nat)
    requires data != [] && height <= Depth(data)
    ensures var p := Pow2(Depth(data) - height);
      (index + Width(data)) % p == (index + p) % p
  {
    hide Pow2, CeilLog2, Depth;
    var len := Depth(data) - height;
    Pow2Add(height, len);
    AddMultiple(index, Pow2(height), Pow2(len));
    AddMultiple(index, 1, Pow2(len));
  }

  lemma AddMultiple(a: nat, q: nat, m: nat)
    requires m > 0
    ensures (a + q * m) % m == a % m
  {
    ModIs(a + q * m, a / m + q, m, a % m);
  }

  /** Climbing to a tree node without a second preimage can only start from that tree's node. */
  lemma {:induction false} ClimbOnlyFromNode(h: Bytes -> Bytes, data: seq<Bytes>, salt: bool, i: nat, k: nat, acc: Bytes, hashes: seq<Bytes>)
    requires data != [] && k <= Depth(data) && |hashes| <= k && AtLevel(i, k)
    requires IsHash(h) && NoSecondPreimage(h, Hashed(h, data, salt)) && |acc| == HASH_LENGTH
    requires 1 <= Ancestor(i, |hashes|) < 2 * Width(data)
    requires Climb(h, acc, i, hashes) == NodeAt(h, data, salt, Ancestor(i, |hashes|))
    ensures 1 <= i < 2 * Width(data) && acc == NodeAt(h, data, salt, i)
    decreases |hashes|
  {
    hide Pow2, CeilLog2, Depth, Width, NodeAt, Hashed, AtLevel, NoSecondPreimage;
    LevelInTree(data, i, k);
    if hashes != [] {
      ParentLevel(i, k);
      BelowWidth(data, i / 2, k - 1);
      var next := if i % 2 == 0 then h(acc + hashes[0]) else h(hashes[0] + acc);
      ClimbOnlyFromNode(h, data, salt, i / 2, k - 1, next, hashes[1..]);
      OneBranch(h, data, salt, i, acc, hashes[0]);
    }
  }

  lemma OneBranch(h: Bytes -> Bytes, data: seq<Bytes>, salt: bool, i: nat, acc: Bytes, other: Bytes)
    requires data != [] && 2 <= i < 2 * Width(data) && i / 2 < Width(data)
    requires IsHash(h) && NoSecondPreimage(h, Hashed(h, data, salt)) && |acc| == HASH_LENGTH
    requires (if i % 2 == 0 then h(acc + other) else h(other + acc)) == NodeAt(h, data, salt, i / 2)
    ensures acc == NodeAt(h, data, salt, i)
  {
    hide *;
    var j := i / 2;
    var left, right := NodeAt(h, data, salt, 2 * j), NodeAt(h, data, salt, 2 * j + 1);
    NodeLength(h, data, salt, 2 * j);
    NodeLength(h, data, salt, 2 * j + 1);
    BranchHashed(h, data, salt, j);
    if i % 2 == 0 {
      OnlyPreimage(h, Hashed(h, data, salt), left + right, acc + other);
      GluedFront(acc, other, left, right);
    } else {
      OnlyPreimage(h, Hashed(h, data, salt), left + right, other + acc);
      GluedBack(other, acc, left, right);
    }
  }

  lemma OnlyPreimage(h: Bytes -> Bytes, xs: iset<Bytes>, x: Bytes, y: Bytes)
    requires NoSecondPreimage(h, xs) && x in xs && h(y) == h(x)
    ensures x == y
  {
  }

  lemma BranchHashed(h: Bytes -> Bytes, data: seq<Bytes>, salt: bool, j: nat)
    requires data != [] && 1 <= j < Width(data)
    ensures var text := NodeAt(h, data, salt, 2 * j) + NodeAt(h, data, salt, 2 * j + 1);
      text in Hashed(h, data, salt) && NodeAt(h, data, salt, j) == h(text)
  {
  }

  lemma LeafHashed(h: Bytes -> Bytes, data: seq<Bytes>, salt: bool, i: nat)
    requires data != [] && i < |data|
    ensures var text := LeafText(data[i], salt, i);
      text in Hashed(h, data, salt) && NodeAt(h, data, salt, i + Width(data)) == h(text)
  {
  }

  /** The node a proof of k hashes for `index` starts from. */
  function StartNode(index: nat, k: nat): nat {
    Pow2(k) + index % Pow2(k)
  }

  lemma StartLevel(index: nat, k: nat)
    ensures AtLevel(StartNode(index, k), k) && Ancestor(StartNode(index, k), k) == 1
    ensures StartNode(index, k) % Pow2(k) == (index + Pow2(k)) % Pow2(k)
  {
    hide Ancestor;
    AddMultiple(index, 1, Pow2(k));
    SmallMod(index % Pow2(k), Pow2(k));
    AncestorLevel(StartNode(index, k), k, k);
  }

  lemma SmallMod(r: nat, p: nat)
    requires r < p
    ensures (p + r) % p == r
  {
    ModIs(p + r, 1, p, r);
  }

  /** Whatever its depth, an accepted proof no deeper than the tree shows what its start node is the hash of. */
  lemma AcceptedHashesToNode(h: Bytes -> Bytes, data: seq<Bytes>, salt: bool, value: Bytes, proof: Proof, s: Bytes)
    requires data != [] && |proof.hashes| <= Depth(data)
    requires IsHash(h) && NoSecondPreimage(h, Hashed(h, data, salt))
    requires Verifies(value, proof, NodeAt(h, data, salt, 1), h, s)
    ensures var j := StartNode(proof.index, |proof.hashes|);
      AtLevel(j, |proof.hashes|) && 1 <= j < 2 * Width(data) && h(value + s) == NodeAt(h, data, salt, j)
  {
    hide *;
    var k := |proof.hashes|;
    var j := StartNode(proof.index, k);
    StartLevel(proof.index, k);
    LevelInTree(data, j, k);
    VerifiesIs(value, proof, NodeAt(h, data, salt, 1), h, s);
    ClimbBits(h, h(value + s), proof.index + Pow2(k), j, proof.hashes);
    HashedLength(h, value + s);
    ClimbOnlyFromNode(h, data, salt, j, k, h(value + s), proof.hashes);
  }

  /**
    Soundness: a proof of full depth that is accepted for leaf `index` against the root of a
    tree shows that the data is the value of that leaf.
   */
  lemma AcceptedIsTheLeaf(h: Bytes -> Bytes, data: seq<Bytes>, salt: bool, value: Bytes, proof: Proof)
    requires data != [] && proof.index < |data| && |proof.hashes| == Depth(data)
    requires IsHash(h) && NoSecondPreimage(h, Hashed(h, data, salt))
    requires Verifies(value, proof, NodeAt(h, data, salt, 1), h, SaltOf(salt, proof.index))
    ensures value == data[proof.index]
  {
    hide *;
    var i, s := proof.index, SaltOf(salt, proof.index);
    AcceptedHashesToNode(h, data, salt, value, proof, s);
    LeafStart(data, i);
    LeafHashed(h, data, salt, i);
    OnlyPreimage(h, Hashed(h, data, salt), LeafText(data[i], salt, i), value + s);
    LeafTextIs(data[i], salt, i);
    GluedBack(value, s, data[i], s);
  }

  /** In a salted tree a proof is good for its own place only: with the salt of place j, none for another place is accepted. */
  lemma SaltPinsPlace(h: Bytes -> Bytes, data: seq<Bytes>, value: Bytes, proof: Proof, j: nat)
    requires data != [] && proof.index < |data| <= TWO_32 && |proof.hashes| == Depth(data) && j < TWO_32
    requires IsHash(h) && NoSecondPreimage(h, Hashed(h, data, true))
    requires Verifies(value, proof, NodeAt(h, data, true, 1), h, Salt(j))
    ensures j == proof.index && value == data[j]
  {
    hide *;
    var i, s := proof.index, Salt(j);
    AcceptedHashesToNode(h, data, true, value, proof, s);
    LeafStart(data, i);
    LeafHashed(h, data, true, i);
    OnlyPreimage(h, Hashed(h, data, true), LeafText(data[i], true, i), value + s);
    SaltedIs(data[i], i);
    GluedBack(value, s, data[i], Salt(i));
    SaltsDiffer(i, j);
  }

  const TWO_32: nat := 0x1_0000_0000

  lemma SaltedIs(value: Bytes, i: nat)
    ensures LeafText(value, true, i) == value + Salt(i)
  {
  }

  lemma SaltsDiffer(i: nat, j: nat)
    requires i < TWO_32 && j < TWO_32
    ensures Salt(i) == Salt(j) <==> i == j
  {
    if Salt(i) == Salt(j) {
      SaltDigits(i);
      SaltDigits(j);
      assert Salt(i)[0] == Salt(j)[0] && Salt(i)[1] == Salt(j)[1] && Salt(i)[2] == Salt(j)[2] && Salt(i)[3] == Salt(j)[3];
    }
  }

  lemma SaltDigits(i: nat)
    requires i < TWO_32
    ensures var a: int, b: int, c: int, d: int := Salt(i)[0], Salt(i)[1], Salt(i)[2], Salt(i)[3];
      i == a * 0x100_0000 + b * 0x1_0000 + c * 0x100 + d
  {
    assert i / 0x100 / 0x100 == i / 0x1_0000 && i / 0x1_0000 / 0x100 == i / 0x100_0000;
  }

  lemma LeafStart(data: seq<Bytes>, index: nat)
    requires data != [] && index < Width(data)
    ensures StartNode(index, Depth(data)) == index + Width(data)
  {
    ModIs(index, 0, Pow2(Depth(data)), index);
  }

  /** The digest of padding leaves is nobody's. */
  ghost predicate NeverZero(h: Bytes -> Bytes) {
    forall x :: h(x) != ZERO_LEAF
  }

  /** Without salt, an accepted proof of full depth is for the leaf its index names modulo the width. */
  lemma AcceptedIsALeaf(h: Bytes -> Bytes, data: seq<Bytes>, value: Bytes, proof: Proof)
    requires data != [] && |proof.hashes| == Depth(data)
    requires IsHash(h) && NeverZero(h) && NoSecondPreimage(h, Hashed(h, data, false))
    requires Verifies(value, proof, NodeAt(h, data, false, 1), h, [])
    ensures proof.index % Width(data) < |data| && value == data[proof.index % Width(data)]
  {
    AcceptedHashesToNode(h, data, false, value, proof, []);
    var i := proof.index % Width(data);
    assert value + [] == value;
    hide Verifies, Hashed, NoSecondPreimage, IsHash, Depth, Pow2, CeilLog2;
    assert h(value) != ZERO_LEAF;
    LeafOrZero(h, data, i);
    LeafHashed(h, data, false, i);
    OnlyPreimage(h, Hashed(h, data, false), LeafText(data[i], false, i), value);
  }

  lemma LeafOrZero(h: Bytes -> Bytes, data: seq<Bytes>, i: nat)
    requires data != [] && i < Width(data)
    ensures Pow2(Depth(data)) == Width(data)
    ensures i >= |data| ==> NodeAt(h, data, false, i + Width(data)) == ZERO_LEAF
  {
    hide CeilLog2, Pow2, Depth;
  }

  /** An accepted proof that stops short of the leaves is for two digests, those below its start node. */
  lemma AcceptedIsInner(h: Bytes -> Bytes, data: seq<Bytes>, salt: bool, value: Bytes, proof: Proof, s: Bytes)
    requires data != [] && |proof.hashes| < Depth(data)
    requires IsHash(h) && NoSecondPreimage(h, Hashed(h, data, salt))
    requires Verifies(value, proof, NodeAt(h, data, salt, 1), h, s)
    ensures var j := StartNode(proof.index, |proof.hashes|);
      && 1 <= j < Width(data)
      && value + s == NodeAt(h, data, salt, 2 * j) + NodeAt(h, data, salt, 2 * j + 1)
      && |value + s| == 2 * HASH_LENGTH
  {
    hide *;
    var k := |proof.hashes|;
    var j := StartNode(proof.index, k);
    AcceptedHashesToNode(h, data, salt, value, proof, s);
    BelowWidth(data, j, k);
    BranchHashed(h, data, salt, j);
    NodeLength(h, data, salt, 2 * j);
    NodeLength(h, data, salt, 2 * j + 1);
    OnlyPreimage(h, Hashed(h, data, salt),
                 NodeAt(h, data, salt, 2 * j) + NodeAt(h, data, salt, 2 * j + 1), value + s);
  }

  /** And every inner node gives such a proof: the verifier does not look at the depth. */
  lemma InnerNodesVerify(h: Bytes -> Bytes, data: seq<Bytes>, salt: bool, j: nat, k: nat)
    requires data != [] && k < Depth(data) && AtLevel(j, k)
    ensures 1 <= j < Width(data)
    ensures Verifies(NodeAt(h, data, salt, 2 * j) + NodeAt(h, data, salt, 2 * j + 1),
                     Proof(Path(h, data, salt, j, k, k), j - Pow2(k)), NodeAt(h, data, salt, 1), h, [])
  {
    hide Path, CeilLog2, Depth, NodeAt, Climb, Ancestor;
    BelowWidth(data, j, k);
    var value := NodeAt(h, data, salt, 2 * j) + NodeAt(h, data, salt, 2 * j + 1);
    BranchHashed(h, data, salt, j);
    assert value + [] == value;
    AncestorLevel(j, k, k);
    ClimbPath(h, data, salt, j, k, k);
    assert j == j - Pow2(k) + Pow2(k);
  }

  /** On every tree of two leaves or more, the root's two children pass as a value without any proof. */
  lemma ChildrenOfRootVerify(h: Bytes -> Bytes, data: seq<Bytes>, salt: bool)
    requires |data| >= 2
    ensures 3 < 2 * Width(data)
    ensures Verifies(NodeAt(h, data, salt, 2) + NodeAt(h, data, salt, 3), Proof([], 0), NodeAt(h, data, salt, 1), h, [])
  {
    assert AtLevel(1, 0) && Depth(data) > 0;
    InnerNodesVerify(h, data, salt, 1, 0);
    assert Path(h, data, salt, 1, 0, 0) == [];
  }

  /** A climb in two parts. */
  lemma {:induction false} ClimbInTwo(h: Bytes -> Bytes, acc: Bytes, index: nat, hashes: seq<Bytes>, j: nat)
    requires j <= |hashes|
    ensures Climb(h, acc, index, hashes) == Climb(h, Climb(h, acc, index, hashes[..j]), Ancestor(index, j), hashes[j..])
    decreases j
  {
    if j == 0 {
      assert hashes[..0] == [] && hashes[0..] == hashes;
    } else {
      var next := if index % 2 == 0 then h(acc + hashes[0]) else h(hashes[0] + acc);
      ClimbInTwo(h, next, index / 2, hashes[1..], j - 1);
      assert hashes[1..][..j - 1] == hashes[..j][1..] && hashes[1..][j - 1..] == hashes[j..];
    }
  }

  predicate StartsOrEnds(text: Bytes, part: Bytes) {
    |text| >= |part| && (text[..|part|] == part || text[|text| - |part|..] == part)
  }

  /** No value begins or ends with a digest, nor is the two empty digests of a padding pair. */
  ghost predicate Plain(h: Bytes -> Bytes, data: seq<Bytes>) {
    && (forall x, y | x in data :: !StartsOrEnds(x, h(y)))
    && ZERO_LEAF + ZERO_LEAF !in data
  }

  lemma ShortIsPlain(h: Bytes -> Bytes, data: seq<Bytes>)
    requires IsHash(h) && forall x | x in data :: |x| < HASH_LENGTH
    ensures Plain(h, data)
  {
  }

  /** Every climb of a step or more ends in the digest of a text that begins or ends with a digest. */
  lemma {:induction false} ClimbEnds(h: Bytes -> Bytes, value: Bytes, index: nat, hashes: seq<Bytes>)
    returns (text: Bytes, y: Bytes)
    requires hashes != []
    ensures Climb(h, h(value), index, hashes) == h(text) && StartsOrEnds(text, h(y))
    decreases |hashes|
  {
    text, y := if index % 2 == 0 then h(value) + hashes[0] else hashes[0] + h(value), value;
    if |hashes| > 1 {
      text, y := ClimbEnds(h, text, index / 2, hashes[1..]);
    }
  }

  /** Over plain values nothing deeper than the tree is accepted. */
  lemma AcceptedIsNotDeeper(h: Bytes -> Bytes, data: seq<Bytes>, value: Bytes, proof: Proof)
    requires data != [] && Plain(h, data)
    requires IsHash(h) && NeverZero(h) && NoSecondPreimage(h, Hashed(h, data, false))
    requires Verifies(value, proof, NodeAt(h, data, false, 1), h, [])
    ensures |proof.hashes| <= Depth(data)
  {
    hide *;
    var d, n := Depth(data), |proof.hashes|;
    if n > d {
      var j, start := n - d, StartNode(proof.index, n);
      DeeperMeetsLeaf(h, data, value, proof);
      var text, y := ClimbEnds(h, value, start, proof.hashes[..j]);
      NoPlainLeaf(h, data, Ancestor(start, j), text, y);
    }
  }

  /** And nothing shallower is accepted for a plain value. */
  lemma ShallowIsNotPlain(h: Bytes -> Bytes, data: seq<Bytes>, value: Bytes, proof: Proof, plain: seq<Bytes>)
    requires data != [] && |proof.hashes| < Depth(data)
    requires IsHash(h) && NoSecondPreimage(h, Hashed(h, data, false)) && Plain(h, plain)
    requires Verifies(value, proof, NodeAt(h, data, false, 1), h, [])
    ensures value !in plain
  {
    hide Hashed, NoSecondPreimage, Verifies, Depth, CeilLog2, Pow2, Width, NodeAt, StartNode;
    var j := StartNode(proof.index, |proof.hashes|);
    AcceptedIsInner(h, data, false, value, proof, []);
    assert value + [] == value;
    var left, right := NodeAt(h, data, false, 2 * j), NodeAt(h, data, false, 2 * j + 1);
    NodeLength(h, data, false, 2 * j);
    PairOfDigests(h, data, j);
    if left != ZERO_LEAF {
      var y :| left == h(y);
      assert StartsOrEnds(left + right, h(y)) by { assert (left + right)[..|left|] == left; }
    }
  }

  /** A node is a digest, but for padding leaves, which come in pairs or last. */
  lemma PairOfDigests(h: Bytes -> Bytes, data: seq<Bytes>, j: nat)
    requires data != [] && 1 <= j < Width(data)
    ensures var left, right := NodeAt(h, data, false, 2 * j), NodeAt(h, data, false, 2 * j + 1);
      (exists y :: left == h(y)) || (left == right == ZERO_LEAF)
  {
    hide CeilLog2, Pow2, Depth, Width;
    var w := Width(data);
    if 2 * j >= w && 2 * j - w >= |data| {
      LeafOrZero(h, data, 2 * j - w);
      LeafOrZero(h, data, 2 * j + 1 - w);
    } else if 2 * j >= w {
      LeafHashed(h, data, false, 2 * j - w);
    } else {
      BranchHashed(h, data, false, 2 * j);
    }
  }

  lemma DeeperMeetsLeaf(h: Bytes -> Bytes, data: seq<Bytes>, value: Bytes, proof: Proof)
    requires data != [] && |proof.hashes| > Depth(data)
    requires IsHash(h) && NoSecondPreimage(h, Hashed(h, data, false))
    requires Verifies(value, proof, NodeAt(h, data, false, 1), h, [])
    ensures var n := |proof.hashes|;
      var j, start := n - Depth(data), StartNode(proof.index, n);
      && Width(data) <= Ancestor(start, j) < 2 * Width(data)
      && Climb(h, h(value), start, proof.hashes[..j]) == NodeAt(h, data, false, Ancestor(start, j))
  {
    hide *;
    var d, n := Depth(data), |proof.hashes|;
    var j, start := n - d, StartNode(proof.index, n);
    var leaf, acc, part := Ancestor(start, j), h(value), proof.hashes[..j];
    StartLevel(proof.index, n);
    AncestorLevel(start, n, j);
    LeafLevels(data, leaf);
    RootAncestor(data, leaf);
    VerifiesIs(value, proof, NodeAt(h, data, false, 1), h, []);
    assert value + [] == value;
    ClimbBits(h, acc, proof.index + Pow2(n), start, proof.hashes);
    ClimbInTwo(h, acc, start, proof.hashes, j);
    HashedLength(h, value);
    var text, y := ClimbEnds(h, value, start, part);
    HashedLength(h, text);
    ClimbOnlyFromNode(h, data, false, leaf, d, Climb(h, acc, start, part), proof.hashes[j..]);
  }

  lemma LeafLevels(data: seq<Bytes>, leaf: nat)
    requires data != [] && AtLevel(leaf, Depth(data))
    ensures Width(data) <= leaf < 2 * Width(data)
  {
  }

  lemma NoPlainLeaf(h: Bytes -> Bytes, data: seq<Bytes>, leaf: nat, text: Bytes, y: Bytes)
    requires data != [] && Plain(h, data) && StartsOrEnds(text, h(y))
    requires NeverZero(h) && NoSecondPreimage(h, Hashed(h, data, false))
    requires Width(data) <= leaf < 2 * Width(data)
    ensures NodeAt(h, data, false, leaf) != h(text)
  {
    hide Hashed, NoSecondPreimage, CeilLog2, Pow2, Depth, Width, StartsOrEnds;
    var i: nat := leaf - Width(data);
    assert h(text) != ZERO_LEAF;
    LeafOrZero(h, data, i);
    assert i < |data| ==> data[i] in data;
    if NodeAt(h, data, false, leaf) == h(text) {
      LeafHashed(h, data, false, i);
      OnlyPreimage(h, Hashed(h, data, false), LeafText(data[i], false, i), text);
    }
  }

  lemma HashedLength(h: Bytes -> Bytes, x: Bytes)
    requires IsHash(h)
    ensures |h(x)| == HASH_LENGTH
  {
  }

  lemma LeafTextIs(value: Bytes, salt: bool, i: nat)
    ensures LeafText(value, salt, i) == value + SaltOf(salt, i)
  {
  }

  lemma RootAncestor(data: seq<Bytes>, leaf: nat)
    requires data != [] && AtLevel(leaf, Depth(data))
    ensures Ancestor(leaf, Depth(data)) == 1 && 1 < 2 * Width(data)
  {
    AncestorLevel(leaf, Depth(data), Depth(data));
  }
}
