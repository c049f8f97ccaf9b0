/** Proofs of several values at once: generation drops what can be computed, verification recomputes it. */
module MultiProofs {
  import opened Bytes
  import opened Merkle
  import opened MerkleTrees

  datatype MultiProof = MultiProof(values: nat, hashes: map<nat, Bytes>, indices: seq<nat>)

  /** Node i and its ancestors, the root left out. */
  function PathNodes(i: nat): (s: set<nat>)
    ensures forall j | j in s :: 1 < j <= i
  {
    if i <= 1 then {} else {i} + PathNodes(i / 2)
  }

  /** All path nodes of the leaves `indices`, in a tree of `w` leaves. */
  function Marks(indices: seq<nat>, w: nat): set<nat> {
    if indices == [] then {}
    else Marks(indices[..|indices| - 1], w) + PathNodes(indices[|indices| - 1] + w)
  }

  function Siblings(s: set<nat>): set<nat>
    requires forall j | j in s :: j > 1
  {
    set j | j in s :: Sibling(j)
  }

  lemma {:induction false} PathWithin(i: nat, j: nat)
    requires j in PathNodes(i)
    ensures PathNodes(j) <= PathNodes(i)
    ensures j != i ==> 2 * j in PathNodes(i) || 2 * j + 1 in PathNodes(i)
  {
    if j != i {
      PathWithin(i / 2, j);
      if j == i / 2 {
        assert i == 2 * j || i == 2 * j + 1;
      }
    }
  }

  /** Every path ends in a child of the root. */
  lemma {:induction false} PathTop(i: nat)
    requires i > 1
    ensures 2 in PathNodes(i) || 3 in PathNodes(i)
  {
    if i > 3 {
      PathTop(i / 2);
    }
  }

  lemma {:induction false} MarksAre(indices: seq<nat>, w: nat, bound: nat)
    requires forall a | 0 <= a < |indices| :: indices[a] + w < bound
    ensures forall j | j in Marks(indices, w) :: 1 < j < bound
    ensures forall j | j in Marks(indices, w) && j < w :: 2 * j in Marks(indices, w) || 2 * j + 1 in Marks(indices, w)
    ensures indices != [] && w > 1 ==> 2 in Marks(indices, w) || 3 in Marks(indices, w)
  {
    if indices != [] {
      var front, leaf := indices[..|indices| - 1], indices[|indices| - 1] + w;
      MarksAre(front, w, bound);
      forall j | j in PathNodes(leaf) && j < w
        ensures 2 * j in PathNodes(leaf) || 2 * j + 1 in PathNodes(leaf)
      {
        PathWithin(leaf, j);
      }
      if w > 1 {
        PathTop(leaf);
      }
    }
  }

  lemma {:induction false} LeavesMarked(indices: seq<nat>, w: nat, a: nat)
    requires a < |indices| && indices[a] + w > 1
    ensures indices[a] + w in Marks(indices, w)
  {
    if a < |indices| - 1 {
      LeavesMarked(indices[..|indices| - 1], w, a);
    }
  }

  /** Entries are tree nodes. */
  ghost predicate AllNodes(h: Bytes -> Bytes, data: seq<Bytes>, salt: bool, m: map<nat, Bytes>)
    requires data != []
  {
    forall j | j in m :: 1 <= j < 2 * Width(data) && m[j] == NodeAt(h, data, salt, j)
  }

  /** What generation promises: the siblings of path nodes that are not path nodes themselves. */
  ghost predicate Proves(h: Bytes -> Bytes, data: seq<Bytes>, salt: bool, p: MultiProof)
    requires data != []
  {
    && p.values == Width(data)
    && (forall a | 0 <= a < |p.indices| :: p.indices[a] < |data|)
    && AllNodes(h, data, salt, p.hashes)
    && (forall j | j in Marks(p.indices, p.values) :: j > 1)
    && p.hashes.Keys == Siblings(Marks(p.indices, p.values)) - Marks(p.indices, p.values)
  }

  /** The map after the leaf hashes are filed. */
  function WithLeaves(h: Bytes -> Bytes, data: seq<Bytes>, salt: bool, p: MultiProof, n: nat): map<nat, Bytes>
    requires n <= |p.indices| && n <= |data|
  {
    if n == 0 then p.hashes
    else
      WithLeaves(h, data, salt, p, n - 1)[
        p.indices[n - 1] + p.values := h(LeafText(data[n - 1], salt, p.indices[n - 1]))]
  }

  /** Slot i is computed when it is missing and both children are there. */
  function Derive(h: Bytes -> Bytes, m: map<nat, Bytes>, i: nat): map<nat, Bytes> {
    if i !in m && 2 * i in m && 2 * i + 1 in m then m[i := h(m[2 * i] + m[2 * i + 1])] else m
  }

  function DeriveDown(h: Bytes -> Bytes, m: map<nat, Bytes>, i: nat): map<nat, Bytes>
    decreases i
  {
    if i == 0 then m else DeriveDown(h, Derive(h, m, i), i - 1)
  }

  /** The root slot of the completed map, empty if it was never filled. */
  predicate VerifiesMulti(h: Bytes -> Bytes, data: seq<Bytes>, salt: bool, p: MultiProof, root: Bytes)
    requires |p.indices| <= |data| && p.values >= 1
  {
    var m := DeriveDown(h, WithLeaves(h, data, salt, p, |p.indices|), p.values - 1);
    (if 1 in m then m[1] else []) == root
  }

  method VerifyMultiProofUsing(h: Bytes -> Bytes, data: seq<Bytes>, salt: bool, p: MultiProof, root: Bytes)
    returns (ok: bool)
    requires |p.indices| <= |data| && p.values >= 1
    ensures ok <==> VerifiesMulti(h, data, salt, p, root)
  {
    var m: map<nat, Bytes> := p.hashes;
    for a := 0 to |p.indices|
      invariant m == WithLeaves(h, data, salt, p, a)
    {
      m := m[p.indices[a] + p.values := h(LeafText(data[a], salt, p.indices[a]))];
    }
    ghost var full := DeriveDown(h, m, p.values - 1);
    var i: nat := p.values - 1;
    while i > 0
      invariant 0 <= i && DeriveDown(h, m, i) == full
    {
      if i !in m {
        if 2 * i in m {
          if 2 * i + 1 in m {
            m := m[i := h(m[2 * i] + m[2 * i + 1])];
          }
        }
      }
      i := i - 1;
    }
    return (if 1 in m then m[1] else []) == root;
  }

  /** `values` are the tree's values at the proven leaves. */
  predicate Matches(data: seq<Bytes>, values: seq<Bytes>, indices: seq<nat>) {
    && |values| == |indices|
    && forall a | 0 <= a < |indices| :: indices[a] < |data| && data[indices[a]] == values[a]
  }

  /** The first n leaf hashes are filed, next to what the proof brought. */
  ghost predicate LeavesIn(h: Bytes -> Bytes, data: seq<Bytes>, salt: bool, p: MultiProof, m: map<nat, Bytes>, n: nat)
    requires data != [] && n <= |p.indices|
  {
    && AllNodes(h, data, salt, m)
    && p.hashes.Keys <= m.Keys
    && forall a | 0 <= a < n :: p.indices[a] + p.values in m
  }

  ghost predicate FiledTo(h: Bytes -> Bytes, data: seq<Bytes>, salt: bool, values: seq<Bytes>, p: MultiProof, n: nat) {
    && data != [] && n <= |p.indices| == |values|
    && LeavesIn(h, data, salt, p, WithLeaves(h, values, salt, p, n), n)
  }

  lemma {:induction false} LeavesFiled(h: Bytes -> Bytes, data: seq<Bytes>, salt: bool, values: seq<Bytes>, p: MultiProof, n: nat)
    requires data != [] && Proves(h, data, salt, p) && Matches(data, values, p.indices) && n <= |p.indices|
    ensures FiledTo(h, data, salt, values, p, n)
  {
    hide *;
    if n == 0 {
      NoneFiled(h, data, salt, values, p);
    } else {
      LeavesFiled(h, data, salt, values, p, n - 1);
      NextFiled(h, data, salt, values, p, n);
    }
  }

  lemma NoneFiled(h: Bytes -> Bytes, data: seq<Bytes>, salt: bool, values: seq<Bytes>, p: MultiProof)
    requires data != [] && Proves(h, data, salt, p) && Matches(data, values, p.indices)
    ensures FiledTo(h, data, salt, values, p, 0)
  {
    hide AllNodes, Marks, Siblings;
  }

  lemma NextFiled(h: Bytes -> Bytes, data: seq<Bytes>, salt: bool, values: seq<Bytes>, p: MultiProof, n: nat)
    requires data != [] && Proves(h, data, salt, p) && Matches(data, values, p.indices)
    requires 0 < n <= |p.indices| && FiledTo(h, data, salt, values, p, n - 1)
    ensures FiledTo(h, data, salt, values, p, n)
  {
    hide LeavesIn, NodeAt, LeafText, Proves, Width;
    LeafMatches(h, data, salt, values, p, n - 1);
    FileOne(h, data, salt, p, WithLeaves(h, values, salt, p, n - 1), n);
  }

  lemma FileOne(h: Bytes -> Bytes, data: seq<Bytes>, salt: bool, p: MultiProof, m: map<nat, Bytes>, n: nat)
    requires data != [] && 0 < n <= |p.indices| && LeavesIn(h, data, salt, p, m, n - 1)
    requires 1 <= p.indices[n - 1] + p.values < 2 * Width(data)
    ensures var k := p.indices[n - 1] + p.values;
      LeavesIn(h, data, salt, p, m[k := NodeAt(h, data, salt, k)], n)
  {
    hide NodeAt, Width, Depth, CeilLog2, Pow2;
  }

  lemma LeafMatches(h: Bytes -> Bytes, data: seq<Bytes>, salt: bool, values: seq<Bytes>, p: MultiProof, a: nat)
    requires data != [] && Proves(h, data, salt, p) && Matches(data, values, p.indices) && a < |p.indices|
    ensures var k := p.indices[a] + p.values;
      && 1 <= k < 2 * Width(data)
      && NodeAt(h, data, salt, k) == h(LeafText(values[a], salt, p.indices[a]))
  {
    hide Marks, Siblings, CeilLog2, Pow2;
    NodeIs(h, data, salt, p.indices[a] + p.values);
  }

  /** Nodes the downward loop still needs at slot i are all there from i + 1 on. */
  ghost predicate Filled(p: MultiProof, m: map<nat, Bytes>, i: nat) {
    && p.hashes.Keys <= m.Keys
    && forall j | (j in Marks(p.indices, p.values) || j == 1) && (j > i || j >= p.values) :: j in m
  }

  /** When a path node's turn comes both its children are there. */
  lemma ChildrenThere(h: Bytes -> Bytes, data: seq<Bytes>, salt: bool, p: MultiProof, m: map<nat, Bytes>, i: nat)
    requires data != [] && Proves(h, data, salt, p) && p.indices != []
    requires Filled(p, m, i) && 0 < i < p.values && (i in Marks(p.indices, p.values) || i == 1)
    ensures 2 * i in m && 2 * i + 1 in m
  {
    hide AllNodes, NodeAt, Marks, Width, Depth, CeilLog2, Pow2;
    var w, marks := p.values, Marks(p.indices, p.values);
    MarksAre(p.indices, w, 2 * w);
    var c := if 2 * i in marks then 2 * i else 2 * i + 1;
    assert c in marks;
    assert Sibling(c) in Siblings(marks);
    assert {c, Sibling(c)} == {2 * i, 2 * i + 1};
  }

  lemma DeriveIsNode(h: Bytes -> Bytes, data: seq<Bytes>, salt: bool, m: map<nat, Bytes>, i: nat)
    requires data != [] && AllNodes(h, data, salt, m) && 0 < i < Width(data)
    ensures AllNodes(h, data, salt, Derive(h, m, i))
  {
    hide NodeAt, Width;
    NodeIs(h, data, salt, i);
  }

  lemma DeriveFills(h: Bytes -> Bytes, data: seq<Bytes>, salt: bool, p: MultiProof, m: map<nat, Bytes>, i: nat)
    requires data != [] && Proves(h, data, salt, p) && p.indices != []
    requires AllNodes(h, data, salt, m) && Filled(p, m, i) && 0 < i < p.values
    ensures AllNodes(h, data, salt, Derive(h, m, i)) && Filled(p, Derive(h, m, i), i - 1)
  {
    hide AllNodes, NodeAt, Marks, Siblings, Width;
    DeriveIsNode(h, data, salt, m, i);
    if i in Marks(p.indices, p.values) || i == 1 {
      ChildrenThere(h, data, salt, p, m, i);
    }
  }

  lemma {:induction false} DeriveReachesRoot(h: Bytes -> Bytes, data: seq<Bytes>, salt: bool, p: MultiProof, m: map<nat, Bytes>, i: nat)
    requires data != [] && Proves(h, data, salt, p) && p.indices != []
    requires AllNodes(h, data, salt, m) && Filled(p, m, i) && i < p.values
    ensures var full := DeriveDown(h, m, i);
      1 in full && full[1] == NodeAt(h, data, salt, 1)
    decreases i
  {
    if i > 0 {
      DeriveFills(h, data, salt, p, m, i);
      DeriveReachesRoot(h, data, salt, p, Derive(h, m, i), i - 1);
    }
  }

  /** With every leaf filed, the downward loop has all it needs at the leaf level. */
  lemma LeavesFill(h: Bytes -> Bytes, data: seq<Bytes>, salt: bool, values: seq<Bytes>, p: MultiProof)
    requires data != [] && values != [] && Proves(h, data, salt, p) && FiledTo(h, data, salt, values, p, |p.indices|)
    ensures var m := WithLeaves(h, values, salt, p, |p.indices|);
      p.values >= 1 && p.indices != [] && AllNodes(h, data, salt, m) && Filled(p, m, p.values - 1)
  {
    hide Marks, AllNodes, NodeAt, Width, Depth;
    var m := WithLeaves(h, values, salt, p, |p.indices|);
    forall j | (j in Marks(p.indices, p.values) || j == 1) && j >= p.values ensures j in m {
      OnlyLeavesAreLow(p.indices, p.values, j);
    }
  }

  /** Completeness: what generation promises verifies against the root. */
  lemma MultiProofsVerify(h: Bytes -> Bytes, data: seq<Bytes>, salt: bool, values: seq<Bytes>, p: MultiProof)
    requires data != [] && values != [] && Proves(h, data, salt, p) && Matches(data, values, p.indices)
    ensures VerifiesMulti(h, values, salt, p, NodeAt(h, data, salt, 1))
  {
    hide Proves, FiledTo, Filled, AllNodes, NodeAt, WithLeaves, DeriveDown;
    LeavesFiled(h, data, salt, values, p, |p.indices|);
    LeavesFill(h, data, salt, values, p);
    DeriveReachesRoot(h, data, salt, p, WithLeaves(h, values, salt, p, |p.indices|), p.values - 1);
  }

  /** A path node at leaf level is one of the leaves. */
  lemma {:induction false} OnlyLeavesAreLow(indices: seq<nat>, w: nat, j: nat)
    requires indices != [] && w >= 1 && j >= w && (j in Marks(indices, w) || j == 1)
    requires forall a | 0 <= a < |indices| :: indices[a] < w
    ensures exists a | 0 <= a < |indices| :: j == indices[a] + w
  {
    var n := |indices| - 1;
    var leaf := indices[n] + w;
    if j in PathNodes(leaf) {
      assert j == indices[n] + w;
    } else if n > 0 {
      OnlyLeavesAreLow(indices[..n], w, j);
      var a :| 0 <= a < n && j == indices[..n][a] + w;
      assert j == indices[a] + w;
    } else {
      assert Marks(indices[..n], w) == {};
      assert j == indices[n] + w;
    }
  }

  /** Path nodes of the leaf `leaf` below node j. */
  ghost function Visited(leaf: nat, j: nat): set<nat> {
    PathNodes(leaf) - PathNodes(j)
  }

  lemma VisitNext(leaf: nat, j: nat)
    requires j in PathNodes(leaf)
    ensures Visited(leaf, j / 2) == Visited(leaf, j) + {j}
    ensures j / 2 > 1 ==> j / 2 in PathNodes(leaf)
  {
    PathWithin(leaf, j);
    assert PathNodes(j) == {j} + PathNodes(j / 2);
    if j / 2 > 1 {
      assert j / 2 in PathNodes(j / 2);
    }
  }

  /** Marked nodes are flagged, and their siblings' hashes are in the map. */
  ghost predicate Combined(t: MerkleTree, marks: set<nat>, m: map<nat, Bytes>, flags: seq<bool>)
    requires t.data != []
  {
    && (forall j | j in marks :: 1 < j < |flags|)
    && m.Keys == Siblings(marks)
    && AllNodes(t.hash, t.data, t.salt, m)
    && forall j | 0 <= j < |flags| :: flags[j] <==> j in marks
  }

  lemma CombineOne(t: MerkleTree, marks: set<nat>, m: map<nat, Bytes>, flags: seq<bool>, j: nat, x: Bytes)
    requires t.data != [] && Combined(t, marks, m, flags) && 1 < j < |flags|
    requires Sibling(j) < 2 * Width(t.data) && x == NodeAt(t.hash, t.data, t.salt, Sibling(j))
    ensures Combined(t, marks + {j}, m[Sibling(j) := x], flags[j := true])
  {
    hide NodeAt, Width, Depth;
    assert Siblings(marks + {j}) == Siblings(marks) + {Sibling(j)};
  }

  /** Step 1: one proof per value. */
  method SingleProofs(t: MerkleTree, values: seq<Bytes>) returns (found: bool, proofs: seq<Proof>)
    requires t.Valid()
    ensures found <==> forall v | v in values :: v in t.data
    ensures found ==> |proofs| == |values|
    ensures found ==> forall a | 0 <= a < |values| :: IsProofOf(t, values[a], proofs[a])
  {
    hide *;
    proofs := [];
    for a := 0 to |values|
      invariant |proofs| == a && forall b | 0 <= b < a :: values[b] in t.data
      invariant forall b | 0 <= b < a :: IsProofOf(t, values[b], proofs[b])
    {
      var ok, p := t.GenerateProof(values[a], 0);
      if !ok { return false, proofs; }
      ProofIs(t, values[a], p);
      proofs := proofs + [p];
    }
    return true, proofs;
  }

  ghost predicate IsProofOf(t: MerkleTree, value: Bytes, p: Proof) {
    && t.data != []
    && p.index < |t.data| && t.data[p.index] == value
    && AtLevel(p.index + Width(t.data), Depth(t.data))
    && p.hashes == Path(t.hash, t.data, t.salt, p.index + Width(t.data), Depth(t.data), Depth(t.data))
  }

  ghost predicate AreProofsOf(t: MerkleTree, values: seq<Bytes>, proofs: seq<Proof>, indices: seq<nat>) {
    && |indices| == |proofs| == |values|
    && forall a | 0 <= a < |values| :: IsProofOf(t, values[a], proofs[a]) && indices[a] == proofs[a].index
  }

  lemma ProofIs(t: MerkleTree, value: Bytes, p: Proof)
    requires t.data != [] && p.index < |t.data| && t.data[p.index] == value
    requires AtLevel(p.index + Width(t.data), Depth(t.data))
    requires p.hashes == Path(t.hash, t.data, t.salt, p.index + Width(t.data), Depth(t.data), Depth(t.data) - 0)
    ensures IsProofOf(t, value, p)
  {
  }

  /** Node j, k levels below the root, is on the leaf's path; the rest of its proof is at hand. */
  ghost predicate Climbing(t: MerkleTree, p: Proof, j: nat, k: nat)
    requires t.data != []
  {
    && k <= Depth(t.data) && k <= |p.hashes| && AtLevel(j, k)
    && Path(t.hash, t.data, t.salt, j, k, k) == p.hashes[|p.hashes| - k..]
    && (j > 1 ==> j in PathNodes(p.index + Width(t.data)))
  }

  lemma ClimbStart(t: MerkleTree, p: Proof, value: Bytes)
    requires IsProofOf(t, value, p)
    ensures Climbing(t, p, p.index + Width(t.data), Depth(t.data)) && |p.hashes| == Depth(t.data)
  {
  }

  lemma ClimbNext(t: MerkleTree, p: Proof, j: nat, k: nat)
    requires t.data != [] && j > 1 && Climbing(t, p, j, k)
    ensures 0 < k <= |p.hashes| && 1 < j < 2 * Width(t.data) && Sibling(j) < 2 * Width(t.data)
    ensures p.hashes[|p.hashes| - k] == NodeAt(t.hash, t.data, t.salt, Sibling(j))
    ensures Climbing(t, p, j / 2, k - 1)
  {
    hide Pow2, CeilLog2, NodeAt, Path, PathNodes, Visited, AtLevel, Width, Depth;
    AboveRoot(j, k);
    LevelInTree(t.data, j, k);
    PathNext(t.hash, t.data, t.salt, j, k, k);
    VisitNext(p.index + Width(t.data), j);
    ParentLevel(j, k);
    LevelInTree(t.data, Sibling(j), k);
    var rest := p.hashes[|p.hashes| - k..];
    assert rest[1..] == p.hashes[|p.hashes| - (k - 1)..] && rest[0] == p.hashes[|p.hashes| - k];
  }

  /** The state of step 2 for one leaf when node j is next. */
  ghost predicate Combining(t: MerkleTree, p: Proof, marks: set<nat>, m: map<nat, Bytes>, flags: seq<bool>, j: nat, k: nat) {
    && t.data != [] && |flags| == 2 * Width(t.data)
    && Climbing(t, p, j, k)
    && Combined(t, marks + Visited(p.index + Width(t.data), j), m, flags)
  }

  lemma CombineStart(t: MerkleTree, value: Bytes, p: Proof, marks: set<nat>, m: map<nat, Bytes>, flags: seq<bool>)
    requires IsProofOf(t, value, p) && Combined(t, marks, m, flags) && |flags| == 2 * Width(t.data)
    ensures Combining(t, p, marks, m, flags, p.index + Width(t.data), |p.hashes|)
  {
    ClimbStart(t, p, value);
    var leaf := p.index + Width(t.data);
    assert marks + Visited(leaf, leaf) == marks;
  }

  lemma CombineNext(t: MerkleTree, p: Proof, marks: set<nat>, m: map<nat, Bytes>, flags: seq<bool>, j: nat, k: nat)
    requires j > 1 && Combining(t, p, marks, m, flags, j, k)
    ensures 0 < k <= |p.hashes| && j < |flags|
    ensures Combining(t, p, marks, m[Sibling(j) := p.hashes[|p.hashes| - k]], flags[j := true], j / 2, k - 1)
  {
    hide Combined, Climbing, Visited, Width, Depth, Path, NodeAt, PathNodes, Siblings;
    var leaf := p.index + Width(t.data);
    OnPath(t, p, j, k);
    ClimbNext(t, p, j, k);
    CombineOne(t, marks + Visited(leaf, j), m, flags, j, p.hashes[|p.hashes| - k]);
    VisitNext(leaf, j);
    assert marks + Visited(leaf, j / 2) == marks + Visited(leaf, j) + {j};
  }

  lemma CombineEnd(t: MerkleTree, p: Proof, marks: set<nat>, m: map<nat, Bytes>, flags: seq<bool>, j: nat, k: nat)
    requires j <= 1 && Combining(t, p, marks, m, flags, j, k)
    ensures Combined(t, marks + PathNodes(p.index + Width(t.data)), m, flags) && |flags| == 2 * Width(t.data)
  {
    VisitedAll(p.index + Width(t.data), j);
  }

  lemma OnPath(t: MerkleTree, p: Proof, j: nat, k: nat)
    requires t.data != [] && j > 1 && Climbing(t, p, j, k)
    ensures j in PathNodes(p.index + Width(t.data))
  {
  }

  /** Step 2 for one leaf: file the hashes of its proof and flag its path. */
  method CombinePath(t: MerkleTree, p: Proof, m0: map<nat, Bytes>, flags: array<bool>, ghost value: Bytes, ghost marks: set<nat>)
    returns (m: map<nat, Bytes>)
    requires t.data != [] && IsProofOf(t, value, p) && flags.Length == 2 * Width(t.data)
    requires Combined(t, marks, m0, flags[..])
    modifies flags
    ensures Combined(t, marks + PathNodes(p.index + Width(t.data)), m, flags[..])
  {
    hide *;
    m := m0;
    var j: nat := p.index + Width(t.data);
    var hashNum: nat := 0;
    ghost var k: nat := |p.hashes|;
    CombineStart(t, value, p, marks, m, flags[..]);
    while j > 1
      invariant k + hashNum == |p.hashes| && Combining(t, p, marks, m, flags[..], j, k)
      decreases j
    {
      ghost var before := flags[..];
      CombineNext(t, p, marks, m, before, j, k);
      m := m[Sibling(j) := p.hashes[hashNum]];
      flags[j] := true;
      assert flags[..] == before[j := true];
      hashNum := hashNum + 1;
      j := j / 2;
      k := k - 1;
    }
    CombineEnd(t, p, marks, m, flags[..], j, k);
  }

  lemma AboveRoot(j: nat, k: nat)
    requires AtLevel(j, k) && j > 1
    ensures k > 0
  {
  }

  lemma VisitedAll(leaf: nat, j: nat)
    requires j <= 1
    ensures Visited(leaf, j) == PathNodes(leaf)
  {
  }

  /** After step 3 has walked the nodes `done`: a flagged sibling is gone. */
  ghost predicate Pruned(t: MerkleTree, marks: set<nat>, done: set<nat>, m: map<nat, Bytes>)
    requires t.data != []
  {
    && (forall j | j in marks :: j > 1)
    && done <= marks
    && AllNodes(t.hash, t.data, t.salt, m)
    && m.Keys == Siblings(marks) - Siblings(done) * marks
  }

  lemma PruneOne(t: MerkleTree, marks: set<nat>, done: set<nat>, m: map<nat, Bytes>, j: nat)
    requires t.data != [] && Pruned(t, marks, done, m) && j in marks
    ensures Pruned(t, marks, done + {j}, if Sibling(j) in marks then m - {Sibling(j)} else m)
  {
    hide NodeAt, Width, Depth;
    assert Siblings(done + {j}) == Siblings(done) + {Sibling(j)};
  }

  /** Exactly the marked nodes are flagged. */
  ghost predicate Flagged(flags: seq<bool>, marks: set<nat>) {
    && |flags| % 2 == 0
    && (forall j | j in marks :: 1 < j < |flags|)
    && forall j | 0 <= j < |flags| :: flags[j] <==> j in marks
  }

  lemma FlagOf(flags: seq<bool>, marks: set<nat>, leaf: nat, j: nat)
    requires Flagged(flags, marks) && j in PathNodes(leaf) && PathNodes(leaf) <= marks
    ensures j in marks && Sibling(j) < |flags| && (flags[Sibling(j)] <==> Sibling(j) in marks)
  {
  }

  lemma PruneNext(t: MerkleTree, marks: set<nat>, done: set<nat>, leaf: nat, m: map<nat, Bytes>, j: nat)
    requires t.data != [] && j in PathNodes(leaf) && PathNodes(leaf) <= marks
    requires Pruned(t, marks, done + Visited(leaf, j), m)
    ensures Pruned(t, marks, done + Visited(leaf, j / 2), if Sibling(j) in marks then m - {Sibling(j)} else m)
  {
    PruneOne(t, marks, done + Visited(leaf, j), m, j);
    VisitNext(leaf, j);
    assert done + Visited(leaf, j / 2) == done + Visited(leaf, j) + {j};
  }

  /** Step 3 for one leaf: drop the hashes of siblings that are flagged. */
  method PrunePath(t: MerkleTree, leaf: nat, m0: map<nat, Bytes>, flags: array<bool>, ghost marks: set<nat>, ghost done: set<nat>)
    returns (m: map<nat, Bytes>)
    requires t.data != [] && PathNodes(leaf) <= marks && Flagged(flags[..], marks)
    requires Pruned(t, marks, done, m0)
    ensures Pruned(t, marks, done + PathNodes(leaf), m)
  {
    m := m0;
    var j := leaf;
    assert done + Visited(leaf, leaf) == done;
    assert j > 1 ==> j in PathNodes(leaf);
    hide *;
    while j > 1
      invariant j > 1 ==> j in PathNodes(leaf)
      invariant Pruned(t, marks, done + Visited(leaf, j), m)
      decreases j
    {
      FlagOf(flags[..], marks, leaf, j);
      PruneNext(t, marks, done, leaf, m, j);
      VisitNext(leaf, j);
      if flags[Sibling(j)] {
        m := m - {Sibling(j)};
      }
      j := j / 2;
    }
    VisitedAll(leaf, j);
  }

  lemma CombineBegin(t: MerkleTree, flags: seq<bool>)
    requires t.data != [] && forall j | 0 <= j < |flags| :: !flags[j]
    ensures Combined(t, Marks([], Width(t.data)), map[], flags)
  {
  }

  lemma PruneBegin(t: MerkleTree, marks: set<nat>, m: map<nat, Bytes>, flags: seq<bool>)
    requires t.data != [] && Combined(t, marks, m, flags) && |flags| % 2 == 0
    ensures Pruned(t, marks, {}, m) && Flagged(flags, marks)
  {
  }

  lemma PruneEnd(t: MerkleTree, values: seq<Bytes>, proofs: seq<Proof>, indices: seq<nat>, m: map<nat, Bytes>)
    requires t.data != [] && AreProofsOf(t, values, proofs, indices)
    requires var marks := Marks(indices, Width(t.data)); Pruned(t, marks, marks, m)
    ensures Proves(t.hash, t.data, t.salt, MultiProof(Width(t.data), m, indices))
    ensures Matches(t.data, values, indices)
  {
    hide NodeAt, Depth, Width, Path, Marks;
    var marks := Marks(indices, Width(t.data));
    assert Siblings(marks) - Siblings(marks) * marks == Siblings(marks) - marks;
  }

  lemma MarksNext(indices: seq<nat>, w: nat, a: nat)
    requires a < |indices|
    ensures Marks(indices[..a + 1], w) == Marks(indices[..a], w) + PathNodes(indices[a] + w)
  {
    assert indices[..a + 1][..a] == indices[..a];
  }

  lemma {:induction false} PathMarked(indices: seq<nat>, w: nat, a: nat)
    requires a < |indices|
    ensures PathNodes(indices[a] + w) <= Marks(indices, w)
  {
    if a < |indices| - 1 {
      PathMarked(indices[..|indices| - 1], w, a);
    }
  }

  /** Steps 2 and 3 after step 1; a value that is not in the tree is an error. */
  method GenerateMultiProof(t: MerkleTree, values: seq<Bytes>) returns (found: bool, p: MultiProof)
    requires t.Valid()
    ensures found <==> forall v | v in values :: v in t.data
    ensures found ==> Proves(t.hash, t.data, t.salt, p) && Matches(t.data, values, p.indices)
    ensures found && values != [] ==> VerifiesMulti(t.hash, values, t.salt, p, t.Root())
  {
    hide IsProofOf, Proves, Matches, VerifiesMulti, Pruned, Combined, Marks, NodeAt, Width, Depth, Path;
    var proofs;
    found, proofs := SingleProofs(t, values);
    if !found { return false, MultiProof(0, map[], []); }
    var indices := seq(|values|, a requires 0 <= a < |values| => proofs[a].index);
    var m, flags := CombineAll(t, values, proofs, indices);
    m := PruneAll(t, indices, m, flags);
    p := MultiProof(Width(t.data), m, indices);
    PruneEnd(t, values, proofs, indices, m);
    if values != [] {
      MultiProofsVerify(t.hash, t.data, t.salt, values, p);
    }
  }

  method CombineAll(t: MerkleTree, values: seq<Bytes>, proofs: seq<Proof>, indices: seq<nat>)
    returns (m: map<nat, Bytes>, flags: array<bool>)
    requires t.data != [] && AreProofsOf(t, values, proofs, indices)
    ensures Combined(t, Marks(indices, Width(t.data)), m, flags[..]) && flags.Length % 2 == 0
  {
    hide IsProofOf, Combined, Marks, Width, NodeAt, Path, Depth;
    var w: nat := Width(t.data);
    flags := new bool[2 * w](j => false);
    m := map[];
    CombineBegin(t, flags[..]);
    assert indices[..0] == [] && indices[..|indices|] == indices;
    for a := 0 to |proofs|
      invariant Combined(t, Marks(indices[..a], w), m, flags[..])
    {
      m := CombinePath(t, proofs[a], m, flags, values[a], Marks(indices[..a], w));
      MarksNext(indices, w, a);
    }
  }

  method PruneAll(t: MerkleTree, indices: seq<nat>, m0: map<nat, Bytes>, flags: array<bool>)
    returns (m: map<nat, Bytes>)
    requires t.data != [] && Combined(t, Marks(indices, Width(t.data)), m0, flags[..]) && flags.Length % 2 == 0
    ensures var marks := Marks(indices, Width(t.data)); Pruned(t, marks, marks, m)
  {
    m := m0;
    var w: nat := Width(t.data);
    ghost var marks := Marks(indices, w);
    PruneBegin(t, marks, m, flags[..]);
    MarksNone(indices, w);
    assert indices[..|indices|] == indices;
    hide *;
    for a := 0 to |indices|
      invariant Pruned(t, marks, Marks(indices[..a], w), m) && Flagged(flags[..], marks)
    {
      PathMarked(indices, w, a);
      m := PrunePath(t, indices[a] + w, m, flags, marks, Marks(indices[..a], w));
      MarksNext(indices, w, a);
    }
  }

  lemma MarksNone(indices: seq<nat>, w: nat)
    ensures Marks(indices[..0], w) == {}
  {
  }
}
