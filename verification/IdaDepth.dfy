/** What goes wrong when the collected proofs do not have the depth of the tree. */
module IdaDepth {
  import opened Sequences
  import opened Bytes
  import opened Merkle
  import opened MerkleTrees
  import opened Padding
  import opened IdaGossip

  /** Two data shards and no parity. */
  function TwoShards(h: Bytes -> Bytes): Setting {
    Setting(2, 0, h, d => d, RebuildTwo)
  }

  function RebuildTwo(part: seq<Option<Bytes>>): Option<seq<Bytes>> {
    if |part| == 2 && part[0].Some? && part[1].Some? then Some([part[0].value, part[1].value]) else None
  }

  lemma TwoShardsIsACode(h: Bytes -> Bytes)
    ensures IsErasureCode(TwoShards(h)) && KeepsWhatIsThere(TwoShards(h)) && TwoShards(h).Proper()
  {
    var s := TwoShards(h);
    forall d, part: seq<Option<Bytes>> | AreShards(2, d) && Covers(2, part, s.encode(d)) ensures s.rebuild(part) == Some(s.encode(d)) {
      var there := set i | 0 <= i < |part| && part[i].Some?;
      if part[0].None? {
        SubsetSize(there, {1});
      } else if part[1].None? {
        SubsetSize(there, {0});
      }
      assert d == [d[0], d[1]];
    }
  }

  lemma TwoLeaves(h: Bytes -> Bytes, x: Bytes, y: Bytes)
    requires |x| == |y| == 2 * HASH_LENGTH
    ensures Leaves(TwoShards(h), x + y) == [x, y]
    ensures Depth([x, y]) == 1 && Width([x, y]) == 2
    ensures NodeAt(h, [x, y], false, 1) == h(h(x) + h(y))
    ensures NodeAt(h, [x, y], false, 2) == h(x) && NodeAt(h, [x, y], false, 3) == h(y)
  {
    var msg := x + y;
    assert PadTo(msg, 2) == msg;
    var size := 2 * HASH_LENGTH;
    assert Slices(msg, size, 0) == [];
    assert Slices(msg, size, 1) == [x];
    assert Slices(msg, size, 2) == [x, y];
    assert CeilLog2(2) == 1 && Pow2(1) == 2;
    NodeIs(h, [x, y], false, 2);
    NodeIs(h, [x, y], false, 3);
    NodeIs(h, [x, y], false, 1);
  }

  /** The root's two children in place of the first shard, with no proof; the second shard with its own. */
  function Messages(h: Bytes -> Bytes, x: Bytes, y: Bytes): seq<IdaMsg> {
    var root := h(h(x) + h(y));
    [IdaMsg([h(x) + h(y)], [Proof([], 0)], root), IdaMsg([y], [Proof([h(x)], 1)], root)]
  }

  lemma MessagesVerify(h: Bytes -> Bytes, x: Bytes, y: Bytes)
    ensures forall m | m in Messages(h, x, y) :: AllVerify(TwoShards(h), m)
  {
    var c := h(x) + h(y);
    assert c + [] == c && y + [] == y;
    assert Pow2(0) == 1 && Pow2(1) == 2;
    assert Climb(h, h(c), 1, []) == h(c);
    assert [h(x)][1..] == [];
    assert Climb(h, h(y), 3, [h(x)]) == Climb(h, h(h(x) + h(y)), 1, []) == h(c);
  }

  /**
    A run that rebuilds the wrong shards: for any hash, both messages verify against the sender's root
    and name shards in range, and the entry they make is not the sender's.
   */
  lemma ShallowProofsMislead(h: Bytes -> Bytes, x: Bytes, y: Bytes)
    requires |x| == |y| == 2 * HASH_LENGTH && x != h(x) + h(y)
    ensures var s, msg, ms := TwoShards(h), x + y, Messages(h, x, y);
      && s.Proper() && IsErasureCode(s) && KeepsWhatIsThere(s) && Leaves(s, msg) == [x, y]
      && (forall m | m in ms :: AllVerify(s, m) && m.merkleRoot == SenderRoot(s, msg) && InRange([m], 2))
      && var r := Run(s, EMPTY, ms);
        r.Done? && SenderRoot(s, msg) in r.state.rebuilt && r.state.rebuilt[SenderRoot(s, msg)] != Leaves(s, msg)
  {
    hide Run, Handled, NodeAt, Leaves, AllVerify, IsErasureCode, KeepsWhatIsThere, RebuildTwo, Indices, MsgIndices;
    var s, msg, ms := TwoShards(h), x + y, Messages(h, x, y);
    TwoShardsIsACode(h);
    TwoLeaves(h, x, y);
    MessagesVerify(h, x, y);
    IndicesOf(ms[0], ms[1]);
    var v, root := h(x) + h(y), h(h(x) + h(y));
    FirstStep(s, ms[0]);
    SecondStep(h, ms[0], ms[1], root);
    var after := State(map[root := ms], map[root := [v, y]]);
    assert ms == [ms[0], ms[1]];
    RunTwo(s, ms, State(map[root := [ms[0]]], map[]), after);
    assert [v, y][0] != [x, y][0];
  }

  /**
    Over shards that are not plain a right chunk may come with a shallower proof, for any hash: here the
    second shard is the two digests of the last two, and passes under its own index as the node above them.
   */
  lemma RightChunkShallowProof(h: Bytes -> Bytes, x: Bytes, y: Bytes, z: Bytes)
    ensures var leaves := [x, h(y) + h(z), y, z];
      && var p := Proof([NodeAt(h, leaves, false, 2)], 1);
      && Verifies(leaves[p.index], p, NodeAt(h, leaves, false, 1), h, [])
      && |p.hashes| < Depth(leaves) && !Plain(h, leaves)
  {
    var leaves := [x, h(y) + h(z), y, z];
    assert Depth(leaves) == 2 && Width(leaves) == 4 by {
      assert CeilLog2(4) == 2 && Pow2(2) == 4 && Pow2(1) == 2;
    }
    assert AtLevel(3, 1) by { assert Pow2(1) == 2; }
    InnerNodesVerify(h, leaves, false, 3, 1);
    NodeIs(h, leaves, false, 6);
    NodeIs(h, leaves, false, 7);
    assert leaves[2] + [] == y && leaves[3] + [] == z;
    assert Path(h, leaves, false, 3, 1, 1) == [NodeAt(h, leaves, false, 2)];
    assert StartsOrEnds(leaves[1], h(y)) by { assert leaves[1][..|h(y)|] == h(y); }
    assert leaves[1] in leaves;
  }

  lemma RunTwo(s: Setting, ms: seq<IdaMsg>, first: State, second: State)
    requires |ms| == 2 && WellKept(first) && WellKept(EMPTY)
    requires Handled(s, EMPTY, ms[0]) == Done(first, false) && Handled(s, first, ms[1]) == Done(second, true)
    ensures Run(s, EMPTY, ms) == Done(second, false)
  {
    hide Handled;
    assert ms[1..] == [ms[1]] && [ms[1]][1..] == [];
    assert Run(s, second, []) == Done(second, false);
    assert Run(s, first, [ms[1]]) == Done(second, false);
  }

  lemma FirstStep(s: Setting, a: IdaMsg)
    requires s.kappa == 2 && |a.proofs| == 1 && AllVerify(s, a)
    ensures WellKept(EMPTY) && WellKept(State(map[a.merkleRoot := [a]], map[]))
    ensures Handled(s, EMPTY, a) == Done(State(map[a.merkleRoot := [a]], map[]), false)
  {
    assert Indices([]) == {};
    assert [] + [a] == [a];
    assert |a.chunks| == |a.proofs|;
    hide AllVerify, Fill;
  }

  lemma SecondStep(h: Bytes -> Bytes, a: IdaMsg, b: IdaMsg, root: Bytes)
    requires |a.proofs| == 1 && a.proofs[0].index == 0 && |b.proofs| == 1 && b.proofs[0].index == 1
    requires |a.chunks| == 1 && a.merkleRoot == b.merkleRoot == root && AllVerify(TwoShards(h), b)
    requires WellKept(State(map[root := [a]], map[]))
    ensures Handled(TwoShards(h), State(map[root := [a]], map[]), b)
         == Done(State(map[root := [a, b]], map[root := [a.chunks[0], b.chunks[0]]]), true)
  {
    assert |b.chunks| == 1;
    IndicesOf(a, b);
    FillOf(a, b);
    assert [a] + [b] == [a, b];
    hide AllVerify, Fill, Indices, MsgIndices, InRange;
    InRangeOfOne(a);
  }

  lemma InRangeOfOne(a: IdaMsg)
    requires |a.proofs| == 1 && a.proofs[0].index == 0
    ensures InRange([a], 2)
  {
  }

  lemma IndicesOf(a: IdaMsg, b: IdaMsg)
    requires |a.proofs| == 1 && a.proofs[0].index == 0 && |b.proofs| == 1 && b.proofs[0].index == 1
    ensures Indices([]) == {} && Indices([a]) == {0} && Indices([a, b]) == {0, 1} && Indices([b]) == {1}
    ensures MsgIndices(a) == {0} && MsgIndices(b) == {1}
  {
    assert a.proofs[0].index in MsgIndices(a) && b.proofs[0].index in MsgIndices(b);
    assert MsgIndices(a) == {0} && MsgIndices(b) == {1};
    assert a in [a] && a in [a, b] && b in [a, b] && b in [b];
  }

  lemma FillOf(a: IdaMsg, b: IdaMsg)
    requires |a.proofs| == 1 && a.proofs[0].index == 0 && |b.proofs| == 1 && b.proofs[0].index == 1
    requires |a.chunks| == 1 && |b.chunks| == 1
    ensures InRange([a, b], 2) && Paired([a, b]) && Fill([a, b], 2) == [Some(a.chunks[0]), Some(b.chunks[0])]
  {
    IndicesOf(a, b);
    assert [a, b][..1] == [a] && [a][..0] == [];
    assert FillOne(Fill([], 2), a, 0) == Fill([], 2);
    assert Fill([a], 2) == [Some(a.chunks[0]), None];
    assert FillOne(Fill([a], 2), b, 0) == Fill([a], 2);
  }
}
