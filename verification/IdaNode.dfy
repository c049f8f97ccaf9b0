/** The two ends of dispersal: the sender's messages, and the member that collects them. */
module IdaNode {
  import opened Sequences
  import opened Bytes
  import opened Merkle
  import opened MerkleTrees
  import opened Padding
  import opened IdaGossip

  /** The proof of full depth for leaf i. */
  ghost predicate IsLeafProof(h: Bytes -> Bytes, leaves: seq<Bytes>, i: nat, p: Proof)
    requires leaves != []
  {
    && p.index == i < |leaves|
    && AtLevel(i + Width(leaves), Depth(leaves))
    && p.hashes == Path(h, leaves, false, i + Width(leaves), Depth(leaves), Depth(leaves))
  }

  /** Leaves lo to lo + n with their proofs. */
  ghost predicate IsShare(h: Bytes -> Bytes, leaves: seq<Bytes>, m: IdaMsg, lo: nat, n: nat)
    requires leaves != []
  {
    && lo + n <= |leaves|
    && m.merkleRoot == NodeAt(h, leaves, false, 1)
    && m.chunks == leaves[lo..lo + n] && |m.proofs| == n
    && forall j | 0 <= j < n :: IsLeafProof(h, leaves, lo + j, m.proofs[j])
  }

  /** Equal shares of the leaves, one after the other; what does not divide evenly is not sent. */
  ghost predicate AreShares(h: Bytes -> Bytes, leaves: seq<Bytes>, msgs: seq<IdaMsg>) {
    && leaves != [] && msgs != []
    && var each := |leaves| / |msgs|;
      forall k | 0 <= k < |msgs| :: IsShare(h, leaves, msgs[k], k * each, each)
  }

  /** A share passes every check of a member that receives it. */
  lemma SharesPass(s: Setting, leaves: seq<Bytes>, m: IdaMsg, lo: nat, n: nat)
    requires leaves != [] && IsShare(s.hash, leaves, m, lo, n)
    ensures AllVerify(s, m) && FitsTree(m, leaves) && TrueChunks(m, leaves)
  {
    hide NodeAt, Path, Width, Depth, AtLevel, Verifies;
    forall j | 0 <= j < n
      ensures |m.proofs[j].hashes| == Depth(leaves) && m.proofs[j].index == lo + j
      ensures Verifies(m.chunks[j], m.proofs[j], m.merkleRoot, s.hash, [])
    {
      LeafProofPasses(s.hash, leaves, lo + j, m.proofs[j]);
    }
  }

  lemma LeafProofPasses(h: Bytes -> Bytes, leaves: seq<Bytes>, i: nat, p: Proof)
    requires leaves != [] && IsLeafProof(h, leaves, i, p)
    ensures Verifies(leaves[i], p, NodeAt(h, leaves, false, 1), h, [])
    ensures |p.hashes| == Depth(leaves) && p.index == i
  {
    hide NodeAt, Width, Depth, AtLevel, Verifies, Ancestor;
    ProofsVerify(h, leaves, false, i, 0);
    assert p == Proof(p.hashes, i);
  }

  /** A share of kappa leaves or more, as a sender with few neighbours makes it, is stuck at a member it reaches first. */
  lemma LargeShareIsStuck(s: Setting, leaves: seq<Bytes>, m: IdaMsg, lo: nat, n: nat, ms: seq<IdaMsg>)
    requires s.Proper() && leaves != [] && IsShare(s.hash, leaves, m, lo, n) && n >= s.kappa
    ensures var r := Run(s, EMPTY, [m] + ms); r.Done? ==> m.merkleRoot !in r.state.rebuilt
  {
    SharesPass(s, leaves, m, lo, n);
    ShareIndices(s.hash, leaves, m, lo, n);
    FirstMessageIsStuck(s, m, ms);
  }

  lemma ShareIndices(h: Bytes -> Bytes, leaves: seq<Bytes>, m: IdaMsg, lo: nat, n: nat)
    requires leaves != [] && IsShare(h, leaves, m, lo, n)
    ensures Indices([m]) == Range(lo, lo + n)
  {
    hide NodeAt, Path, Width, Depth, AtLevel;
    assert forall k: nat | k < n :: IsLeafProof(h, leaves, lo + k, m.proofs[k]);
    forall i: nat ensures i in MsgIndices(m) <==> i in Range(lo, lo + n) {
      if i in Range(lo, lo + n) {
        assert m.proofs[i - lo].index == i;
      }
    }
    assert Indices([m]) == MsgIndices(m) by {
      assert [m][0] == m;
    }
  }

  /** An empty message has no shards to encode, and without neighbours there is nobody to divide among. */
  method IDAGossip(s: Setting, message: Bytes, neighbours: nat) returns (r: Option<seq<IdaMsg>>)
    requires s.Proper() && IsErasureCode(s)
    ensures r.None? <==> message == [] || neighbours == 0
    ensures r.Some? ==> |r.value| == neighbours && AreShares(s.hash, Leaves(s, message), r.value)
  {
    hide AreShares, Leaves, Shards, IsErasureCode;
    if message == [] || neighbours == 0 { return None; }
    var data := EncodeShards(s, message);
    LeavesSize(s, message);
    var msgs := MakeShares(s, data, neighbours);
    return Some(msgs);
  }

  lemma LeavesSize(s: Setting, msg: Bytes)
    requires s.Proper() && IsErasureCode(s) && msg != []
    ensures |Leaves(s, msg)| == s.Total()
  {
    ShardsAre(s, msg);
  }

  /** Pads when needed, cuts into equal shards and encodes. */
  method EncodeShards(s: Setting, message: Bytes) returns (data: seq<Bytes>)
    requires s.Proper() && message != []
    ensures data == Leaves(s, message)
  {
    var msg := PadChecked(message, s.kappa);
    PaddedSize(message, s.kappa);
    var shards := CutUp(msg, s.kappa);
    data := s.encode(shards);
  }

  /** Padding is undone once, to see that it can be; it always can. */
  method PadChecked(message: Bytes, kappa: nat) returns (msg: Bytes)
    requires 0 < kappa <= 256 && message != []
    ensures msg == PadTo(message, kappa)
  {
    msg := message;
    if |message| % kappa != 0 {
      var padded := PadByteToBeDivisible(message, kappa);
      PadRoundTrip(message, Missing(|message|, kappa));
      msg := padded.value;
      var okk := IsPaddedMethod(msg);
      if !okk || UnPad(msg) != message {
        assert false;
      }
    } else {
      assert Pad(message, 0) == message;
    }
  }

  method CutUp(msg: Bytes, kappa: nat) returns (shards: seq<Bytes>)
    requires kappa > 0 && |msg| / kappa * kappa == |msg|
    ensures shards == Slices(msg, |msg| / kappa, kappa)
  {
    var chunkSize := |msg| / kappa;
    shards := [];
    for i := 0 to kappa
      invariant chunkSize * i <= |msg| && shards == Slices(msg, chunkSize, i)
    {
      NextFits(chunkSize, i + 1, kappa, |msg|);
      shards := shards + [msg[chunkSize * i..chunkSize * (i + 1)]];
    }
  }

  lemma NextFits(size: nat, i: nat, n: nat, len: nat)
    requires i <= n && len == size * n
    ensures size * i <= len
    ensures i > 0 ==> size * (i - 1) <= size * i
  {
    assert size * n == size * i + size * (n - i);
    assert i > 0 ==> size * i == size * (i - 1) + size;
  }

  /** Every leaf's proof, and equal shares of leaves and proofs for the neighbours. */
  method MakeShares(s: Setting, data: seq<Bytes>, neighbours: nat) returns (msgs: seq<IdaMsg>)
    requires data != [] && neighbours > 0 && |data| == s.Total()
    ensures |msgs| == neighbours && AreShares(s.hash, data, msgs)
  {
    hide NodeAt, Path, Width, Depth, AtLevel;
    var tree := new MerkleTree(data, s.hash, false);
    var root := tree.Root();
    var proofs := LeafProofs(tree);
    var each := |data| / neighbours;
    msgs := [];
    for k := 0 to neighbours
      invariant |msgs| == k
      invariant forall j | 0 <= j < k :: IsShare(s.hash, data, msgs[j], j * each, each)
    {
      ShareFits(|data|, neighbours, k);
      var m := IdaMsg(data[k * each..k * each + each], proofs[k * each..k * each + each], root);
      assert IsShare(s.hash, data, m, k * each, each);
      msgs := msgs + [m];
    }
  }

  method LeafProofs(tree: MerkleTree) returns (proofs: seq<Proof>)
    requires tree.Valid() && !tree.salt
    ensures |proofs| == |tree.data|
    ensures forall i | 0 <= i < |proofs| :: IsLeafProof(tree.hash, tree.data, i, proofs[i])
  {
    hide NodeAt, Path, Width, Depth, AtLevel;
    proofs := [];
    for i := 0 to |tree.data|
      invariant |proofs| == i
      invariant forall j | 0 <= j < i :: IsLeafProof(tree.hash, tree.data, j, proofs[j])
    {
      var p := tree.GenerateProofUsingIndex(i, 0);
      proofs := proofs + [p];
    }
  }

  lemma ShareFits(total: nat, n: nat, k: nat)
    requires k < n
    ensures k * (total / n) + total / n <= total
  {
    var each := total / n;
    assert total == n * each + total % n;
    OneMoreShare(each, k, n);
  }

  lemma OneMoreShare(each: nat, k: nat, n: nat)
    requires k < n
    ensures k * each + each <= n * each
  {
    assert n * each == (k + 1) * each + (n - k - 1) * each;
  }

  class Member {
    const s: Setting
    var idaMsgs: map<Bytes, seq<IdaMsg>>
    var reconstructed: map<Bytes, seq<Bytes>>

    function Tables(): State
      reads this
    {
      State(idaMsgs, reconstructed)
    }

    ghost predicate Valid()
      reads this
    {
      WellKept(Tables())
    }

    constructor (s: Setting)
      ensures this.s == s && Tables() == EMPTY && Valid()
    {
      this.s, idaMsgs, reconstructed := s, map[], map[];
    }

    /** None when the message, or one held for its root, points beyond the shards. */
    method HandleIDAGossipMsg(m: IdaMsg) returns (done: Option<bool>)
      requires Valid()
      modifies this
      ensures match Handled(s, old(Tables()), m)
        case Fatal => done == None
        case Done(next, complete) => done == Some(complete) && Tables() == next && Valid()
    {
      hide Fill, AllVerify, Indices, MsgIndices, InRange;
      var root := m.merkleRoot;
      var held := if root in idaMsgs then idaMsgs[root] else [];
      var n := GetLenOfChunks(held, s.Total());
      if n == None { return None; }
      if n.value >= s.kappa { return Some(false); }
      var good := Verified(s, m);
      if !good { return Some(false); }
      if root !in idaMsgs {
        assert held + [m] == [m];
        idaMsgs := idaMsgs[root := [m]];
        return Some(false);
      }
      var known := SharesIndex(m, held);
      if known { return Some(false); }
      var more := held + [m];
      idaMsgs := idaMsgs[root := more];
      n := GetLenOfChunks(more, s.Total());
      if n == None { return None; }
      if n.value < s.kappa { return Some(false); }
      var data := Gather(more, s.Total());
      var rebuilt := s.rebuild(data);
      if rebuilt == None { return None; }
      if root in reconstructed { return Some(false); }
      reconstructed := reconstructed[root := rebuilt.value];
      return Some(true);
    }

    method GetData(root: Bytes) returns (r: Option<Bytes>)
      ensures r == DataOf(s, Tables(), root)
    {
      if root !in reconstructed || |reconstructed[root]| < s.kappa { return None; }
      var data := reconstructed[root][..s.kappa];
      var b: Bytes := [];
      for i := 0 to |data|
        invariant b == Flat(data[..i])
      {
        assert data[..i + 1][..i] == data[..i];
        b := b + data[i];
      }
      assert data[..|data|] == data;
      if b == [] { return None; }
      var padded := IsPaddedMethod(b);
      return Some(if padded then UnPad(b) else b);
    }
  }

  method Verified(s: Setting, m: IdaMsg) returns (ok: bool)
    ensures ok <==> AllVerify(s, m)
    ensures ok ==> |m.chunks| == |m.proofs|
  {
    hide Verifies;
    if |m.chunks| != |m.proofs| { return false; }
    for i := 0 to |m.chunks|
      invariant forall j | 0 <= j < i :: Verifies(m.chunks[j], m.proofs[j], m.merkleRoot, s.hash, [])
    {
      var verified := VerifyProofUsing(m.chunks[i], m.proofs[i], m.merkleRoot, s.hash, []);
      if !verified { return false; }
    }
    return true;
  }

  /** Whether a leaf index of the message is already held. */
  method SharesIndex(m: IdaMsg, held: seq<IdaMsg>) returns (known: bool)
    ensures known <==> MsgIndices(m) * Indices(held) != {}
  {
    for a := 0 to |m.proofs|
      invariant forall x | 0 <= x < a :: m.proofs[x].index !in Indices(held)
    {
      for b := 0 to |held|
        invariant m.proofs[a].index !in Indices(held[..b])
      {
        for c := 0 to |held[b].proofs|
          invariant forall z | 0 <= z < c :: held[b].proofs[z].index != m.proofs[a].index
        {
          if held[b].proofs[c].index == m.proofs[a].index {
            assert held[b].proofs[c].index in MsgIndices(held[b]);
            assert m.proofs[a].index in MsgIndices(m) * Indices(held);
            return true;
          }
        }
        assert held[..b + 1] == held[..b] + [held[b]];
      }
      assert held[..|held|] == held;
    }
    return false;
  }

  /** The first n leaf indices of a message. */
  ghost function FirstIndices(m: IdaMsg, n: nat): set<nat>
    requires n <= |m.proofs|
  {
    set i | 0 <= i < n :: m.proofs[i].index
  }

  ghost predicate Marked(flags: seq<bool>, indices: set<nat>) {
    (forall j: nat | j < |flags| :: flags[j] <==> j in indices) && forall i | i in indices :: i < |flags|
  }

  method MarkIndices(flags: array<bool>, m: IdaMsg, ghost before: set<nat>) returns (ok: bool)
    requires |m.chunks| == |m.proofs| && Marked(flags[..], before)
    modifies flags
    ensures ok <==> forall i | i in MsgIndices(m) :: i < flags.Length
    ensures ok ==> Marked(flags[..], before + MsgIndices(m))
  {
    for i := 0 to |m.chunks|
      invariant Marked(flags[..], before + FirstIndices(m, i))
    {
      var index := m.proofs[i].index;
      assert index in MsgIndices(m);
      assert FirstIndices(m, i + 1) == FirstIndices(m, i) + {index};
      if index >= flags.Length { return false; }
      ghost var was := flags[..];
      flags[index] := true;
      assert flags[..] == was[index := true];
    }
    assert FirstIndices(m, |m.chunks|) == MsgIndices(m);
    return true;
  }

  /** The number of distinct leaf indices held; none when one points beyond the shards. */
  method GetLenOfChunks(ms: seq<IdaMsg>, total: nat) returns (n: Option<nat>)
    requires Paired(ms)
    ensures n.None? <==> !InRange(ms, total)
    ensures n.Some? ==> n.value == |Indices(ms)|
  {
    var flags := new bool[total](j => false);
    assert Indices(ms[..0]) == {};
    for a := 0 to |ms|
      invariant Marked(flags[..], Indices(ms[..a]))
    {
      IndicesNext(ms, a);
      var ok := MarkIndices(flags, ms[a], Indices(ms[..a]));
      if !ok { return None; }
    }
    assert ms[..|ms|] == ms;
    var tot := CountMarked(flags);
    assert (set j: nat | j < flags.Length && flags[j]) == Indices(ms);
    return Some(tot);
  }

  method CountMarked(flags: array<bool>) returns (tot: nat)
    ensures tot == |set j: nat | j < flags.Length && flags[j]|
  {
    tot := 0;
    for k := 0 to flags.Length
      invariant tot == |set j: nat | j < k && flags[j]|
    {
      var more := set j: nat | j < k + 1 && flags[j];
      var less := set j: nat | j < k && flags[j];
      assert more == if flags[k] then less + {k} else less;
      if flags[k] {
        tot := tot + 1;
      }
    }
  }

  /** The data array, every known chunk in its leaf's place. */
  method Gather(ms: seq<IdaMsg>, total: nat) returns (r: seq<Option<Bytes>>)
    requires Paired(ms) && InRange(ms, total)
    ensures r == Fill(ms, total)
  {
    var data := seq(total, i => None);
    for a := 0 to |ms|
      invariant InRange(ms[..a], total) && Paired(ms[..a]) && data == Fill(ms[..a], total)
    {
      IndicesNext(ms, a);
      assert ms[..a + 1][..a] == ms[..a];
      var m := ms[a];
      for i := 0 to |m.chunks|
        invariant |data| == total && data == FillOne(Fill(ms[..a], total), m, i)
      {
        assert m.proofs[i].index in MsgIndices(m);
        data := data[m.proofs[i].index := Some(m.chunks[i])];
      }
    }
    assert ms[..|ms|] == ms;
    return data;
  }
}
