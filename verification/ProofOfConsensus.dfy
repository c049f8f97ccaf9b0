/** Committee votes, the proof of consensus attached to a cross-committee response, and its checks. */
module ProofsOfConsensus {
  import opened Bytes
  import opened Division
  import opened Merkle
  import opened MerkleTrees
  import opened Sequences
  import LedgerTypes

  datatype ConsensusMsg = ConsensusMsg(gossipHash: Bytes, tag: string, pub: Bytes, sig: Bytes)

  /** What the proof and its checks see of a transaction, and the outputs that travel with it. */
  datatype Tx = Tx(hash: Bytes, origTxHash: Bytes, inputTxHashes: seq<Bytes>, outputs: seq<LedgerTypes.OutTx>)

  datatype ProposedBlock = ProposedBlock(
    gossipHash: Bytes, previousGossipHash: Bytes, iteration: Bytes, committeeId: Bytes, leaderPub: Bytes,
    merkleRoot: Bytes, transactions: seq<Tx>)

  datatype FinalBlock = FinalBlock(block: ProposedBlock, signatures: seq<ConsensusMsg>)

  datatype Poc = Poc(
    gossipHash: Bytes, intermediateHash: Bytes, merkleRoot: Bytes, merkleProof: Proof, signatures: seq<ConsensusMsg>)

  /** Parameters of the network, and the hash and signature functions in use. */
  datatype Setting = Setting(
    n: nat, m: nat, committeeF: nat,
    sha: Bytes -> Bytes, blake: Bytes -> Bytes,
    verify: ConsensusMsg -> bool,
    closest: Bytes -> Bytes, own: Bytes, members: Bytes -> set<Bytes>)
  {
    predicate Proper() {
      m > 0 && committeeF > 0 && n / m > 0
    }
  }

  function ZeroHash(): Bytes {
    seq(HASH_LENGTH, i => 0)
  }

  /** A response is known by the transaction it answers. */
  function Id(t: Tx): Bytes {
    if t.origTxHash != ZeroHash() then t.origTxHash else t.hash
  }

  function Ids(txs: seq<Tx>): (ids: seq<Bytes>)
    ensures |ids| == |txs|
  {
    seq(|txs|, i requires 0 <= i < |txs| => Id(txs[i]))
  }

  function HashExceptMerkleRoot(sha: Bytes -> Bytes, b: ProposedBlock): Bytes {
    sha(b.previousGossipHash + b.iteration + b.committeeId + b.leaderPub)
  }

  function BlockHash(sha: Bytes -> Bytes, b: ProposedBlock): Bytes {
    sha(HashExceptMerkleRoot(sha, b) + sha(b.merkleRoot))
  }

  /** Without collisions a gossip hash stands for all a block's header says: before whom, when, whose, by whom, over what. */
  lemma GossipHashBinds(sha: Bytes -> Bytes, b: ProposedBlock, c: ProposedBlock)
    requires IsHash(sha) && BlockHash(sha, b) == BlockHash(sha, c)
    requires NoSecondPreimage(sha, iset{
      b.previousGossipHash + b.iteration + b.committeeId + b.leaderPub, b.merkleRoot,
      HashExceptMerkleRoot(sha, b) + sha(b.merkleRoot)})
    requires |b.previousGossipHash| == |c.previousGossipHash| && |b.iteration| == |c.iteration| && |b.committeeId| == |c.committeeId|
    ensures c.(gossipHash := b.gossipHash, transactions := b.transactions) == b
  {
    var x, y := HashExceptMerkleRoot(sha, b), HashExceptMerkleRoot(sha, c);
    GluedFront(x, sha(b.merkleRoot), y, sha(c.merkleRoot));
    var before, after := b.previousGossipHash + b.iteration + b.committeeId, c.previousGossipHash + c.iteration + c.committeeId;
    GluedFront(before, b.leaderPub, after, c.leaderPub);
    GluedFront(b.previousGossipHash + b.iteration, b.committeeId, c.previousGossipHash + c.iteration, c.committeeId);
    GluedFront(b.previousGossipHash, b.iteration, c.previousGossipHash, c.iteration);
  }

  /** What a leader proposes: a block under the root of its own transactions. */
  ghost predicate ProperBlock(s: Setting, b: ProposedBlock) {
    && b.transactions != []
    && b.merkleRoot == NodeAt(s.blake, Ids(b.transactions), false, 1)
    && b.gossipHash == BlockHash(s.sha, b)
  }

  type Votes = map<Bytes, ConsensusMsg>

  function Tagged(ms: Votes, tags: set<string>): set<Bytes> {
    set id | id in ms && ms[id].tag in tags
  }

  /** Every message once, in some order. */
  ghost predicate IsListing(msgs: seq<ConsensusMsg>, ms: Votes) {
    exists ids: seq<Bytes> | |ids| == |msgs| :: ListedBy(msgs, ms, ids)
  }

  ghost predicate ListedBy(msgs: seq<ConsensusMsg>, ms: Votes, ids: seq<Bytes>) {
    && |ids| == |msgs| && NoRepeats(ids) && Elems(ids) == ms.Keys
    && forall i | 0 <= i < |ids| :: ids[i] in ms && msgs[i] == ms[ids[i]]
  }

  lemma ListingIs(msgs: seq<ConsensusMsg>, ms: Votes)
    requires IsListing(msgs, ms)
    ensures |msgs| == |ms.Keys|
    ensures forall id | id in ms :: ms[id] in msgs
    ensures forall i | 0 <= i < |msgs| :: exists id :: id in ms && ms[id] == msgs[i]
  {
    var ids: seq<Bytes> :| |ids| == |msgs| && ListedBy(msgs, ms, ids);
    NoRepeatsSize(ids);
    forall id | id in ms ensures ms[id] in msgs {
      ListedAt(msgs, ms, ids, id);
    }
    forall i | 0 <= i < |msgs| ensures exists id :: id in ms && ms[id] == msgs[i] {
      assert ids[i] in ms && ms[ids[i]] == msgs[i];
    }
  }

  lemma ListedAt(msgs: seq<ConsensusMsg>, ms: Votes, ids: seq<Bytes>, id: Bytes)
    requires ListedBy(msgs, ms, ids) && id in ms
    ensures ms[id] in msgs
  {
    assert id in Elems(ids);
    var i :| 0 <= i < |ids| && ids[i] == id;
    assert msgs[i] == ms[id];
  }

  lemma NoneCounted(ms: Votes, tags: set<string>)
    ensures |Tagged(ms, tags) - ms.Keys| == 0
  {
    assert Tagged(ms, tags) - ms.Keys == {};
  }

  lemma CountOne(ms: Votes, tags: set<string>, left: set<Bytes>, id: Bytes)
    requires id in left && left <= ms.Keys
    ensures |Tagged(ms, tags) - (left - {id})| == |Tagged(ms, tags) - left| + if ms[id].tag in tags then 1 else 0
  {
    var counted, next := Tagged(ms, tags) - left, Tagged(ms, tags) - (left - {id});
    assert next == if ms[id].tag in tags then counted + {id} else counted;
  }

  /** Messages by gossip hash, then by sender: a sender's later message replaces the earlier one. */
  class ConsensusMsgs {
    var m: map<Bytes, Votes>

    function Of(gh: Bytes): Votes
      reads this
    {
      if gh in m then m[gh] else map[]
    }

    method Add(gh: Bytes, id: Bytes, c: ConsensusMsg)
      modifies this
      ensures m == old(m)[gh := old(Of(gh))[id := c]]
    {
      if gh !in m {
        m := m[gh := map[]];
      }
      m := m[gh := m[gh][id := c]];
    }

    /** countValidVotes for echo and accept, countValidAccepts for accept alone. */
    method CountTagged(gh: Bytes, tags: set<string>) returns (votes: nat)
      ensures votes == |Tagged(Of(gh), tags)|
    {
      hide Tagged;
      votes := 0;
      var ms := Of(gh);
      var left := ms.Keys;
      NoneCounted(ms, tags);
      while left != {}
        invariant left <= ms.Keys
        invariant votes == |Tagged(ms, tags) - left|
        decreases left
      {
        var id :| id in left;
        CountOne(ms, tags, left, id);
        left := left - {id};
        if ms[id].tag in tags {
          votes := votes + 1;
        }
      }
      assert Tagged(ms, tags) - {} == Tagged(ms, tags);
    }

    method GetAll(gh: Bytes) returns (msgs: seq<ConsensusMsg>)
      ensures IsListing(msgs, Of(gh))
    {
      msgs := [];
      var ms := Of(gh);
      var left := ms.Keys;
      ghost var ids: seq<Bytes> := [];
      while left != {}
        invariant left <= ms.Keys
        invariant |ids| == |msgs| && NoRepeats(ids) && Elems(ids) == ms.Keys - left
        invariant forall i | 0 <= i < |ids| :: ids[i] in ms && msgs[i] == ms[ids[i]]
        decreases left
      {
        var id :| id in left;
        assert id !in Elems(ids);
        assert Elems(ids + [id]) == Elems(ids) + {id};
        msgs, ids, left := msgs + [ms[id]], ids + [id], left - {id};
      }
      assert ListedBy(msgs, ms, ids);
    }

    method Pop(gh: Bytes) returns (msgs: seq<ConsensusMsg>)
      modifies this
      ensures IsListing(msgs, old(Of(gh)))
      ensures m == old(m)[gh := map[]]
    {
      msgs := GetAll(gh);
      m := m[gh := map[]];
    }

    /** The commit path: with enough accepts, the block becomes final under every message held for it. */
    method Finalise(s: Setting, gh: Bytes, block: ProposedBlock, committeeMembers: nat) returns (fb: Option<FinalBlock>)
      requires s.Proper()
      modifies this
      ensures fb.Some? <==> |Tagged(old(Of(gh)), {"accept"})| >= committeeMembers / s.committeeF + 1
      ensures fb.Some? ==> fb.value.block == block && IsListing(fb.value.signatures, old(Of(gh)))
      ensures m == if fb.Some? then old(m)[gh := map[]] else old(m)
    {
      var votes := CountTagged(gh, {"accept"});
      if votes < committeeMembers / s.committeeF + 1 { return None; }
      var msgs := Pop(gh);
      return Some(FinalBlock(block, msgs));
    }
  }

  /** The path of a leaf of the tree over `ids`, the last one with identity `id`. */
  ghost predicate LastLeaf(h: Bytes -> Bytes, ids: seq<Bytes>, id: Bytes, p: Proof)
    requires ids != []
  {
    && p.index < |ids| && ids[p.index] == id && id !in ids[p.index + 1..]
    && AtLevel(p.index + Width(ids), Depth(ids))
    && p.hashes == Path(h, ids, false, p.index + Width(ids), Depth(ids), Depth(ids))
  }

  /** The proof that a final block gives for a transaction of it. */
  ghost predicate Attached(s: Setting, t: Tx, fb: FinalBlock, p: Poc) {
    && fb.block.transactions != []
    && p.gossipHash == fb.block.gossipHash
    && p.intermediateHash == HashExceptMerkleRoot(s.sha, fb.block)
    && p.merkleRoot == fb.block.merkleRoot == NodeAt(s.blake, Ids(fb.block.transactions), false, 1)
    && p.signatures == fb.signatures
    && LastLeaf(s.blake, Ids(fb.block.transactions), Id(t), p.merkleProof)
  }

  /** No proof means a fatal error: no transaction of that identity, or a root that is not the block's. */
  method AddProofOfConsensus(s: Setting, t: Tx, fb: FinalBlock) returns (p: Option<Poc>)
    ensures p.Some? <==>
      && Id(t) in Ids(fb.block.transactions)
      && fb.block.merkleRoot == NodeAt(s.blake, Ids(fb.block.transactions), false, 1)
    ensures p.Some? ==> Attached(s, t, fb, p.value)
  {
    var ids := Ids(fb.block.transactions);
    if ids == [] { return None; }
    hide LastLeaf, NodeAt, Width, Depth;
    var found, root, proof := ProofInTree(s.blake, ids, Id(t));
    if !found || root != fb.block.merkleRoot { return None; }
    return Some(Poc(fb.block.gossipHash, HashExceptMerkleRoot(s.sha, fb.block), root, proof, fb.signatures));
  }

  method ProofInTree(h: Bytes -> Bytes, ids: seq<Bytes>, id: Bytes) returns (found: bool, root: Bytes, proof: Proof)
    requires ids != []
    ensures found <==> id in ids
    ensures found ==> root == NodeAt(h, ids, false, 1) && LastLeaf(h, ids, id, proof)
  {
    hide NodeAt, Width, Depth, Path, AtLevel;
    var tree := new MerkleTree(ids, h, false);
    root, proof := tree.Root(), Proof([], 0);
    var index;
    found, index := LastIndexOf(ids, id);
    if found {
      proof := tree.GenerateProofUsingIndex(index, 0);
    }
  }

  method LastIndexOf(ids: seq<Bytes>, id: Bytes) returns (found: bool, index: nat)
    ensures found <==> id in ids
    ensures found ==> index < |ids| && ids[index] == id && id !in ids[index + 1..]
  {
    found, index := false, 0;
    for i := 0 to |ids|
      invariant found <==> id in ids[..i]
      invariant found ==> index < i && ids[index] == id && id !in ids[index + 1..i]
    {
      if ids[i] == id {
        found, index := true, i;
      }
    }
    assert ids[..|ids|] == ids && (found ==> ids[index + 1..|ids|] == ids[index + 1..]);
  }

  /** A signature is good when it verifies and its key belongs to the committee that owned the input. */
  predicate GoodSignature(s: Setting, t: Tx, c: ConsensusMsg) {
    && s.verify(c)
    && t.inputTxHashes != []
    && s.closest(t.inputTxHashes[0]) != s.own
    && c.pub in s.members(s.closest(t.inputTxHashes[0]))
  }

  predicate Accepted(s: Setting, t: Tx, p: Option<Poc>)
    requires s.Proper()
  {
    && p.Some?
    && Verifies(Id(t), p.value.merkleProof, p.value.merkleRoot, s.blake, [])
    && s.sha(p.value.intermediateHash + s.sha(p.value.merkleRoot)) == p.value.gossipHash
    && |p.value.signatures| >= s.n / s.m / s.committeeF
    && forall i | 0 <= i < |p.value.signatures| :: GoodSignature(s, t, p.value.signatures[i])
  }

  method CheckProofOfConsensus(s: Setting, t: Tx, p: Option<Poc>) returns (ok: bool)
    requires s.Proper()
    ensures ok <==> Accepted(s, t, p)
  {
    if p.None? { return false; }
    var poc := p.value;
    var verified := VerifyProofUsing(Id(t), poc.merkleProof, poc.merkleRoot, s.blake, []);
    if !verified { return false; }
    if s.sha(poc.intermediateHash + s.sha(poc.merkleRoot)) != poc.gossipHash { return false; }
    if |poc.signatures| < s.n / s.m / s.committeeF { return false; }
    for i := 0 to |poc.signatures|
      invariant forall k | 0 <= k < i :: GoodSignature(s, t, poc.signatures[k])
    {
      if !s.verify(poc.signatures[i]) { return false; }
      if t.inputTxHashes == [] { return false; }
      var committee := s.closest(t.inputTxHashes[0]);
      if committee == s.own { return false; }
      if poc.signatures[i].pub !in s.members(committee) { return false; }
    }
    return true;
  }

  /**
    What an accepted proof carries: enough signatures, every one of which verifies and is by a member of
    the committee closest to the response's first input, another committee than the receiver's.
   */
  lemma AcceptedIsSigned(s: Setting, t: Tx, p: Poc)
    requires s.Proper()
    ensures Accepted(s, t, Some(p)) <==>
      && Verifies(Id(t), p.merkleProof, p.merkleRoot, s.blake, [])
      && s.sha(p.intermediateHash + s.sha(p.merkleRoot)) == p.gossipHash
      && |p.signatures| >= s.n / s.m / s.committeeF
      && forall c | c in p.signatures ::
           s.verify(c) && t.inputTxHashes != []
           && s.closest(t.inputTxHashes[0]) != s.own && c.pub in s.members(s.closest(t.inputTxHashes[0]))
  {
    hide Verifies, Id;
    assert (forall c | c in p.signatures :: GoodSignature(s, t, c)) <==>
      (forall i | 0 <= i < |p.signatures| :: GoodSignature(s, t, p.signatures[i]));
  }

  /** The other members' majority is at least the size asked for of the whole committee. */
  lemma EnoughSignatures(npm: nat, f: nat)
    requires npm > 0 && f > 0
    ensures (npm - 1) / f + 1 >= npm / f
  {
    var q, r := npm / f, npm % f;
    assert npm == q * f + r;
    if r > 0 {
      ModIs(npm - 1, q, f, r - 1);
    } else {
      assert npm - 1 == (q - 1) * f + (f - 1);
      assert q > 0;
      ModIs(npm - 1, q - 1, f, f - 1);
    }
  }

  /**
    Round trip: the proof attached from a proper block that gathered enough accepts passes every
    check of the receiving committee, exactly when the messages held for it are all good signatures.
   */
  lemma ProofRoundTrip(s: Setting, t: Tx, fb: FinalBlock, p: Poc, ms: Votes)
    requires s.Proper() && ProperBlock(s, fb.block) && Attached(s, t, fb, p)
    requires IsListing(fb.signatures, ms)
    requires |Tagged(ms, {"accept"})| >= (s.n / s.m - 1) / s.committeeF + 1
    ensures Accepted(s, t, Some(p)) <==> forall id | id in ms :: GoodSignature(s, t, ms[id])
  {
    EnoughHeld(s, fb, ms);
    PathPasses(s, t, fb, p);
    AllGood(s, t, fb.signatures, ms);
    hide *;
    AcceptedIs(s, t, p);
  }

  lemma AllGood(s: Setting, t: Tx, msgs: seq<ConsensusMsg>, ms: Votes)
    requires IsListing(msgs, ms)
    ensures (forall i | 0 <= i < |msgs| :: GoodSignature(s, t, msgs[i]))
       <==> (forall id | id in ms :: GoodSignature(s, t, ms[id]))
  {
    hide GoodSignature, IsListing;
    ListingIs(msgs, ms);
  }

  lemma AcceptedIs(s: Setting, t: Tx, p: Poc)
    requires s.Proper()
    requires Verifies(Id(t), p.merkleProof, p.merkleRoot, s.blake, [])
    requires s.sha(p.intermediateHash + s.sha(p.merkleRoot)) == p.gossipHash
    requires |p.signatures| >= s.n / s.m / s.committeeF
    ensures Accepted(s, t, Some(p)) <==> forall i | 0 <= i < |p.signatures| :: GoodSignature(s, t, p.signatures[i])
  {
    hide Verifies, GoodSignature;
  }

  lemma EnoughHeld(s: Setting, fb: FinalBlock, ms: Votes)
    requires s.Proper() && IsListing(fb.signatures, ms)
    requires |Tagged(ms, {"accept"})| >= (s.n / s.m - 1) / s.committeeF + 1
    ensures |fb.signatures| >= s.n / s.m / s.committeeF
  {
    var npm, f := s.n / s.m, s.committeeF;
    hide IsListing;
    ListingIs(fb.signatures, ms);
    SubsetSize(Tagged(ms, {"accept"}), ms.Keys);
    EnoughSignatures(npm, f);
  }

  lemma PathPasses(s: Setting, t: Tx, fb: FinalBlock, p: Poc)
    requires Attached(s, t, fb, p) && ProperBlock(s, fb.block)
    ensures Verifies(Id(t), p.merkleProof, p.merkleRoot, s.blake, [])
    ensures s.sha(p.intermediateHash + s.sha(p.merkleRoot)) == p.gossipHash
    ensures p.signatures == fb.signatures
  {
    hide NodeAt, Verifies, Path, Width, Depth, AtLevel, Ancestor;
    ProofsVerify(s.blake, Ids(fb.block.transactions), false, p.merkleProof.index, 0);
    assert p.merkleProof == Proof(p.merkleProof.hashes, p.merkleProof.index);
  }

  /** No identity of the block is a digest of the trees' hash; identities are digests of another. */
  ghost predicate OrdinaryIds(s: Setting, b: ProposedBlock) {
    forall id, y | id in Ids(b.transactions) :: |id| == HASH_LENGTH && id != s.blake(y)
  }

  lemma OrdinaryIsPlain(s: Setting, b: ProposedBlock)
    requires IsHash(s.blake) && OrdinaryIds(s, b)
    ensures Plain(s.blake, Ids(b.transactions))
  {
    hide Ids;
    var ids := Ids(b.transactions);
    forall x, y | x in ids ensures !StartsOrEnds(x, s.blake(y)) {
      assert |s.blake(y)| == HASH_LENGTH && x != s.blake(y);
      assert x[..HASH_LENGTH] == x && x[0..] == x;
    }
    forall id | id in ids ensures |id| == HASH_LENGTH {
      assert id != s.blake([]);
    }
    assert |ZERO_LEAF + ZERO_LEAF| == 2 * HASH_LENGTH;
  }

  /**
    Soundness: an accepted proof under the gossip hash of a proper block carries the block's root and is
    for the identity of a transaction of the block, whatever the proof's depth, which nobody checks:
    identities are digests, too short for what a shallower proof proves, and of another hash than what a
    deeper one needs.
   */
  lemma AcceptedIsInTheBlock(s: Setting, t: Tx, b: ProposedBlock, p: Poc)
    requires s.Proper() && ProperBlock(s, b) && Accepted(s, t, Some(p))
    requires IsHash(s.sha) && IsHash(s.blake) && NeverZero(s.blake)
    requires NoSecondPreimage(s.sha, iset{HashExceptMerkleRoot(s.sha, b) + s.sha(b.merkleRoot), b.merkleRoot})
    requires NoSecondPreimage(s.blake, Hashed(s.blake, Ids(b.transactions), false))
    requires OrdinaryIds(s, b) && |Id(t)| == HASH_LENGTH
    requires p.gossipHash == b.gossipHash && |p.intermediateHash| == HASH_LENGTH
    ensures p.merkleRoot == b.merkleRoot
    ensures Id(t) in Ids(b.transactions)
    ensures p.merkleProof.index < |b.transactions| ==> Id(t) == Ids(b.transactions)[p.merkleProof.index]
  {
    RootIsTheBlocks(s, b, p);
    OrdinaryIsPlain(s, b);
    var ids := Ids(b.transactions);
    hide NodeAt, Depth, Width, Verifies, Hashed, NoSecondPreimage, Ids, NeverZero, Plain;
    AcceptedIsNotDeeper(s.blake, ids, Id(t), p.merkleProof);
    assert Id(t) + [] == Id(t);
    if |p.merkleProof.hashes| < Depth(ids) {
      AcceptedIsInner(s.blake, ids, false, Id(t), p.merkleProof, []);
    } else {
      AcceptedIsALeaf(s.blake, ids, Id(t), p.merkleProof);
      if p.merkleProof.index < |ids| {
        SmallRemainder(p.merkleProof.index, Width(ids));
      }
    }
  }

  lemma SmallRemainder(i: nat, w: nat)
    requires i < w
    ensures i % w == i
  {
    ModIs(i, 0, w, i);
  }

  /**
    The checks do not cover the outputs, nor the hash of a response, which its identity leaves out:
    whatever they are replaced by, the same proof is accepted exactly as before.
   */
  lemma OutputsAreNotChecked(s: Setting, t: Tx, p: Option<Poc>, outputs: seq<LedgerTypes.OutTx>, hash: Bytes)
    requires s.Proper() && t.origTxHash != ZeroHash()
    ensures Accepted(s, t.(outputs := outputs, hash := hash), p) <==> Accepted(s, t, p)
  {
    hide Verifies;
    var altered := t.(outputs := outputs, hash := hash);
    assert Id(altered) == Id(t);
    assert forall c :: GoodSignature(s, altered, c) <==> GoodSignature(s, t, c);
  }

  /** Nor are signatures tied to the proof's gossip hash: those of any other votes of the committee do. */
  lemma SignaturesAreNotTied(s: Setting, t: Tx, p: Poc, signatures: seq<ConsensusMsg>)
    requires s.Proper() && Accepted(s, t, Some(p))
    ensures Accepted(s, t, Some(p.(signatures := signatures))) <==>
      && |signatures| >= s.n / s.m / s.committeeF
      && forall i | 0 <= i < |signatures| :: GoodSignature(s, t, signatures[i])
  {
    hide Verifies, GoodSignature;
  }

  lemma RootIsTheBlocks(s: Setting, b: ProposedBlock, p: Poc)
    requires IsHash(s.sha) && |p.intermediateHash| == HASH_LENGTH
    requires NoSecondPreimage(s.sha, iset{HashExceptMerkleRoot(s.sha, b) + s.sha(b.merkleRoot), b.merkleRoot})
    requires s.sha(p.intermediateHash + s.sha(p.merkleRoot)) == BlockHash(s.sha, b)
    ensures p.merkleRoot == b.merkleRoot
  {
    var inner := HashExceptMerkleRoot(s.sha, b);
    GluedFront(p.intermediateHash, s.sha(p.merkleRoot), inner, s.sha(b.merkleRoot));
  }
}
