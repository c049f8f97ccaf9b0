/** A proof of consensus from enough good accepts that the receiver rejects. */
module ProofWitnesses {
  import opened Sequences
  import opened Bytes
  import opened Merkle
  import opened ProofsOfConsensus

  const A: Bytes := [1]
  const B: Bytes := [2]
  const C: Bytes := [3]
  const BAD: Bytes := [0]

  /** Three members a committee, majorities of two, and every signature verifies but one. */
  function Three(sha: Bytes -> Bytes, blake: Bytes -> Bytes): Setting {
    Setting(3, 1, 2, sha, blake, (c: ConsensusMsg) => c.sig != BAD, (x: Bytes) => A, B, (x: Bytes) => {A, B, C})
  }

  function Response(): Tx {
    Tx([9], ZeroHash(), [[5]], [])
  }

  function OneTxBlock(sha: Bytes -> Bytes, blake: Bytes -> Bytes): ProposedBlock {
    var b := ProposedBlock([], [], [], [], [], NodeAt(blake, Ids([Response()]), false, 1), [Response()]);
    b.(gossipHash := BlockHash(sha, b))
  }

  /** Two accepts that verify, and an echo that does not. */
  function HeldVotes(): Votes {
    map[A := ConsensusMsg([], "accept", A, []), B := ConsensusMsg([], "accept", B, []), C := ConsensusMsg([], "echo", C, BAD)]
  }

  function Final(sha: Bytes -> Bytes, blake: Bytes -> Bytes): FinalBlock {
    FinalBlock(OneTxBlock(sha, blake), [HeldVotes()[A], HeldVotes()[B], HeldVotes()[C]])
  }

  function FinalProof(sha: Bytes -> Bytes, blake: Bytes -> Bytes): Poc {
    var b := OneTxBlock(sha, blake);
    Poc(b.gossipHash, HashExceptMerkleRoot(sha, b), b.merkleRoot, Proof([], 0), Final(sha, blake).signatures)
  }

  lemma VotesAreListed(sha: Bytes -> Bytes, blake: Bytes -> Bytes)
    ensures IsListing(Final(sha, blake).signatures, HeldVotes())
    ensures |Tagged(HeldVotes(), {"accept"})| == 2
  {
    assert A[0] == 1 && B[0] == 2 && C[0] == 3;
    var ids := [A, B, C];
    assert Elems(ids) == {A, B, C} by {
      assert ids[0] in ids && ids[1] in ids && ids[2] in ids;
    }
    assert ListedBy(Final(sha, blake).signatures, HeldVotes(), ids);
    assert "accept"[0] == 'a' && "echo"[0] == 'e';
    assert Tagged(HeldVotes(), {"accept"}) == {A, B};
  }

  lemma ProofIsAttached(sha: Bytes -> Bytes, blake: Bytes -> Bytes)
    ensures ProperBlock(Three(sha, blake), OneTxBlock(sha, blake))
    ensures Attached(Three(sha, blake), Response(), Final(sha, blake), FinalProof(sha, blake))
  {
    var ids := Ids([Response()]);
    assert ids == [Id(Response())] && Depth(ids) == 0 && Width(ids) == 1;
    assert ids[1..] == [] && AtLevel(1, 0);
  }

  /**
    Everything the round trip asks for, and every accept a good signature: the echo held besides, whose
    signature nobody looked at when it came, makes the receiver stop.
   */
  lemma UncheckedVoteSpoilsProof(sha: Bytes -> Bytes, blake: Bytes -> Bytes)
    ensures var s, t, fb, p, ms := Three(sha, blake), Response(), Final(sha, blake), FinalProof(sha, blake), HeldVotes();
      && s.Proper() && ProperBlock(s, fb.block) && Attached(s, t, fb, p) && IsListing(fb.signatures, ms)
      && |Tagged(ms, {"accept"})| >= (s.n / s.m - 1) / s.committeeF + 1
      && (forall id | id in Tagged(ms, {"accept"}) :: GoodSignature(s, t, ms[id]))
      && !Accepted(s, t, Some(p))
  {
    var s, t, fb, p, ms := Three(sha, blake), Response(), Final(sha, blake), FinalProof(sha, blake), HeldVotes();
    VotesAreListed(sha, blake);
    ProofIsAttached(sha, blake);
    hide ProperBlock, Attached, IsListing, Accepted;
    ProofRoundTrip(s, t, fb, p, ms);
    assert C in ms && !GoodSignature(s, t, ms[C]);
    assert "accept"[0] == 'a' && "echo"[0] == 'e';
  }
}
