/**
  A member that missed blocks asks a peer for them, one iteration at a time, and replays
  them without checks; it ends where the peer is.
 */
module CatchUp {
  import opened Sequences
  import opened LedgerTypes
  import opened UtxoSets
  import opened Ledger
  import opened LedgerNode

  /** A final block; `signed` is false for the genesis block only. */
  datatype Block = Block(gossipHash: Hash, previous: Hash, iteration: nat, txs: seq<Transaction>, signed: bool)

  /** Consecutive iterations from the genesis block on, each block naming the one before it. */
  ghost predicate Linked(chain: seq<Block>) {
    && chain != []
    && chain[0].previous == NIL
    && (forall k | 0 <= k < |chain| :: chain[k].iteration == k && chain[k].gossipHash != NIL)
    && (forall k | 0 < k < |chain| :: chain[k].previous == chain[k - 1].gossipHash)
  }

  /** The ledger a member reaches by processing the blocks of a chain, checks included. */
  ghost function Replay(env: Env, chain: seq<Block>): Option<Ledger> {
    if chain == [] then Some(Ledger(map[], map[]))
    else
      match Replay(env, chain[..|chain| - 1])
      case None => None
      case Some(l) => CommitAll(env, l, chain[|chain| - 1].txs, chain[|chain| - 1].signed)
  }

  class Blockchain {
    var blocks: map<Hash, Block>
    var latest: Hash
    ghost var chain: seq<Block>

    ghost predicate Valid()
      reads this
    {
      && Linked(chain)
      && latest == chain[|chain| - 1].gossipHash
      && forall k | 0 <= k < |chain| :: chain[k].gossipHash in blocks && blocks[chain[k].gossipHash] == chain[k]
    }

    constructor (genesis: Block)
      requires Linked([genesis])
      ensures Valid() && chain == [genesis]
    {
      blocks := map[genesis.gossipHash := genesis];
      latest := genesis.gossipHash;
      chain := [genesis];
    }

    method GetLatest() returns (b: Block)
      requires Valid()
      ensures b == chain[|chain| - 1]
    {
      b := blocks[latest];
    }

    /** The block of that iteration, or the latest one if the chain does not reach so far. */
    method GetByIteration(iteration: nat) returns (b: Block)
      requires Valid()
      ensures b == chain[if iteration < |chain| then iteration else |chain| - 1]
    {
      var current := latest;
      ghost var k := |chain| - 1;
      while true
        invariant 0 <= k < |chain| && current == chain[k].gossipHash
        invariant k < |chain| - 1 ==> iteration <= k
        decreases k
      {
        b := blocks[current];
        if b.iteration <= iteration { return; }
        assert k > 0 && b.previous == chain[k - 1].gossipHash;
        if b.previous == NIL {
          assert false;  // the genesis block has iteration 0 and was returned above
        }
        current := b.previous;
        k := k - 1;
      }
    }

    method Add(b: Block)
      requires Valid() && Linked(chain + [b])
      requires b.gossipHash in blocks ==> blocks[b.gossipHash] == b
      modifies this
      ensures Valid() && chain == old(chain) + [b]
      ensures blocks == old(blocks)[b.gossipHash := b]
    {
      blocks := blocks[b.gossipHash := b];
      latest := b.gossipHash;
      chain := chain + [b];
    }
  }

  /** What a peer answers: the block it has for that iteration, and its latest iteration. */
  method Answer(peer: Blockchain, iteration: nat) returns (b: Block, last: nat)
    requires peer.Valid()
    ensures b == peer.chain[if iteration < |peer.chain| then iteration else |peer.chain| - 1]
    ensures last == |peer.chain| - 1
  {
    b := peer.GetByIteration(iteration);
    var newest := peer.GetLatest();
    last := newest.iteration;
  }

  /** A chain the committee agreed on: linked, acceptable block by block, no two blocks under one hash. */
  ghost predicate Agreed(env: Env, all: seq<Block>) {
    && Linked(all) && Replay(env, all).Some?
    && forall j, k | 0 <= j < |all| && 0 <= k < |all| && all[j].gossipHash == all[k].gossipHash :: all[j] == all[k]
  }

  /** The member's chain is a start of the agreed one, and its ledger is what that start amounts to. */
  ghost predicate Behind(m: Node, own: Blockchain, all: seq<Block>)
    reads m, m.utxo, own
  {
    && m.Valid() && own.Valid() && Agreed(m.env, all)
    && own.chain <= all
    && Replay(m.env, own.chain) == Some(m.Value())
    && forall k | 0 <= k < |all| && all[k].gossipHash in own.blocks :: own.blocks[all[k].gossipHash] == all[k]
  }

  /** Every member asked is honest: it has a start of the agreed chain, not all the same one. */
  ghost predicate HonestPeers(peers: seq<Blockchain>, all: seq<Block>)
    reads set p | p in peers
  {
    forall p | p in peers :: p.Valid() && p.chain <= all
  }

  /** Whether an answer brings something new: only a peer that is ahead has it, and it is the very next block. */
  lemma AnswerIsNewIff(own: seq<Block>, peer: seq<Block>, all: seq<Block>, b: Block)
    requires Linked(own) && Linked(peer) && Linked(all) && own <= all && peer <= all
    requires b == peer[if |own| < |peer| then |own| else |peer| - 1]
    ensures own[|own| - 1].iteration < b.iteration <==> |own| < |peer|
    ensures |own| < |peer| ==> b == all[|own|]
  {
  }

  datatype Outcome = OutOfStep | Waiting | CaughtUp

  ghost function Chains(peers: seq<Blockchain>): (cs: seq<seq<Block>>)
    reads set p | p in peers
    ensures |cs| == |peers| && forall k | 0 <= k < |peers| :: cs[k] == peers[k].chain
  {
    seq(|peers|, k reads set p | p in peers requires 0 <= k < |peers| => peers[k].chain)
  }

  /** One chain, longer than n, at everyone asked, and asked often enough. */
  ghost predicate SamePeer(peers: seq<seq<Block>>, n: nat) {
    && peers != [] && n < |peers[0]| <= n + |peers|
    && forall p | p in peers :: p == peers[0]
  }

  /** What asking members with the chains `peers` may come to. */
  ghost predicate Asked(before: seq<Block>, after: seq<Block>, peers: seq<seq<Block>>, r: Outcome) {
    && before <= after
    && r != OutOfStep
    && (r == CaughtUp ==> after in peers && |before| < |after|)
    && ((forall p | p in peers :: |p| <= |before|) ==> r == Waiting && after == before)
    && (SamePeer(peers, |before|) ==> r == CaughtUp)
  }

  /**
    Requests missing blocks one at a time from members picked at random, `picks` in that order, until an
    answer brings something new, and goes on until the block added was the answering peer's last. When the
    picks run out it is still asking: with peers that are not ahead that is for ever. Chain, iteration
    and ledger stay in step throughout.
   */
  method RequestAndAddMissingBlocks(m: Node, own: Blockchain, picks: seq<Blockchain>, i: nat, ghost all: seq<Block>)
    returns (r: Outcome, i': nat)
    requires Behind(m, own, all) && own !in picks && HonestPeers(picks, all)
    modifies m, m.utxo, own
    ensures r == OutOfStep <==> old(|own.chain|) != i
    ensures r == OutOfStep ==> own.chain == old(own.chain) && m.Value() == old(m.Value()) && i' == i
    ensures r != OutOfStep ==>
      Behind(m, own, all) && i' == |own.chain| && Asked(old(own.chain), own.chain, old(Chains(picks)), r)
    decreases |picks|
  {
    hide *;
    i' := i;
    BehindIs(m, own, all);
    ghost var before, peers := own.chain, Chains(picks);
    var last := own.GetLatest();
    if last.iteration + 1 != i { return OutOfStep, i'; }
    var found, b, lastIteration, j := AskForBlock(own, picks, all);
    if !found {
      NoneAhead(before, peers);
      return Waiting, i';
    }
    RestIsHonest(picks, j, all);
    AddMissing(m, own, b, all);
    assert Chains(picks[j..]) == peers[j..];
    i' := i' + 1;
    if lastIteration != b.iteration {
      r, i' := RequestAndAddMissingBlocks(m, own, picks[j..], i', all);
      OneFurther(before, own.chain, peers, j, b, r);
    } else {
      r := CaughtUp;
      LastOfPeer(before, peers, j, b, all);
    }
  }

  lemma NoneAhead(before: seq<Block>, peers: seq<seq<Block>>)
    requires forall k | 0 <= k < |peers| :: |peers[k]| <= |before|
    ensures Asked(before, before, peers, Waiting)
  {
  }

  /** The j-th member asked was the first ahead, by the one block b. */
  lemma LastOfPeer(before: seq<Block>, peers: seq<seq<Block>>, j: nat, b: Block, all: seq<Block>)
    requires 0 < j <= |peers| && peers[j - 1] <= all && before + [b] <= all && |peers[j - 1]| == |before| + 1
    ensures Asked(before, before + [b], peers, CaughtUp)
  {
    assert peers[j - 1] == before + [b];
  }

  /** The j-th member asked was the first ahead, by more than b: the rest is asked on. */
  lemma OneFurther(before: seq<Block>, after: seq<Block>, peers: seq<seq<Block>>, j: nat, b: Block, r: Outcome)
    requires 0 < j <= |peers| && |peers[j - 1]| > |before| + 1
    requires forall k | 0 <= k < j - 1 :: |peers[k]| <= |before|
    requires Asked(before + [b], after, peers[j..], r)
    ensures Asked(before, after, peers, r)
  {
    assert peers[j - 1] in peers && forall p | p in peers[j..] :: p in peers;
    if SamePeer(peers, |before|) {
      assert j == 1 && peers[j..][0] in peers;
    }
  }

  lemma BehindIs(m: Node, own: Blockchain, all: seq<Block>)
    requires Behind(m, own, all)
    ensures m.Valid() && own.Valid() && own.chain <= all && Linked(all)
    ensures own.chain != [] && own.chain[|own.chain| - 1].iteration + 1 == |own.chain|
  {
    hide Replay;
  }

  lemma RestIsHonest(picks: seq<Blockchain>, j: nat, all: seq<Block>)
    requires j <= |picks| && HonestPeers(picks, all)
    ensures HonestPeers(picks[j..], all)
  {
  }

  /** Asks until an answer is new; `j` picks were asked, only the last of them ahead. */
  method AskForBlock(own: Blockchain, picks: seq<Blockchain>, ghost all: seq<Block>)
    returns (found: bool, b: Block, lastIteration: nat, j: nat)
    requires own.Valid() && own.chain <= all && Linked(all) && HonestPeers(picks, all)
    ensures j <= |picks| && forall k | 0 <= k < j - 1 :: |picks[k].chain| <= |own.chain|
    ensures !found ==> forall k | 0 <= k < |picks| :: |picks[k].chain| <= |own.chain|
    ensures found ==>
      && j > 0 && |own.chain| < |picks[j - 1].chain| <= |all| && picks[j - 1].chain <= all && b == all[|own.chain|]
      && b.iteration == |own.chain| && lastIteration == |picks[j - 1].chain| - 1
  {
    var last := own.GetLatest();
    b, lastIteration, j := last, last.iteration, 0;
    while j < |picks|
      invariant 0 <= j <= |picks|
      invariant forall k | 0 <= k < j :: |picks[k].chain| <= |own.chain|
    {
      assert picks[j] in picks;
      b, lastIteration := Answer(picks[j], last.iteration + 1);
      AnswerIsNewIff(own.chain, picks[j].chain, all, b);
      j := j + 1;
      if last.iteration < b.iteration { return true, b, lastIteration, j; }
    }
    return false, b, lastIteration, j;
  }

  /** Adds the block and processes it without checks. */
  method AddMissing(m: Node, own: Blockchain, b: Block, ghost all: seq<Block>)
    requires Behind(m, own, all) && |own.chain| < |all| && b == all[|own.chain|]
    modifies m, m.utxo, own
    ensures Behind(m, own, all) && own.chain == old(own.chain) + [b]
  {
    hide Agreed, Replay, UtxoSet.Valid, Linked, ForceAll;
    StaysAgreed(m.env, m.Value(), own.chain, own.blocks, all);
    own.Add(b);
    var done := m.ForceProcessBlock(b.txs);
  }

  /** Adding the next agreed block, and processing it without checks, keeps a member on the agreed chain. */
  lemma StaysAgreed(env: Env, l: Ledger, own: seq<Block>, blocks: map<Hash, Block>, all: seq<Block>)
    requires Agreed(env, all) && Linked(own) && own <= all && |own| < |all| && Replay(env, own) == Some(l)
    requires forall k | 0 <= k < |all| && all[k].gossipHash in blocks :: blocks[all[k].gossipHash] == all[k]
    ensures var b := all[|own|];
      && Linked(own + [b]) && own + [b] <= all
      && (b.gossipHash in blocks ==> blocks[b.gossipHash] == b)
      && (forall k | 0 <= k < |all| && all[k].gossipHash in blocks[b.gossipHash := b] ::
            blocks[b.gossipHash := b][all[k].gossipHash] == all[k])
      && ForceAll(env, l, b.txs).Some? && Replay(env, own + [b]) == ForceAll(env, l, b.txs)
  {
    hide Replay, ForceAll, CommitAll, Linked;
    var b := all[|own|];
    ExtendsBy(own, all);
    ReplayStep(env, own, all);
    ForceAgrees(env, l, b.txs, b.signed);
  }

  lemma ExtendsBy(own: seq<Block>, peer: seq<Block>)
    requires Linked(own) && Linked(peer) && own <= peer && |own| < |peer|
    ensures Linked(own + [peer[|own|]]) && own + [peer[|own|]] <= peer
  {
    var more := own + [peer[|own|]];
    forall k | 0 <= k < |more| ensures more[k] == peer[k] {
    }
  }

  /** The peer's replay goes through the member's ledger and the next block. */
  lemma ReplayStep(env: Env, own: seq<Block>, peer: seq<Block>)
    requires own <= peer && |own| < |peer| && Replay(env, own).Some? && Replay(env, peer).Some?
    ensures var b := peer[|own|];
      && CommitAll(env, Replay(env, own).value, b.txs, b.signed).Some?
      && Replay(env, own + [b]) == CommitAll(env, Replay(env, own).value, b.txs, b.signed)
  {
    hide CommitAll;
    var b := peer[|own|];
    ReplayPrefix(env, peer, |own| + 1);
    assert peer[..|own| + 1] == own + [b] && (own + [b])[..|own|] == own;
  }

  lemma {:induction false} ReplayPrefix(env: Env, chain: seq<Block>, k: nat)
    requires k <= |chain| && Replay(env, chain).Some?
    ensures Replay(env, chain[..k]).Some?
    decreases |chain|
  {
    if k < |chain| {
      assert chain[..|chain| - 1][..k] == chain[..k];
      ReplayPrefix(env, chain[..|chain| - 1], k);
    } else {
      assert chain[..k] == chain;
    }
  }
}
