/** One node of the sharded PBFT variant: what each message makes it do. */
module Frustum {
  import opened Sequences
  import opened Quorums

  const END_BLOCK_HEIGHT: nat := 64
  const MALICIOUS: real := 1.0 / 3.0

  type Digest = nat

  datatype Block = Block(height: nat, preBlockHash: Option<Digest>, miner: NodeId, body: nat, timestamp: nat)

  /** Fixed membership: the shards, the intra-leaders (shard 1024), and the global leader. */
  datatype Setting = Setting(shards: nat -> set<NodeId>, intraLeaders: set<NodeId>, leader: NodeId, hash: Block -> Digest)
  {
    ghost predicate WellFormed() {
      && leader in intraLeaders
      && (forall k, x | x in shards(k) :: x.shard == k)
      && (forall x | x in intraLeaders :: x in shards(x.shard))
      && (forall x, y | x in intraLeaders && y in intraLeaders && x.shard == y.shard :: x == y)
    }

    /** The members a message from `from` is counted among at node `id`, and answered to. */
    function Group(id: NodeId, from: NodeId): set<NodeId> {
      if from.shard == id.shard then shards(id.shard) else intraLeaders
    }
  }

  datatype Stage = Initialize | Preparing

  datatype Pair = Pair(intra: Counter, global: Counter)

  datatype NodeState = NodeState(
    stage: Stage, height: nat, preBlockHash: Option<Digest>, prepare: Pair, commit: Pair, finality: Pair)

  function FreshPair(finality: bool): Pair {
    Pair(Counter(finality, 0, 0, []), Counter(finality, 0, 0, []))
  }

  function FreshNode(): NodeState {
    NodeState(Initialize, 0, None, FreshPair(false), FreshPair(false), FreshPair(true))
  }

  function ResetPair(p: Pair, h: nat): Pair {
    Pair(Reset(p.intra, h), Reset(p.global, h))
  }

  function ResetAll(n: NodeState, h: nat): NodeState {
    n.(prepare := ResetPair(n.prepare, h), commit := ResetPair(n.commit, h), finality := ResetPair(n.finality, h))
  }

  function Need(finality: bool, members: set<NodeId>): int {
    Threshold(finality, MALICIOUS, |members|)
  }

  lemma NeedIs(members: set<NodeId>)
    ensures Need(true, members) == |members| / 3 + 1
    ensures Need(false, members) == 2 * (|members| / 3) + 1
  {
    var n: nat, q := |members|, |members| / 3;
    assert n as real * MALICIOUS == n as real / 3.0;
    assert q as real <= n as real / 3.0 < q as real + 1.0;
  }

  /** A broadcast inside a group reaches everyone but the sender. */
  function Broadcast(members: set<NodeId>, kind: Kind, from: NodeId, h: nat): multiset<NodeMsg> {
    multiset(set to | to in members && to != from :: NodeMsg(kind, from, to, h))
  }

  /** What a message does: the node's new state, what it sends, and whether its round is over. */
  datatype Reaction = Reaction(node: NodeState, out: multiset<NodeMsg>, over: bool)

  function Vote(p: Pair, intra: bool, q: int, m: NodeMsg): Pair {
    if intra then p.(intra := Handled(p.intra, q, m)) else p.(global := Handled(p.global, q, m))
  }

  predicate Decides(p: Pair, intra: bool, q: int, m: NodeMsg) {
    Completes(if intra then p.intra else p.global, q, m)
  }

  function OnPrePrepare(s: Setting, id: NodeId, n: NodeState, m: NodeMsg): Reaction {
    Reaction(ResetAll(n, m.height).(stage := Preparing, height := m.height),
             Broadcast(s.Group(id, m.from), Prepare, id, m.height), false)
  }

  function OnPrepare(s: Setting, id: NodeId, n: NodeState, m: NodeMsg): Reaction {
    var intra, q := m.from.shard == id.shard, Need(false, s.Group(id, m.from));
    Reaction(n.(prepare := Vote(n.prepare, intra, q, m)),
             if Decides(n.prepare, intra, q, m) then Broadcast(s.Group(id, m.from), Commit, id, n.height) else multiset{},
             false)
  }

  function OnCommit(s: Setting, id: NodeId, n: NodeState, m: NodeMsg): Reaction {
    var intra, q := m.from.shard == id.shard, Need(false, s.Group(id, m.from));
    Reaction(n.(commit := Vote(n.commit, intra, q, m)),
             if Decides(n.commit, intra, q, m) && id != s.leader
             then multiset{NodeMsg(Finality, id, s.leader, n.height)} else multiset{},
             false)
  }

  function OnFinality(s: Setting, id: NodeId, n: NodeState, m: NodeMsg): Reaction {
    var intra, q := m.from.shard == id.shard, Need(true, s.Group(id, m.from));
    Reaction(n.(finality := Vote(n.finality, intra, q, m)), multiset{},
             !intra && Decides(n.finality, intra, q, m))
  }

  function Receive(s: Setting, id: NodeId, n: NodeState, m: NodeMsg): Reaction {
    match m.kind
    case PrePrepare => OnPrePrepare(s, id, n, m)
    case Prepare => OnPrepare(s, id, n, m)
    case Commit => OnCommit(s, id, n, m)
    case Finality => OnFinality(s, id, n, m)
  }

  function NewBlock(id: NodeId, n: NodeState, body: nat, time: nat): Block {
    Block(n.height + 1, n.preBlockHash, id, body, time)
  }

  /** The node after it has put up its next block. */
  function Launched(s: Setting, id: NodeId, n: NodeState, body: nat, time: nat): NodeState {
    ResetAll(n, n.height + 1).(
      stage := Preparing, height := n.height + 1, preBlockHash := Some(s.hash(NewBlock(id, n, body, time))))
  }

  function LaunchMsgs(s: Setting, id: NodeId, h: nat): multiset<NodeMsg> {
    Broadcast(s.shards(id.shard), PrePrepare, id, h) + Broadcast(s.intraLeaders, PrePrepare, id, h)
  }

  /** The counters live in objects of their own, as the node's handlers share them. */
  class Node {
    const s: Setting
    const id: NodeId
    var stage: Stage
    var blockHeight: nat
    var preBlockHash: Option<Digest>
    const intraPrepare: Quorum
    const globalPrepare: Quorum
    const intraCommit: Quorum
    const globalCommit: Quorum
    const intraFinality: Quorum
    const globalFinality: Quorum

    ghost predicate Valid()
      reads this
    {
      && intraPrepare != globalPrepare && intraPrepare != intraCommit && intraPrepare != globalCommit
      && intraPrepare != intraFinality && intraPrepare != globalFinality
      && globalPrepare != intraCommit && globalPrepare != globalCommit
      && globalPrepare != intraFinality && globalPrepare != globalFinality
      && intraCommit != globalCommit && intraCommit != intraFinality && intraCommit != globalFinality
      && globalCommit != intraFinality && globalCommit != globalFinality
      && intraFinality != globalFinality
      && !intraPrepare.finality && !globalPrepare.finality && !intraCommit.finality && !globalCommit.finality
      && intraFinality.finality && globalFinality.finality
    }

    function Parts(): set<object> {
      {intraPrepare, globalPrepare, intraCommit, globalCommit, intraFinality, globalFinality}
    }

    function State(): NodeState
      reads this, Parts()
    {
      NodeState(stage, blockHeight, preBlockHash,
                Pair(intraPrepare.State(), globalPrepare.State()),
                Pair(intraCommit.State(), globalCommit.State()),
                Pair(intraFinality.State(), globalFinality.State()))
    }

    constructor (s: Setting, id: NodeId)
      ensures Valid() && State() == FreshNode() && this.s == s && this.id == id
      ensures fresh(Parts())
    {
      this.s, this.id := s, id;
      stage, blockHeight, preBlockHash := Initialize, 0, None;
      intraPrepare := new Quorum(false);
      globalPrepare := new Quorum(false);
      intraCommit := new Quorum(false);
      globalCommit := new Quorum(false);
      intraFinality := new Quorum(true);
      globalFinality := new Quorum(true);
    }

    method ResetVoteCheck(h: nat)
      requires Valid()
      modifies Parts()
      ensures State() == ResetAll(old(State()), h)
    {
      hide Reset;
      intraPrepare.ResetCount(h);
      globalPrepare.ResetCount(h);
      intraCommit.ResetCount(h);
      globalCommit.ResetCount(h);
      intraFinality.ResetCount(h);
      globalFinality.ResetCount(h);
    }

    method GenerateNewBlock(body: nat, time: nat) returns (b: Block)
      modifies this
      ensures b == NewBlock(id, old(State()), body, time)
      ensures State() == old(State()).(height := old(blockHeight) + 1, preBlockHash := Some(s.hash(b)))
    {
      blockHeight := blockHeight + 1;
      b := Block(blockHeight, preBlockHash, id, body, time);
      preBlockHash := Some(s.hash(b));
    }

    /** The prepare votes of a new round are left to a goroutine of their own, see `SendPrepare`. */
    method StartConsensus(body: nat, time: nat) returns (b: Block, out: multiset<NodeMsg>)
      requires Valid()
      modifies this, Parts()
      ensures b == NewBlock(id, old(State()), body, time)
      ensures State() == Launched(s, id, old(State()), body, time)
      ensures out == LaunchMsgs(s, id, blockHeight)
    {
      hide Reset;
      stage := Preparing;
      b := GenerateNewBlock(body, time);
      ResetVoteCheck(blockHeight);
      out := Broadcast(s.shards(id.shard), PrePrepare, id, blockHeight);
      out := out + Broadcast(s.intraLeaders, PrePrepare, id, blockHeight);
    }

    /** Sent at the height the node has when that goroutine runs. */
    method SendPrepare(members: set<NodeId>) returns (out: multiset<NodeMsg>)
      ensures out == Broadcast(members, Prepare, id, blockHeight)
    {
      out := Broadcast(members, Prepare, id, blockHeight);
    }

    method HandlePrePrepare(m: NodeMsg) returns (out: multiset<NodeMsg>)
      requires Valid()
      modifies this, Parts()
      ensures Reaction(State(), out, false) == OnPrePrepare(s, id, old(State()), m)
    {
      hide Reset;
      ResetVoteCheck(m.height);
      stage := Preparing;
      blockHeight := m.height;
      out := SendPrepare(s.Group(id, m.from));
    }

    method HandlePrepare(m: NodeMsg) returns (out: multiset<NodeMsg>)
      requires Valid()
      modifies Parts()
      ensures Reaction(State(), out, false) == OnPrepare(s, id, old(State()), m)
    {
      hide Handled, Completes;
      var group := s.Group(id, m.from);
      var done, code;
      if m.from.shard == id.shard {
        done, code := intraPrepare.Handle(MALICIOUS, |group|, m);
      } else {
        done, code := globalPrepare.Handle(MALICIOUS, |group|, m);
      }
      out := if done then Broadcast(group, Commit, id, blockHeight) else multiset{};
    }

    method HandleCommit(m: NodeMsg) returns (out: multiset<NodeMsg>)
      requires Valid()
      modifies Parts()
      ensures Reaction(State(), out, false) == OnCommit(s, id, old(State()), m)
    {
      hide Handled, Completes;
      var group := s.Group(id, m.from);
      var done, code;
      if m.from.shard == id.shard {
        done, code := intraCommit.Handle(MALICIOUS, |group|, m);
      } else {
        done, code := globalCommit.Handle(MALICIOUS, |group|, m);
      }
      out := if done && id != s.leader then multiset{NodeMsg(Finality, id, s.leader, blockHeight)} else multiset{};
    }

    /** `over` calls for the next round. */
    method HandleFinality(m: NodeMsg) returns (over: bool)
      requires Valid()
      modifies Parts()
      ensures Reaction(State(), multiset{}, over) == OnFinality(s, id, old(State()), m)
    {
      hide Handled, Completes;
      var group := s.Group(id, m.from);
      var done, code;
      if m.from.shard == id.shard {
        done, code := intraFinality.Handle(MALICIOUS, |group|, m);
        over := false;
      } else {
        done, code := globalFinality.Handle(MALICIOUS, |group|, m);
        over := done;
      }
    }

    /** The next block, or the end of mining. */
    method NextRound(body: nat, time: nat) returns (b: Option<Block>, out: multiset<NodeMsg>)
      requires Valid()
      modifies this, Parts()
      ensures b.None? <==> old(blockHeight) == END_BLOCK_HEIGHT
      ensures b.None? ==> State() == old(State()) && out == multiset{}
      ensures b.Some? ==>
        && b.value == NewBlock(id, old(State()), body, time)
        && State() == Launched(s, id, old(State()), body, time)
        && out == LaunchMsgs(s, id, old(blockHeight) + 1)
    {
      if blockHeight == END_BLOCK_HEIGHT {
        return None, multiset{};
      }
      var block;
      block, out := StartConsensus(body, time);
      b := Some(block);
    }

    method MSGHandle(m: NodeMsg, body: nat, time: nat) returns (b: Option<Block>, out: multiset<NodeMsg>)
      requires Valid()
      modifies this, Parts()
      ensures var r := Receive(s, id, old(State()), m);
        && (b.Some? <==> r.over && r.node.height != END_BLOCK_HEIGHT)
        && (b.None? ==> State() == r.node && out == r.out)
        && (b.Some? ==>
              && b.value == NewBlock(id, r.node, body, time)
              && State() == Launched(s, id, r.node, body, time)
              && out == LaunchMsgs(s, id, r.node.height + 1))
    {
      hide OnPrePrepare, OnPrepare, OnCommit, NewBlock, Launched, LaunchMsgs;
      b, out := None, multiset{};
      match m.kind
      case PrePrepare => out := HandlePrePrepare(m);
      case Prepare => out := HandlePrepare(m);
      case Commit => out := HandleCommit(m);
      case Finality =>
        var over := HandleFinality(m);
        if over {
          b, out := NextRound(body, time);
        }
    }
  }
}
