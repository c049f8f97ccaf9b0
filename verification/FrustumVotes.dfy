/** What a node sends for the votes it gets, in either of its groups. */
module FrustumVotes {
  import opened Quorums
  import opened Frustum

  /** The group whose votes are counted: the node's shard, or the intra-leaders. */
  function Members(s: Setting, id: NodeId, intra: bool): set<NodeId> {
    if intra then s.shards(id.shard) else s.intraLeaders
  }

  function Side(p: Pair, intra: bool): Counter {
    if intra then p.intra else p.global
  }

  /** All of `ms`, one after the other. */
  function ReceiveAll(s: Setting, id: NodeId, n: NodeState, ms: seq<NodeMsg>): Reaction {
    if ms == [] then Reaction(n, multiset{}, false)
    else
      var r := ReceiveAll(s, id, n, ms[..|ms| - 1]);
      var last := Receive(s, id, r.node, ms[|ms| - 1]);
      Reaction(last.node, r.out + last.out, r.over || last.over)
  }

  /** Votes of one kind, from one of the node's groups. */
  predicate VotesOf(ms: seq<NodeMsg>, k: Kind, id: NodeId, intra: bool) {
    forall m | m in ms :: m.kind == k && (m.from.shard == id.shard <==> intra)
  }

  /** k messages of the round, with b kept from before, make the threshold. */
  predicate Makes(s: Setting, id: NodeId, intra: bool, k: nat, b: nat) {
    k * (1 + b) >= 2 * (|Members(s, id, intra)| / 3) + 1
  }

  lemma BroadcastIs(members: set<NodeId>, kind: Kind, from: NodeId, h: nat, x: NodeMsg)
    ensures Broadcast(members, kind, from, h)[x] ==
      if x.kind == kind && x.from == from && x.height == h && x.to in members && x.to != from then 1 else 0
  {
  }

  lemma PrepareStep(s: Setting, id: NodeId, n: NodeState, m: NodeMsg, intra: bool, x: NodeMsg)
    requires m.kind == Prepare && (m.from.shard == id.shard <==> intra)
    ensures var r, c, q := Receive(s, id, n, m), Side(n.prepare, intra), Need(false, Members(s, id, intra));
      && Side(r.node.prepare, intra) == Handled(c, q, m)
      && r.node.height == n.height && !r.over
      && r.out[x] == if Completes(c, q, m) && x.kind == Commit && x.from == id && x.height == n.height
                        && x.to in Members(s, id, intra) && x.to != id then 1 else 0
  {
    BroadcastIs(Members(s, id, intra), Commit, id, n.height, x);
    hide Broadcast, Handled, Completes, Need;
  }

  lemma CommitStep(s: Setting, id: NodeId, n: NodeState, m: NodeMsg, intra: bool, x: NodeMsg)
    requires m.kind == Commit && (m.from.shard == id.shard <==> intra)
    ensures var r, c, q := Receive(s, id, n, m), Side(n.commit, intra), Need(false, Members(s, id, intra));
      && Side(r.node.commit, intra) == Handled(c, q, m)
      && r.node.height == n.height && !r.over
      && r.out[x] == if Completes(c, q, m) && id != s.leader && x == NodeMsg(Finality, id, s.leader, n.height) then 1 else 0
  {
    hide Handled, Completes, Need;
  }

  lemma {:induction false} PreparesCounted(s: Setting, id: NodeId, n: NodeState, ms: seq<NodeMsg>, intra: bool, x: NodeMsg)
    requires VotesOf(ms, Prepare, id, intra)
    ensures var r, c, q := ReceiveAll(s, id, n, ms), Side(n.prepare, intra), Need(false, Members(s, id, intra));
      && Side(r.node.prepare, intra) == HandledAll(c, q, ms) && r.node.height == n.height
      && r.out[x] == if x.kind == Commit && x.from == id && x.height == n.height
                        && x.to in Members(s, id, intra) && x.to != id then Successes(c, q, ms) else 0
  {
    hide Receive, Need, Members, Completes, Handled;
    if ms != [] {
      var front, m := ms[..|ms| - 1], ms[|ms| - 1];
      PreparesCounted(s, id, n, front, intra, x);
      PrepareStep(s, id, ReceiveAll(s, id, n, front).node, m, intra, x);
    }
  }

  lemma {:induction false} CommitsCounted(s: Setting, id: NodeId, n: NodeState, ms: seq<NodeMsg>, intra: bool, x: NodeMsg)
    requires VotesOf(ms, Commit, id, intra)
    ensures var r, c, q := ReceiveAll(s, id, n, ms), Side(n.commit, intra), Need(false, Members(s, id, intra));
      && Side(r.node.commit, intra) == HandledAll(c, q, ms) && r.node.height == n.height
      && r.out[x] == if id != s.leader && x == NodeMsg(Finality, id, s.leader, n.height) then Successes(c, q, ms) else 0
  {
    hide Receive, Need, Members, Completes, Handled;
    if ms != [] {
      var front, m := ms[..|ms| - 1], ms[|ms| - 1];
      CommitsCounted(s, id, n, front, intra, x);
      CommitStep(s, id, ReceiveAll(s, id, n, front).node, m, intra, x);
    }
  }

  /**
    The prepare votes of a round make a node send one commit vote to every other member of the group they
    came from, and nothing else, exactly from the vote on that makes the threshold: k votes of the
    node's height since it was told, each counting the b kept from before again. So votes kept from
    before alone, with none after, never do.
   */
  lemma PreparesSendCommits(s: Setting, id: NodeId, n: NodeState, ms: seq<NodeMsg>, intra: bool, x: NodeMsg)
    requires VotesOf(ms, Prepare, id, intra)
    requires var c := Side(n.prepare, intra); c.votes == 0 && c.latest == n.height
    ensures ReceiveAll(s, id, n, ms).out[x] ==
      if Makes(s, id, intra, Of(ms, n.height), Of(Side(n.prepare, intra).buffer, n.height))
         && x.kind == Commit && x.from == id && x.height == n.height
         && x.to in Members(s, id, intra) && x.to != id
      then 1 else 0
  {
    hide ReceiveAll, HandledAll, Successes, Of, Need;
    NeedIs(Members(s, id, intra));
    PreparesCounted(s, id, n, ms, intra, x);
    VotesExactly(Side(n.prepare, intra), Need(false, Members(s, id, intra)), ms);
  }

  /** In the same way commit votes make every node but the leader send it one finality message. */
  lemma CommitsSendFinality(s: Setting, id: NodeId, n: NodeState, ms: seq<NodeMsg>, intra: bool, x: NodeMsg)
    requires VotesOf(ms, Commit, id, intra)
    requires var c := Side(n.commit, intra); c.votes == 0 && c.latest == n.height
    ensures ReceiveAll(s, id, n, ms).out[x] ==
      if Makes(s, id, intra, Of(ms, n.height), Of(Side(n.commit, intra).buffer, n.height))
         && id != s.leader && x == NodeMsg(Finality, id, s.leader, n.height)
      then 1 else 0
  {
    hide ReceiveAll, HandledAll, Successes, Of, Need;
    NeedIs(Members(s, id, intra));
    CommitsCounted(s, id, n, ms, intra, x);
    VotesExactly(Side(n.commit, intra), Need(false, Members(s, id, intra)), ms);
  }

  predicate Fresh(p: Pair, h: nat) {
    p.intra.latest == h && p.global.latest == h && p.intra.votes == 0 && p.global.votes == 0
  }

  /** A node that is told of a round counts afresh and sends one prepare vote to every other member of the group. */
  lemma ToldSendsPrepares(s: Setting, id: NodeId, n: NodeState, m: NodeMsg, x: NodeMsg)
    requires m.kind == PrePrepare
    ensures var r := Receive(s, id, n, m);
      && r.node.height == m.height && !r.over
      && Fresh(r.node.prepare, m.height) && Fresh(r.node.commit, m.height) && Fresh(r.node.finality, m.height)
      && r.out[x] == if x.kind == Prepare && x.from == id && x.height == m.height
                        && x.to in Members(s, id, m.from.shard == id.shard) && x.to != id then 1 else 0
  {
    BroadcastIs(Members(s, id, m.from.shard == id.shard), Prepare, id, m.height, x);
    hide Broadcast, Kept;
  }

  /** Putting up a block tells every other member of the leader's two groups once. */
  lemma LaunchTells(s: Setting, h: nat, x: NodeMsg)
    requires s.WellFormed()
    ensures LaunchMsgs(s, s.leader, h)[x] ==
      if x.kind == PrePrepare && x.from == s.leader && x.height == h
         && x.to in s.shards(s.leader.shard) + s.intraLeaders && x.to != s.leader then 1 else 0
  {
    BroadcastIs(s.shards(s.leader.shard), PrePrepare, s.leader, h, x);
    BroadcastIs(s.intraLeaders, PrePrepare, s.leader, h, x);
    hide Broadcast;
  }
}
