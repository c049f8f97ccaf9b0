/** Every run of the sharded PBFT variant: any delivery order, one start, fixed membership. */
module FrustumRuns {
  import opened Sequences
  import opened Quorums
  import opened Frustum

  datatype Mark = Mark(node: NodeId, height: nat)

  /** The nodes, the messages under way, prepare goroutines not run yet, and what has happened. */
  datatype World = World(
    nodes: map<NodeId, NodeState>, msgs: multiset<NodeMsg>,
    intraTasks: multiset<NodeId>, globalTasks: multiset<NodeId>,
    started: bool, blocks: seq<Block>, stops: nat,
    seen: set<Mark>, finals: set<Mark>)

  datatype Event =
    | Begin(body: nat, time: nat)
    | Deliver(msg: NodeMsg, body: nat, time: nat)
    | IntraTask(node: NodeId)
    | GlobalTask(node: NodeId)

  function Everyone(s: Setting): set<NodeId> {
    s.shards(s.leader.shard) + s.intraLeaders
  }

  function Start(s: Setting): World {
    World(map id | id in Everyone(s) :: FreshNode(), multiset{}, multiset{}, multiset{}, false, [], 0, {}, {})
  }

  /** A node puts up its next block. */
  function Launch(s: Setting, w: World, id: NodeId, body: nat, time: nat): World
    requires id in w.nodes
  {
    var n := w.nodes[id];
    w.(nodes := w.nodes[id := Launched(s, id, n, body, time)],
       msgs := w.msgs + LaunchMsgs(s, id, n.height + 1),
       intraTasks := w.intraTasks + multiset{id},
       blocks := w.blocks + [NewBlock(id, n, body, time)])
  }

  /** The message is handled; what to do when it ends the round is left open. */
  function Handle(s: Setting, w: World, m: NodeMsg): World
    requires m.to in w.nodes
  {
    var r := Receive(s, m.to, w.nodes[m.to], m);
    w.(nodes := w.nodes[m.to := r.node],
       msgs := w.msgs - multiset{m} + r.out,
       seen := if m.kind == PrePrepare then w.seen + {Mark(m.to, m.height)} else w.seen,
       finals := if m.kind == Finality then w.finals + {Mark(m.from, m.height)} else w.finals)
  }

  predicate Over(s: Setting, w: World, m: NodeMsg)
    requires m.to in w.nodes
  {
    Receive(s, m.to, w.nodes[m.to], m).over
  }

  function Next(s: Setting, w: World, id: NodeId, body: nat, time: nat): World
    requires id in w.nodes
  {
    if w.nodes[id].height == END_BLOCK_HEIGHT then w.(stops := w.stops + 1) else Launch(s, w, id, body, time)
  }

  /** What cannot happen changes nothing. */
  function Step(s: Setting, w: World, e: Event): World {
    match e
    case Begin(body, time) =>
      if w.started || s.leader !in w.nodes then w
      else Launch(s, w.(started := true), s.leader, body, time)
    case Deliver(m, body, time) =>
      if m !in w.msgs || m.to !in w.nodes then w
      else if Over(s, w, m) then Next(s, Handle(s, w, m), m.to, body, time)
      else Handle(s, w, m)
    case IntraTask(id) =>
      if id !in w.intraTasks || id !in w.nodes then w
      else w.(msgs := w.msgs + Broadcast(s.shards(id.shard), Prepare, id, w.nodes[id].height),
              intraTasks := w.intraTasks - multiset{id}, globalTasks := w.globalTasks + multiset{id})
    case GlobalTask(id) =>
      if id !in w.globalTasks || id !in w.nodes then w
      else w.(msgs := w.msgs + Broadcast(s.intraLeaders, Prepare, id, w.nodes[id].height),
              globalTasks := w.globalTasks - multiset{id})
  }

  function Run(s: Setting, w: World, events: seq<Event>): World
    decreases |events|
  {
    if events == [] then w else Run(s, Step(s, w, events[0]), events[1..])
  }

  /** The leader's height. */
  function Top(s: Setting, w: World): nat {
    if s.leader in w.nodes then w.nodes[s.leader].height else 0
  }

  /** The foreign intra-leaders whose finality message for this height has reached the leader. */
  ghost function Voters(s: Setting, w: World, h: nat): set<NodeId> {
    set x | x in w.finals && x.height == h && x.node.shard != s.leader.shard :: x.node
  }

  function LeaderNeed(s: Setting): int {
    Need(true, s.intraLeaders)
  }

  /** Who may send what to whom. */
  ghost predicate Proper(s: Setting, m: NodeMsg, top: nat) {
    && m.from in Everyone(s) && m.to in Everyone(s) && m.from != m.to
    && 1 <= m.height <= top
    && (m.from.shard == m.to.shard ==> m.to.shard == s.leader.shard)
    && (m.from.shard != m.to.shard ==> m.from in s.intraLeaders && m.to in s.intraLeaders)
    && (m.kind == PrePrepare ==> m.from == s.leader)
    && (m.kind == Finality ==> m.to == s.leader)
  }

  ghost predicate Routed(s: Setting, w: World) {
    && w.nodes.Keys == Everyone(s)
    && (forall m | m in w.msgs :: Proper(s, m, Top(s, w)))
    && (forall id | id in w.intraTasks + w.globalTasks :: id == s.leader && Top(s, w) > 0)
    && (Top(s, w) > 0 ==> w.started)
  }

  ghost predicate PairAt(p: Pair, h: nat) {
    p.intra.latest == h && p.global.latest == h
  }

  /** All counters of a node are at the node's height, which the leader's bounds. */
  ghost predicate Level(n: NodeState, top: nat) {
    n.height <= top && PairAt(n.prepare, n.height) && PairAt(n.commit, n.height) && PairAt(n.finality, n.height)
  }

  ghost predicate Levels(s: Setting, w: World) {
    && (forall id | id in w.nodes :: Level(w.nodes[id], Top(s, w)))
    && (forall x | x in w.seen + w.finals :: x.height <= Top(s, w) && x.node in Everyone(s))
    && (forall id | id in w.nodes && id != s.leader && w.nodes[id].height > 0 :: Mark(id, w.nodes[id].height) in w.seen)
  }

  /** A node is told to start a round at most once. */
  ghost predicate ToldOnce(w: World) {
    forall m: NodeMsg | m.kind == PrePrepare :: w.msgs[m] + (if Mark(m.to, m.height) in w.seen then 1 else 0) <= 1
  }

  /** A foreign intra-leader ends a round at most once: only after it was told, and only by completing its commit count. */
  ghost predicate EndsOnce(s: Setting, w: World) {
    forall m: NodeMsg | m.kind == Finality && m.from.shard != s.leader.shard && m.to == s.leader :: EndedOnce(s, w, m)
  }

  ghost predicate EndedOnce(s: Setting, w: World, m: NodeMsg) {
    && w.msgs[m] + (if Mark(m.from, m.height) in w.finals then 1 else 0) <= 1
    && (m in w.msgs || Mark(m.from, m.height) in w.finals ==>
          && Mark(m.from, m.height) in w.seen
          && (m.from in w.nodes && w.nodes[m.from].height == m.height ==> CommitFull(s, w.nodes[m.from])))
  }

  predicate CommitFull(s: Setting, n: NodeState) {
    n.commit.global.votes >= Need(false, s.intraLeaders)
  }

  function LeaderCount(s: Setting, w: World): Counter
    requires s.leader in w.nodes
  {
    w.nodes[s.leader].finality.global
  }

  /** The leader's count is the number of distinct foreign voters, capped; no vote is ever early. */
  ghost predicate Tally(s: Setting, w: World) {
    s.leader in w.nodes ==>
      var c := LeaderCount(s, w);
      && c.buffer == []
      && c.votes == Least(LeaderNeed(s), |Voters(s, w, c.latest)|)
      && forall h | 1 <= h < c.latest :: |Voters(s, w, h)| >= LeaderNeed(s)
  }

  /** The count is full only at the last height, where mining stops once. */
  ghost predicate Stopping(s: Setting, w: World) {
    s.leader in w.nodes ==>
      var c := LeaderCount(s, w);
      && w.stops == (if c.votes >= LeaderNeed(s) then 1 else 0)
      && (c.latest < END_BLOCK_HEIGHT ==> c.votes < LeaderNeed(s))
  }

  /** The blocks are the leader's, numbered from 1, each naming the one before. */
  ghost predicate Chain(s: Setting, blocks: seq<Block>) {
    forall i | 0 <= i < |blocks| ::
      && blocks[i].height == i + 1
      && blocks[i].miner == s.leader
      && blocks[i].preBlockHash == if i == 0 then None else Some(s.hash(blocks[i - 1]))
  }

  ghost predicate Chained(s: Setting, w: World) {
    && s.leader in w.nodes
    && Chain(s, w.blocks)
    && Top(s, w) == |w.blocks| <= END_BLOCK_HEIGHT
    && w.nodes[s.leader].preBlockHash == if w.blocks == [] then None else Some(s.hash(w.blocks[|w.blocks| - 1]))
  }

  ghost predicate Inv(s: Setting, w: World) {
    && Routed(s, w) && Levels(s, w) && ToldOnce(w) && EndsOnce(s, w) && Tally(s, w) && Stopping(s, w) && Chained(s, w)
  }

  /** A group broadcast within the leader's shard, or among the intra-leaders, is proper. */
  lemma BroadcastProper(s: Setting, id: NodeId, from: NodeId, kind: Kind, h: nat, top: nat)
    requires s.WellFormed() && 1 <= h <= top && id in Everyone(s) && (kind == Prepare || kind == Commit || kind == PrePrepare)
    requires from.shard == id.shard ==> id.shard == s.leader.shard
    requires from.shard != id.shard ==> id in s.intraLeaders
    requires kind == PrePrepare ==> id == s.leader
    ensures forall m | m in Broadcast(s.Group(id, from), kind, id, h) :: Proper(s, m, top)
    ensures forall m | m in Broadcast(s.Group(id, from), kind, id, h) :: m.kind == kind && m.height == h && m.from == id
    ensures forall m :: Broadcast(s.Group(id, from), kind, id, h)[m] <= 1
  {
  }

  lemma StartHasInv(s: Setting)
    requires s.WellFormed()
    ensures Inv(s, Start(s))
  {
    NeedIs(s.intraLeaders);
    assert forall h :: Voters(s, Start(s), h) == {};
  }

  /** What a node sends in answer is proper. */
  lemma AnswerProper(s: Setting, w: World, m: NodeMsg)
    requires s.WellFormed() && Routed(s, w) && Levels(s, w) && m in w.msgs && m.to in w.nodes
    ensures var r := Receive(s, m.to, w.nodes[m.to], m);
      && (forall x | x in r.out :: Proper(s, x, Top(s, w)))
      && (forall x | x in r.out :: x.kind != PrePrepare && (x.kind == Finality ==> m.kind == Commit))
      && (forall x | x in r.out && m.kind == Commit :: x == NodeMsg(Finality, m.to, s.leader, w.nodes[m.to].height))
  {
    hide OnPrePrepare, OnPrepare, OnCommit, OnFinality, Proper, Level, Everyone, Top;
    var n, top := w.nodes[m.to], Top(s, w);
    match m.kind
    case PrePrepare => AnswersPrePrepare(s, m, n, top);
    case Prepare => AnswersPrepare(s, m, n, top);
    case Commit => AnswersCommit(s, m, n, top);
    case Finality => AnswersFinality(s, m, n);
  }

  lemma AnswersPrePrepare(s: Setting, m: NodeMsg, n: NodeState, top: nat)
    requires s.WellFormed() && Proper(s, m, top)
    ensures forall x | x in OnPrePrepare(s, m.to, n, m).out :: Proper(s, x, top) && x.kind == Prepare
  {
    BroadcastProper(s, m.to, m.from, Prepare, m.height, top);
    hide Proper, Broadcast, ResetAll;
  }

  lemma AnswersPrepare(s: Setting, m: NodeMsg, n: NodeState, top: nat)
    requires s.WellFormed() && Proper(s, m, top) && Level(n, top)
    ensures forall x | x in OnPrepare(s, m.to, n, m).out :: Proper(s, x, top) && x.kind == Commit
  {
    if n.height >= 1 {
      BroadcastProper(s, m.to, m.from, Commit, n.height, top);
    }
    hide Broadcast, Vote;
  }

  lemma AnswersCommit(s: Setting, m: NodeMsg, n: NodeState, top: nat)
    requires s.WellFormed() && Proper(s, m, top) && Level(n, top)
    ensures forall x | x in OnCommit(s, m.to, n, m).out ::
      Proper(s, x, top) && x == NodeMsg(Finality, m.to, s.leader, n.height)
  {
    hide Vote;
  }

  lemma AnswersFinality(s: Setting, m: NodeMsg, n: NodeState)
    ensures OnFinality(s, m.to, n, m).out == multiset{}
  {
  }

  /** Handling never touches the leader's height, nor a foreign node's intra counters. */
  lemma HandleTop(s: Setting, w: World, m: NodeMsg)
    requires Routed(s, w) && m in w.msgs && m.to in w.nodes
    ensures Top(s, Handle(s, w, m)) == Top(s, w)
    ensures m.to == s.leader ==> m.kind != PrePrepare
  {
    assert Proper(s, m, Top(s, w));
  }

  lemma HandleRouted(s: Setting, w: World, m: NodeMsg)
    requires s.WellFormed() && Routed(s, w) && Levels(s, w) && m in w.msgs && m.to in w.nodes
    ensures Routed(s, Handle(s, w, m))
  {
    HandleTop(s, w, m);
    AnswerProper(s, w, m);
    hide Receive, Proper, Level, Top, Everyone;
  }

  lemma HandleLevels(s: Setting, w: World, m: NodeMsg)
    requires Routed(s, w) && Levels(s, w) && m in w.msgs && m.to in w.nodes
    ensures Levels(s, Handle(s, w, m))
  {
    HandleTop(s, w, m);
    assert Proper(s, m, Top(s, w)) && Level(w.nodes[m.to], Top(s, w));
    ReceiveLevel(s, m.to, w.nodes[m.to], m, Top(s, w));
    assert m.from in Everyone(s) && m.to in Everyone(s);
    hide Receive, Proper, Level, Top, Everyone;
  }

  lemma ReceiveLevel(s: Setting, id: NodeId, n: NodeState, m: NodeMsg, top: nat)
    requires Level(n, top) && m.height <= top
    ensures Level(Receive(s, id, n, m).node, top)
    ensures Receive(s, id, n, m).node.height == if m.kind == PrePrepare then m.height else n.height
  {
  }

  lemma FromLeader(s: Setting, w: World, m: NodeMsg, k: NodeMsg)
    requires Routed(s, w) && m in w.msgs && k in w.msgs && m.kind == PrePrepare && k.kind == PrePrepare
    ensures m.from == k.from == s.leader
  {
    assert Proper(s, m, Top(s, w)) && Proper(s, k, Top(s, w));
  }

  lemma HandleToldOnce(s: Setting, w: World, m: NodeMsg)
    requires s.WellFormed() && Routed(s, w) && Levels(s, w) && ToldOnce(w) && m in w.msgs && m.to in w.nodes
    ensures ToldOnce(Handle(s, w, m))
  {
    hide Receive, Top, Level, Everyone;
    AnswerProper(s, w, m);
    var x := Handle(s, w, m);
    forall k: NodeMsg | k.kind == PrePrepare
      ensures x.msgs[k] + (if Mark(k.to, k.height) in x.seen then 1 else 0) <= 1
    {
      if m.kind == PrePrepare && k in w.msgs {
        FromLeader(s, w, m, k);
      }
    }
  }

  lemma HandleChained(s: Setting, w: World, m: NodeMsg)
    requires Routed(s, w) && Chained(s, w) && m in w.msgs && m.to in w.nodes
    ensures Chained(s, Handle(s, w, m))
  {
    HandleTop(s, w, m);
    hide Chain, Top;
  }

  /** A full count stays full, until the node is told of another round. */
  lemma FullStays(s: Setting, id: NodeId, n: NodeState, m: NodeMsg)
    requires m.kind != PrePrepare && CommitFull(s, n)
    ensures CommitFull(s, Receive(s, id, n, m).node)
  {
  }

  /** A foreign node ends its round by filling its commit count, which was not full. */
  lemma EndsByFilling(s: Setting, w: World, m: NodeMsg)
    requires s.WellFormed() && Routed(s, w) && Levels(s, w) && m in w.msgs && m.to in w.nodes
    requires m.to.shard != s.leader.shard && m.kind == Commit && Receive(s, m.to, w.nodes[m.to], m).out != multiset{}
    ensures !CommitFull(s, w.nodes[m.to]) && CommitFull(s, Receive(s, m.to, w.nodes[m.to], m).node)
    ensures w.nodes[m.to].height > 0
    ensures Receive(s, m.to, w.nodes[m.to], m).out == multiset{NodeMsg(Finality, m.to, s.leader, w.nodes[m.to].height)}
  {
    assert Proper(s, m, Top(s, w)) && Level(w.nodes[m.to], Top(s, w));
  }

  lemma HandleEndedOnce(s: Setting, w: World, m: NodeMsg, k: NodeMsg)
    requires s.WellFormed() && Routed(s, w) && Levels(s, w) && ToldOnce(w) && m in w.msgs && m.to in w.nodes
    requires k.kind == Finality && k.from.shard != s.leader.shard && k.to == s.leader && EndedOnce(s, w, k)
    ensures EndedOnce(s, Handle(s, w, m), k)
  {
    hide Receive, Proper, Level, Everyone, CommitFull, Top;
    var x, n := Handle(s, w, m), w.nodes[m.to];
    var r := Receive(s, m.to, n, m);
    AnswerProper(s, w, m);
    NotToItself(s, w, m);
    ReceiveLevel(s, m.to, n, m, Top(s, w));
    if k.from == m.to {
      if m.kind != PrePrepare && CommitFull(s, n) { FullStays(s, m.to, n, m); }
      if k in r.out { EndsByFilling(s, w, m); }
      assert m.kind == PrePrepare ==> w.msgs[m] > 0 && Mark(m.to, m.height) !in w.seen;
      assert k != m;
    } else {
      assert k !in r.out;
      assert x.nodes.Keys == w.nodes.Keys && (k.from in w.nodes ==> x.nodes[k.from] == w.nodes[k.from]);
      SameCounts(w, m, r.out, k);
    }
  }

  lemma NotToItself(s: Setting, w: World, m: NodeMsg)
    requires Routed(s, w) && m in w.msgs
    ensures m.from != m.to && m.height <= Top(s, w) && (m.kind == Finality ==> m.to == s.leader)
  {
    assert Proper(s, m, Top(s, w));
  }

  lemma SameCounts(w: World, m: NodeMsg, out: multiset<NodeMsg>, k: NodeMsg)
    requires m in w.msgs && k !in out
    ensures (w.msgs - multiset{m} + out)[k] == w.msgs[k] - if k == m then 1 else 0
  {
  }

  /** The leader's finality counter sees only messages that could be votes. */
  lemma LeaderHandles(s: Setting, n: NodeState, m: NodeMsg)
    requires n.finality.global.buffer == [] && m.kind != PrePrepare && m.height <= n.height
    requires n.finality.global.latest == n.height
    ensures var r := Receive(s, s.leader, n, m);
      var c, d := n.finality.global, r.node.finality.global;
      && d.latest == c.latest && d.buffer == []
      && (var counts := m.kind == Finality && m.from.shard != s.leader.shard && m.height == c.latest && c.votes < LeaderNeed(s);
          && d.votes == (if counts then c.votes + 1 else c.votes)
          && (r.over <==> counts && d.votes == LeaderNeed(s)))
  {
    NeedIs(s.intraLeaders);
  }

  /** Only the leader is sent finality messages, so only it ends a round. */
  lemma OverAtLeader(s: Setting, w: World, m: NodeMsg)
    requires Routed(s, w) && m in w.msgs && m.to in w.nodes && Over(s, w, m)
    ensures m.to == s.leader && m.kind == Finality && m.from.shard != s.leader.shard
  {
    assert Proper(s, m, Top(s, w));
  }

  /** A foreign finality message under way has not been counted before. */
  lemma NewVoter(s: Setting, w: World, m: NodeMsg, h: nat)
    requires Routed(s, w) && EndsOnce(s, w) && m in w.msgs && m.to in w.nodes
    ensures |Voters(s, Handle(s, w, m), h)| ==
      |Voters(s, w, h)| + if m.kind == Finality && m.from.shard != s.leader.shard && m.height == h then 1 else 0
  {
    assert Proper(s, m, Top(s, w));
    var x := Handle(s, w, m);
    if m.kind == Finality && m.from.shard != s.leader.shard && m.height == h {
      assert EndedOnce(s, w, m);
      assert Mark(m.from, h) !in w.finals;
      assert Voters(s, x, h) == Voters(s, w, h) + {m.from};
    } else {
      assert Voters(s, x, h) == Voters(s, w, h);
    }
  }

  lemma HandleTally(s: Setting, w: World, m: NodeMsg)
    requires Inv(s, w) && m in w.msgs && m.to in w.nodes
    ensures Tally(s, Handle(s, w, m))
    ensures Over(s, w, m) ==>
      m.to == s.leader && w.stops == 0 && LeaderCount(s, Handle(s, w, m)).votes >= LeaderNeed(s)
    ensures !Over(s, w, m) ==> Stopping(s, Handle(s, w, m))
  {
    var x, c := Handle(s, w, m), LeaderCount(s, w);
    assert Proper(s, m, Top(s, w)) && Level(w.nodes[s.leader], Top(s, w));
    if m.to == s.leader {
      LeaderHandles(s, w.nodes[s.leader], m);
    }
    if Over(s, w, m) {
      OverAtLeader(s, w, m);
    }
    NeedIs(s.intraLeaders);
    forall h ensures |Voters(s, x, h)| ==
      |Voters(s, w, h)| + if m.kind == Finality && m.from.shard != s.leader.shard && m.height == h then 1 else 0
    {
      NewVoter(s, w, m, h);
    }
    hide Receive, Proper, Level, Top, Everyone, Voters, EndsOnce, Routed, Levels, ToldOnce, Chained, Need;
  }

  /** The leader may go on: it has not started, or its last round is over. */
  ghost predicate MayLaunch(s: Setting, w: World) {
    && Routed(s, w) && Levels(s, w) && ToldOnce(w) && EndsOnce(s, w) && Tally(s, w) && Chained(s, w)
    && w.started && w.stops == 0 && s.leader in w.nodes && Top(s, w) < END_BLOCK_HEIGHT
    && (Top(s, w) > 0 ==> LeaderCount(s, w).votes >= LeaderNeed(s))
  }

  lemma LaunchTop(s: Setting, w: World, body: nat, time: nat)
    requires s.leader in w.nodes
    ensures Top(s, Launch(s, w, s.leader, body, time)) == Top(s, w) + 1
  {
  }

  lemma LaunchProper(s: Setting, h: nat)
    requires s.WellFormed() && h > 0
    ensures forall m | m in LaunchMsgs(s, s.leader, h) :: Proper(s, m, h) && m.kind == PrePrepare && m.height == h
    ensures forall m: NodeMsg :: LaunchMsgs(s, s.leader, h)[m] <= 1
  {
    BroadcastProper(s, s.leader, s.leader, PrePrepare, h, h);
    var a := Broadcast(s.shards(s.leader.shard), PrePrepare, s.leader, h);
    var b := Broadcast(s.intraLeaders, PrePrepare, s.leader, h);
    forall m | m in b ensures Proper(s, m, h) && m !in a {
      assert m.to in s.intraLeaders && m.to != s.leader;
    }
  }

  lemma StaysProper(s: Setting, w: World)
    requires Routed(s, w)
    ensures forall m | m in w.msgs :: Proper(s, m, Top(s, w) + 1) && m.height <= Top(s, w)
  {
    forall m | m in w.msgs ensures Proper(s, m, Top(s, w) + 1) {
      assert Proper(s, m, Top(s, w));
    }
  }

  lemma LaunchRouted(s: Setting, w: World, body: nat, time: nat)
    requires s.WellFormed() && MayLaunch(s, w)
    ensures Routed(s, Launch(s, w, s.leader, body, time))
  {
    hide Proper, Everyone, LaunchMsgs, Launched, Levels, ToldOnce, EndsOnce, Tally, Chained, Top;
    LaunchTop(s, w, body, time);
    LaunchProper(s, Top(s, w) + 1);
    StaysProper(s, w);
    LeaderTop(s, w);
    var x := Launch(s, w, s.leader, body, time);
    assert x.nodes.Keys == Everyone(s);
    assert forall m | m in x.msgs :: Proper(s, m, Top(s, x));
    forall id | id in x.intraTasks + x.globalTasks ensures id == s.leader {
      assert id == s.leader || id in w.intraTasks + w.globalTasks;
    }
  }

  lemma LeaderTop(s: Setting, w: World)
    requires s.leader in w.nodes
    ensures w.nodes[s.leader].height == Top(s, w)
  {
  }

  lemma LaunchLevels(s: Setting, w: World, body: nat, time: nat)
    requires s.WellFormed() && MayLaunch(s, w)
    ensures Levels(s, Launch(s, w, s.leader, body, time))
  {
    LaunchTop(s, w, body, time);
    var x := Launch(s, w, s.leader, body, time);
    forall id | id in x.nodes ensures Level(x.nodes[id], Top(s, x)) {
      assert Level(w.nodes[id], Top(s, w));
    }
    hide Level, Top, LaunchMsgs, Launched;
  }

  lemma LaunchToldOnce(s: Setting, w: World, body: nat, time: nat)
    requires s.WellFormed() && MayLaunch(s, w)
    ensures ToldOnce(Launch(s, w, s.leader, body, time))
  {
    hide Proper, Everyone, LaunchMsgs, Launched, EndsOnce, Tally, Chained, Top;
    var x := Launch(s, w, s.leader, body, time);
    LaunchProper(s, Top(s, w) + 1);
    LeaderTop(s, w);
    StaysProper(s, w);
    forall m: NodeMsg | m.kind == PrePrepare
      ensures x.msgs[m] + (if Mark(m.to, m.height) in x.seen then 1 else 0) <= 1
    {
      if m.height == Top(s, w) + 1 {
        assert m !in w.msgs && Mark(m.to, m.height) !in w.seen;
      } else {
        assert m !in LaunchMsgs(s, s.leader, Top(s, w) + 1);
      }
    }
  }

  lemma LaunchEndsOnce(s: Setting, w: World, body: nat, time: nat)
    requires s.WellFormed() && MayLaunch(s, w)
    ensures EndsOnce(s, Launch(s, w, s.leader, body, time))
  {
    hide Proper, Everyone, LaunchMsgs, Launched, ToldOnce, Tally, Chained, Top, CommitFull, Routed, Levels;
    var x := Launch(s, w, s.leader, body, time);
    LaunchProper(s, Top(s, w) + 1);
    LeaderTop(s, w);
    forall m: NodeMsg | m.kind == Finality && m.from.shard != s.leader.shard && m.to == s.leader
      ensures EndedOnce(s, x, m)
    {
      assert EndedOnce(s, w, m);
      assert m !in LaunchMsgs(s, s.leader, Top(s, w) + 1);
    }
  }

  lemma LaunchTally(s: Setting, w: World, body: nat, time: nat)
    requires s.WellFormed() && MayLaunch(s, w)
    ensures Tally(s, Launch(s, w, s.leader, body, time)) && Stopping(s, Launch(s, w, s.leader, body, time))
  {
    var x := Launch(s, w, s.leader, body, time);
    NeedIs(s.intraLeaders);
    assert Level(w.nodes[s.leader], Top(s, w));
    forall h ensures Voters(s, x, h) == Voters(s, w, h) {}
    assert Voters(s, w, Top(s, w) + 1) == {};
    hide Voters, Need, EndsOnce, Routed, ToldOnce, Chained, Level;
  }

  lemma LaunchChained(s: Setting, w: World, body: nat, time: nat)
    requires s.WellFormed() && MayLaunch(s, w)
    ensures Chained(s, Launch(s, w, s.leader, body, time))
  {
    hide Routed, Levels, ToldOnce, EndsOnce, Tally, ResetAll, LaunchMsgs;
    LaunchTop(s, w, body, time);
  }

  lemma LaunchKeepsInv(s: Setting, w: World, body: nat, time: nat)
    requires s.WellFormed() && MayLaunch(s, w)
    ensures Inv(s, Launch(s, w, s.leader, body, time))
  {
    LaunchRouted(s, w, body, time);
    LaunchLevels(s, w, body, time);
    LaunchToldOnce(s, w, body, time);
    LaunchEndsOnce(s, w, body, time);
    LaunchTally(s, w, body, time);
    LaunchChained(s, w, body, time);
  }

  lemma DeliverKeepsInv(s: Setting, w: World, m: NodeMsg, body: nat, time: nat)
    requires s.WellFormed() && Inv(s, w)
    ensures Inv(s, Step(s, w, Deliver(m, body, time)))
  {
    hide Routed, Levels, ToldOnce, EndsOnce, Tally, Stopping, Chained;
    if m in w.msgs && m.to in w.nodes {
      var x := Handle(s, w, m);
      HandleRouted(s, w, m);
      HandleLevels(s, w, m);
      HandleToldOnce(s, w, m);
      HandleEndsOnce(s, w, m);
      HandleTally(s, w, m);
      HandleChained(s, w, m);
      if Over(s, w, m) {
        AfterRound(s, w, m, body, time);
      }
    }
  }

  lemma HandleEndsOnce(s: Setting, w: World, m: NodeMsg)
    requires s.WellFormed() && Routed(s, w) && Levels(s, w) && ToldOnce(w) && EndsOnce(s, w) && m in w.msgs && m.to in w.nodes
    ensures EndsOnce(s, Handle(s, w, m))
  {
    hide EndedOnce;
    forall k: NodeMsg | k.kind == Finality && k.from.shard != s.leader.shard && k.to == s.leader
      ensures EndedOnce(s, Handle(s, w, m), k)
    {
      HandleEndedOnce(s, w, m, k);
    }
  }

  lemma AfterRound(s: Setting, w: World, m: NodeMsg, body: nat, time: nat)
    requires s.WellFormed() && Inv(s, w) && m in w.msgs && m.to in w.nodes && Over(s, w, m)
    ensures Inv(s, Next(s, Handle(s, w, m), m.to, body, time))
  {
    hide Routed, Levels, ToldOnce, EndsOnce, Tally, Stopping, Chained, Receive, Over, MayLaunch, Voters, Need;
    var x := Handle(s, w, m);
    HandleRouted(s, w, m);
    HandleLevels(s, w, m);
    HandleToldOnce(s, w, m);
    HandleEndsOnce(s, w, m);
    HandleTally(s, w, m);
    HandleChained(s, w, m);
    HandleTop(s, w, m);
    if x.nodes[m.to].height == END_BLOCK_HEIGHT {
      Stops(s, x);
    } else {
      MayGoOn(s, w, m);
      LaunchKeepsInv(s, x, body, time);
    }
  }

  lemma MayGoOn(s: Setting, w: World, m: NodeMsg)
    requires s.WellFormed() && Inv(s, w) && m in w.msgs && m.to in w.nodes && Over(s, w, m)
    requires Handle(s, w, m).nodes[m.to].height != END_BLOCK_HEIGHT
    ensures MayLaunch(s, Handle(s, w, m))
  {
    HandleRouted(s, w, m);
    HandleLevels(s, w, m);
    HandleToldOnce(s, w, m);
    HandleEndsOnce(s, w, m);
    HandleTally(s, w, m);
    HandleChained(s, w, m);
    HandleTop(s, w, m);
    assert Proper(s, m, Top(s, w));
    hide Receive, Proper, Routed, Levels, ToldOnce, EndsOnce, Tally, Voters, Need;
  }

  lemma Stops(s: Setting, x: World)
    requires Routed(s, x) && Levels(s, x) && ToldOnce(x) && EndsOnce(s, x) && Tally(s, x) && Chained(s, x)
    requires x.stops == 0 && LeaderCount(s, x).votes >= LeaderNeed(s) && Top(s, x) == END_BLOCK_HEIGHT
    ensures Inv(s, x.(stops := x.stops + 1))
  {
    hide Voters, EndedOnce, Proper, Need, Chain, Everyone, CommitFull;
    var y := x.(stops := x.stops + 1);
    VotersStay(s, x, y);
    EndsStay(s, x, y);
    assert Level(x.nodes[s.leader], Top(s, x));
    hide Level;
  }

  lemma EndsStay(s: Setting, w: World, x: World)
    requires EndsOnce(s, w)
    requires x.nodes == w.nodes && x.msgs == w.msgs && x.finals == w.finals && x.seen == w.seen
    ensures EndsOnce(s, x)
  {
    hide CommitFull;
    forall k: NodeMsg ensures EndedOnce(s, x, k) == EndedOnce(s, w, k) {}
  }

  lemma TaskKeepsInv(s: Setting, w: World, e: Event)
    requires s.WellFormed() && Inv(s, w) && (e.IntraTask? || e.GlobalTask?)
    ensures Inv(s, Step(s, w, e))
  {
    var x := Step(s, w, e);
    if x != w {
      TaskMsgs(s, w, e);
      hide *;
      VotesKeepInv(s, w, x);
    }
  }

  lemma VotesKeepInv(s: Setting, w: World, x: World)
    requires Inv(s, w) && AddsVotes(s, w, x)
    ensures Inv(s, x)
  {
    hide Routed, Levels, ToldOnce, EndsOnce, Tally, Stopping, Chained, AddsVotes;
    TaskRouted(s, w, x);
    TaskEnds(s, w, x);
    TaskLevels(s, w, x);
    assert x.nodes == w.nodes && x.finals == w.finals && x.blocks == w.blocks && x.stops == w.stops by {
      TaskKeeps(s, w, x);
    }
    CountsStay(s, w, x);
  }

  lemma TaskKeeps(s: Setting, w: World, x: World)
    requires AddsVotes(s, w, x)
    ensures x == w.(msgs := x.msgs, intraTasks := x.intraTasks, globalTasks := x.globalTasks)
  {
  }

  lemma TaskLevels(s: Setting, w: World, x: World)
    requires Levels(s, w) && ToldOnce(w) && AddsVotes(s, w, x)
    ensures Levels(s, x) && ToldOnce(x)
  {
    hide Level, Proper, Everyone;
  }

  /** What the leader has counted and built depends on its state, the delivered votes and the blocks alone. */
  lemma CountsStay(s: Setting, w: World, x: World)
    requires Tally(s, w) && Stopping(s, w) && Chained(s, w)
    requires x.nodes == w.nodes && x.finals == w.finals && x.blocks == w.blocks && x.stops == w.stops
    ensures Tally(s, x) && Stopping(s, x) && Chained(s, x)
  {
    hide Voters, Chain, Need;
    VotersStay(s, w, x);
  }

  lemma VotersStay(s: Setting, w: World, x: World)
    requires x.finals == w.finals
    ensures forall h :: Voters(s, x, h) == Voters(s, w, h)
  {
    forall h ensures Voters(s, x, h) == Voters(s, w, h) {}
  }

  lemma TaskEnds(s: Setting, w: World, x: World)
    requires EndsOnce(s, w) && AddsVotes(s, w, x)
    ensures EndsOnce(s, x)
  {
    hide CommitFull, Proper;
    forall k: NodeMsg | k.kind == Finality && k.from.shard != s.leader.shard && k.to == s.leader
      ensures EndedOnce(s, x, k)
    {
      assert EndedOnce(s, w, k) && x.msgs[k] == w.msgs[k];
    }
  }

  /** A goroutine that runs changes only the messages and the goroutines left: prepare votes are added. */
  ghost predicate AddsVotes(s: Setting, w: World, x: World) {
    && x == w.(msgs := x.msgs, intraTasks := x.intraTasks, globalTasks := x.globalTasks)
    && (forall m: NodeMsg | m.kind != Prepare :: x.msgs[m] == w.msgs[m])
    && (forall m | m in x.msgs && m !in w.msgs :: Proper(s, m, Top(s, w)))
    && (forall id | id in x.intraTasks + x.globalTasks :: id in w.intraTasks + w.globalTasks)
  }

  lemma TaskMsgs(s: Setting, w: World, e: Event)
    requires s.WellFormed() && Routed(s, w) && (e.IntraTask? || e.GlobalTask?) && Step(s, w, e) != w
    ensures AddsVotes(s, w, Step(s, w, e))
  {
    hide Proper, Everyone, Broadcast;
    assert e.node in w.intraTasks + w.globalTasks;
    var h := Top(s, w);
    LeaderVotes(s, h);
  }

  lemma LeaderVotes(s: Setting, h: nat)
    requires s.WellFormed() && h > 0
    ensures forall m | m in Broadcast(s.shards(s.leader.shard), Prepare, s.leader, h) :: Proper(s, m, h) && m.kind == Prepare
    ensures forall m | m in Broadcast(s.intraLeaders, Prepare, s.leader, h) :: Proper(s, m, h) && m.kind == Prepare
  {
    BroadcastProper(s, s.leader, s.leader, Prepare, h, h);
  }

  lemma TaskRouted(s: Setting, w: World, x: World)
    requires Routed(s, w) && AddsVotes(s, w, x)
    ensures Routed(s, x)
  {
    hide Proper, Everyone;
  }

  lemma StepKeepsInv(s: Setting, w: World, e: Event)
    requires s.WellFormed() && Inv(s, w)
    ensures Inv(s, Step(s, w, e))
  {
    match e
    case Begin(body, time) =>
      if !w.started {
        BeginMayLaunch(s, w);
        LaunchKeepsInv(s, w.(started := true), body, time);
      }
    case Deliver(m, body, time) => DeliverKeepsInv(s, w, m, body, time);
    case IntraTask(id) => TaskKeepsInv(s, w, e);
    case GlobalTask(id) => TaskKeepsInv(s, w, e);
  }

  lemma EmptyAtStart(s: Setting, w: World)
    requires Levels(s, w) && Tally(s, w) && Stopping(s, w) && Chained(s, w) && Top(s, w) == 0
    ensures w.stops == 0
  {
    assert Level(w.nodes[s.leader], Top(s, w));
    NeedIs(s.intraLeaders);
  }

  lemma BeginMayLaunch(s: Setting, w: World)
    requires s.WellFormed() && Inv(s, w) && !w.started
    ensures MayLaunch(s, w.(started := true))
  {
    hide Voters, EndsOnce, Proper, Need, Chain, Everyone, CommitFull, Level;
    var y := w.(started := true);
    NeedIs(s.intraLeaders);
    EmptyAtStart(s, w);
    CountsStay(s, w, y);
    EndsStay(s, w, y);
  }

  lemma {:induction false} RunKeepsInv(s: Setting, w: World, events: seq<Event>)
    requires s.WellFormed() && Inv(s, w)
    ensures Inv(s, Run(s, w, events))
    decreases |events|
  {
    if events != [] {
      StepKeepsInv(s, w, events[0]);
      RunKeepsInv(s, Step(s, w, events[0]), events[1..]);
    }
  }

  /**
    In every run, under any delivery order: the leader's blocks are numbered 1, 2, 3, ... up to at
    most the last height, each naming the hash of the one before; no message and no node is ever
    ahead of the leader; mining stops at most once, and only at the last height.
   */
  lemma RunsAreChains(s: Setting, events: seq<Event>)
    requires s.WellFormed()
    ensures var w := Run(s, Start(s), events);
      && s.leader in w.nodes
      && Chain(s, w.blocks)
      && w.nodes[s.leader].height == |w.blocks| <= END_BLOCK_HEIGHT
      && (forall id | id in w.nodes :: w.nodes[id].height <= |w.blocks|)
      && (forall m | m in w.msgs :: m.height <= |w.blocks|)
      && w.stops <= 1 && (w.stops == 1 ==> |w.blocks| == END_BLOCK_HEIGHT)
  {
    StartHasInv(s);
    RunKeepsInv(s, Start(s), events);
    InvIsChain(s, Run(s, Start(s), events));
  }

  lemma InvIsChain(s: Setting, w: World)
    requires Inv(s, w)
    ensures s.leader in w.nodes && Chain(s, w.blocks) && w.nodes[s.leader].height == |w.blocks| <= END_BLOCK_HEIGHT
    ensures forall id | id in w.nodes :: w.nodes[id].height <= |w.blocks|
    ensures forall m | m in w.msgs :: m.height <= |w.blocks|
    ensures w.stops <= 1 && (w.stops == 1 ==> |w.blocks| == END_BLOCK_HEIGHT)
  {
    forall id | id in w.nodes ensures w.nodes[id].height <= |w.blocks| {
      assert Level(w.nodes[id], Top(s, w));
    }
    forall m | m in w.msgs ensures m.height <= |w.blocks| {
      assert Proper(s, m, Top(s, w));
    }
    hide Voters, Chain, EndsOnce, Proper, Everyone;
  }

  /** One more step puts up at most one block, after those before, and never takes one back. */
  lemma BlocksOnlyGrow(s: Setting, w: World, e: Event)
    ensures var x := Step(s, w, e);
      |w.blocks| <= |x.blocks| <= |w.blocks| + 1 && x.blocks[..|w.blocks|] == w.blocks
  {
    hide Step;
    var more := AddsBlocks(s, w, e);
  }

  lemma AddsBlocks(s: Setting, w: World, e: Event) returns (more: seq<Block>)
    ensures |more| <= 1 && Step(s, w, e).blocks == w.blocks + more
  {
    hide Launched, Receive, LaunchMsgs, Over, NewBlock, Broadcast;
    var x := Step(s, w, e);
    if |x.blocks| == |w.blocks| {
      more := [];
    } else {
      more := [x.blocks[|x.blocks| - 1]];
    }
  }

  /** The block that is put up holds what there was to put up, and when. */
  lemma PutsUp(s: Setting, w: World, e: Event)
    ensures var x := Step(s, w, e);
      |x.blocks| > |w.blocks| ==>
        (e.Begin? || e.Deliver?) && x.blocks[|w.blocks|].body == e.body && x.blocks[|w.blocks|].timestamp == e.time
  {
    hide Launched, Receive, LaunchMsgs, Over, Broadcast;
  }

  /** The number of members that may be faulty, plus one. */
  function EnoughVoters(s: Setting): nat {
    |s.intraLeaders| / 3 + 1
  }

  /**
    The leader leaves height h, for the next one or to stop, only once that many distinct foreign
    intra-leaders have had their finality message for h delivered.
   */
  lemma LeavesWithQuorum(s: Setting, events: seq<Event>, e: Event)
    requires s.WellFormed()
    ensures var w := Run(s, Start(s), events);
      var x, h := Step(s, w, e), |w.blocks|;
      && (h > 0 && (|x.blocks| > h || x.stops > w.stops) ==> |Voters(s, x, h)| >= EnoughVoters(s))
      && Voters(s, x, h) <= s.intraLeaders - {s.leader}
  {
    StartHasInv(s);
    RunKeepsInv(s, Start(s), events);
    var w := Run(s, Start(s), events);
    StepKeepsInv(s, w, e);
    hide Run;
    VotersAreForeign(s, Step(s, w, e), |w.blocks|);
    LeavesHeight(s, w, e);
  }

  lemma LeavesHeight(s: Setting, w: World, e: Event)
    requires s.WellFormed() && Inv(s, w) && Inv(s, Step(s, w, e))
    ensures var x, h := Step(s, w, e), |w.blocks|;
      h > 0 && (|x.blocks| > h || x.stops > w.stops) ==> |Voters(s, x, h)| >= EnoughVoters(s)
  {
    var x, h := Step(s, w, e), |w.blocks|;
    NeedIs(s.intraLeaders);
    BlocksOnlyGrow(s, w, e);
    assert Level(x.nodes[s.leader], Top(s, x));
    hide Step, Voters, Need, EndsOnce, Routed, ToldOnce, Chain;
  }

  lemma VotersAreForeign(s: Setting, x: World, h: nat)
    requires s.WellFormed() && Inv(s, x)
    ensures Voters(s, x, h) <= s.intraLeaders - {s.leader}
  {
    forall v | v in Voters(s, x, h) ensures v in s.intraLeaders {
      assert Mark(v, h) in x.seen + x.finals;
    }
  }
}
