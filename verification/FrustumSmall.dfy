/** With one or three intra-leaders the votes never suffice: no run gets past the first block. */
module FrustumSmall {
  import opened Sequences
  import opened Quorums
  import opened Frustum
  import opened FrustumRuns
  import opened FrustumVotes
  import opened FrustumProgress
  import opened FrustumHang

  function Vote1(x: NodeId, y: NodeId): NodeMsg {
    NodeMsg(Prepare, x, y, 1)
  }

  /** How often x has still to send its prepare votes. */
  function ToSend(s: Setting, w: World, x: NodeId): nat {
    if x == s.leader then (if w.started then w.intraTasks[x] + w.globalTasks[x] else 1)
    else if x in w.nodes && w.nodes[x].height == 0 then 1 else 0
  }

  /** x votes to y once: it has still to, or the vote is on its way, or it has arrived. */
  predicate Once(s: Setting, w: World, x: NodeId, y: NodeId, r: set<NodeId>) {
    w.msgs[Vote1(x, y)] + ToSend(s, w, x) + (if x in r then 1 else 0) <= 1
  }

  /** What n votes, at most two, come to at most, b of them kept from before the round: each other brings those in again. */
  function Most(n: nat, b: nat): nat {
    if b >= n then 0 else if b == 0 then n else 2
  }

  /** What n votes of the first round may have come to. */
  predicate AtMost(c: Counter, n: nat) {
    var b := Of(c.buffer, 1);
    b <= n && if c.latest == 0 then c.votes <= 0 else c.latest == 1 && c.votes <= Most(n, b)
  }

  /** `r` are those whose votes have reached y. */
  ghost predicate Heard(s: Setting, w: World, y: NodeId, r: set<NodeId>) {
    && y in w.nodes && r <= s.intraLeaders - {y}
    && AtMost(w.nodes[y].prepare.global, |r|)
    && forall x | x in s.intraLeaders - {y} :: Once(s, w, x, y, r)
  }

  /** No commit vote crosses shards, and none was counted. */
  ghost predicate NoCommits(s: Setting, w: World) {
    && (forall m | m in w.msgs && m.kind == Commit :: m.from.shard == m.to.shard)
    && (forall a | a in Foreign(s) :: a in w.nodes && w.nodes[a].commit.global.votes <= 0)
    && (forall a | a in Foreign(s) && Mark(a, 1) in w.seen :: w.nodes[a].height == 1)
  }

  ghost predicate Small(s: Setting, w: World) {
    && |s.intraLeaders| == 3 && Inv(s, w) && |w.blocks| <= 1 && w.stops == 0 && NoCommits(s, w)
    && forall y | y in s.intraLeaders :: exists r :: Heard(s, w, y, r)
  }

  lemma ThreeNeed(s: Setting)
    requires |s.intraLeaders| == 3
    ensures Quota(s) == 3 && LeaderNeed(s) == 2 && Need(false, s.intraLeaders) == 3
  {
    NeedIs(s.intraLeaders);
  }

  /** Two votes never come to three. */
  lemma TwoAreFew(c: Counter, n: nat)
    requires AtMost(c, n) && n <= 2
    ensures c.votes <= 2
  {
  }

  lemma OthersAreTwo(s: Setting, y: NodeId, r: set<NodeId>)
    requires |s.intraLeaders| == 3 && y in s.intraLeaders && r <= s.intraLeaders - {y}
    ensures |r| <= 2
  {
    SubsetSize(r, s.intraLeaders - {y});
  }

  /** One more vote of the first round at a counter. */
  lemma CountOne(c: Counter, q: int, m: NodeMsg, n: nat)
    requires AtMost(c, n) && m.height == 1 && n <= 1 && q == 3 && c.latest <= 1
    ensures AtMost(Handled(c, q, m), n + 1) && !Completes(c, q, m)
  {
    OfSnoc(c.buffer, m, 1);
    hide Of;
  }

  lemma ResetCounts(c: Counter, n: nat)
    requires AtMost(c, n) && c.latest == 0
    ensures AtMost(Reset(c, 1), n)
  {
    KeptCount(c.buffer, 1, 1);
    hide Of, Kept;
  }

  lemma NotFullHere(s: Setting, w: World, v: NodeId)
    requires |s.intraLeaders| == 3 && NoCommits(s, w) && v in Foreign(s)
    ensures v in w.nodes && (Mark(v, 1) in w.seen ==> w.nodes[v].height == 1 && !CommitFull(s, w.nodes[v]))
  {
    ThreeNeed(s);
    hide Need, Quota;
  }

  /** Nobody ends the first round, so the leader stays in it. */
  lemma NobodyEnds(s: Setting, w: World, e: Event)
    requires s.WellFormed() && |s.intraLeaders| == 3 && Inv(s, w) && NoCommits(s, w) && |w.blocks| <= 1 && w.stops == 0
    ensures |Step(s, w, e).blocks| <= 1 && Step(s, w, e).stops == 0
    ensures |w.blocks| == 1 ==> Step(s, w, e).blocks == w.blocks
  {
    var x := Step(s, w, e);
    StepKeepsInv(s, w, e);
    InvIs(s, x);
    BlocksOnlyGrow(s, w, e);
    if |w.blocks| == 1 {
      VotersAreForeign(s, x, 1);
      forall v | v in Voters(s, x, 1) ensures false {
        NotFullHere(s, w, v);
        NotYetEnded(s, w, e, v);
      }
      assert Voters(s, x, 1) == {};
      hide Inv, NoCommits, Step, Voters;
      LeavesHeight(s, w, e);
      assert x.blocks[..|w.blocks|] == w.blocks;
    }
  }

  /** A message of the first round on its way, in terms of who sends what to whom. */
  ghost predicate First(s: Setting, w: World, m: NodeMsg) {
    && m in w.msgs && m.to in w.nodes && m.height == 1
    && (m.from.shard != m.to.shard ==> m.from in s.intraLeaders && m.to in s.intraLeaders)
    && (m.kind == PrePrepare ==> m.from == s.leader && m.to != s.leader && w.nodes[m.to].height == 0)
    && w.nodes[m.to].prepare.global.latest == w.nodes[m.to].height <= 1
  }

  lemma IsFirst(s: Setting, w: World, m: NodeMsg)
    requires Inv(s, w) && |w.blocks| <= 1 && m in w.msgs && m.to in w.nodes
    ensures First(s, w, m) && |w.blocks| == 1
  {
    InvIs(s, w);
    assert Proper(s, m, Top(s, w)) && Level(w.nodes[m.to], Top(s, w));
    assert m.kind == PrePrepare ==> w.msgs[m] + (if Mark(m.to, m.height) in w.seen then 1 else 0) <= 1;
    hide Proper, EndsOnce, Tally, Stopping, Chained, Everyone;
  }

  lemma OutIs(s: Setting, n: NodeState, m: NodeMsg, k: NodeMsg)
    requires k.kind == Prepare
    ensures var out := Receive(s, m.to, n, m).out;
      out[k] <= 1 && (k in out ==> m.kind == PrePrepare && k.from == m.to)
  {
    if m.kind == PrePrepare {
      ToldSendsPrepares(s, m.to, n, m, k);
    } else {
      OtherFirst(s, n, m);
    }
    hide Receive;
  }

  lemma HandleAny(s: Setting, w: World, m: NodeMsg)
    requires m in w.msgs && m.to in w.nodes
    ensures var x, r := Handle(s, w, m), Receive(s, m.to, w.nodes[m.to], m);
      && x.nodes == w.nodes[m.to := r.node] && x.msgs == w.msgs - multiset{m} + r.out
      && x.intraTasks == w.intraTasks && x.globalTasks == w.globalTasks && x.started == w.started
      && x.seen == (if m.kind == PrePrepare then w.seen + {Mark(m.to, m.height)} else w.seen)
      && r.node.height == if m.kind == PrePrepare then m.height else w.nodes[m.to].height
  {
    hide Need, Broadcast, Reset;
  }

  lemma OnceNext(s: Setting, w: World, m: NodeMsg, x: NodeId, y: NodeId, r: set<NodeId>, r': set<NodeId>)
    requires First(s, w, m) && Once(s, w, x, y, r)
    requires r' == if m.kind == Prepare && m.to == y && m.from.shard != y.shard then r + {m.from} else r
    requires x.shard != y.shard
    ensures Once(s, Handle(s, w, m), x, y, r')
  {
    var k := Vote1(x, y);
    HandleAny(s, w, m);
    OutIs(s, w.nodes[m.to], m, k);
    hide Receive, Handle;
  }

  /** What arrives at y's count. */
  lemma CountNext(s: Setting, w: World, m: NodeMsg, y: NodeId, r: set<NodeId>)
    requires s.WellFormed() && |s.intraLeaders| == 3 && y in s.intraLeaders && First(s, w, m) && Heard(s, w, y, r)
    ensures var r' := if m.kind == Prepare && m.to == y && m.from.shard != y.shard then r + {m.from} else r;
      && r' <= s.intraLeaders - {y} && AtMost(Handle(s, w, m).nodes[y].prepare.global, |r'|)
  {
    hide Receive, Handle, AtMost, Handled, Completes, Reset, Once;
    HandleAny(s, w, m);
    if m.to == y {
      if m.kind == Prepare && m.from.shard != y.shard {
        VoteCounts(s, w, m, r);
        PrepareCounts(s, w.nodes[y], m);
      } else if m.kind == PrePrepare {
        ResetCounts(w.nodes[y].prepare.global, |r|);
        PrePrepareCounts(s, w.nodes[y], m);
      } else {
        HandleFirst(s, w, m);
      }
    }
  }

  lemma PrepareCounts(s: Setting, n: NodeState, m: NodeMsg)
    requires |s.intraLeaders| == 3 && m.kind == Prepare && m.from.shard != m.to.shard
    ensures var r := Receive(s, m.to, n, m);
      && r.node.prepare.global == Handled(n.prepare.global, 3, m)
      && (!Completes(n.prepare.global, 3, m) ==> r.out == multiset{})
  {
    ThreeNeed(s);
    hide Handled, Completes, Need;
  }

  lemma PrePrepareCounts(s: Setting, n: NodeState, m: NodeMsg)
    requires m.kind == PrePrepare
    ensures var r := Receive(s, m.to, n, m);
      && r.node.prepare.global == Reset(n.prepare.global, m.height)
      && r.node.commit.global.votes == 0
  {
    hide Kept;
  }

  lemma HeardNext(s: Setting, w: World, m: NodeMsg, y: NodeId, r: set<NodeId>)
    requires s.WellFormed() && |s.intraLeaders| == 3 && y in s.intraLeaders && First(s, w, m) && Heard(s, w, y, r)
    ensures exists r' :: Heard(s, Handle(s, w, m), y, r')
  {
    var r' := if m.kind == Prepare && m.to == y && m.from.shard != y.shard then r + {m.from} else r;
    CountNext(s, w, m, y, r);
    HandleAny(s, w, m);
    hide Handle, AtMost, Once, First, Receive;
    forall x | x in s.intraLeaders - {y} ensures Once(s, Handle(s, w, m), x, y, r') {
      GroupIs(s, x, y);
      OnceNext(s, w, m, x, y, r, r');
    }
    assert Heard(s, Handle(s, w, m), y, r');
  }

  lemma NoCommitsNext(s: Setting, w: World, m: NodeMsg)
    requires s.WellFormed() && Small(s, w) && First(s, w, m)
    ensures NoCommits(s, Handle(s, w, m))
  {
    hide Small, Handle, NoCommits;
    OnlyShardCommits(s, w, m);
    NoneCounted(s, w, m);
    SeenAtOne(s, w, m);
    AreNoCommits(s, Handle(s, w, m));
  }

  lemma AreNoCommits(s: Setting, w: World)
    requires forall m | m in w.msgs && m.kind == Commit :: m.from.shard == m.to.shard
    requires forall a | a in Foreign(s) :: a in w.nodes && w.nodes[a].commit.global.votes <= 0
    requires forall a | a in Foreign(s) && Mark(a, 1) in w.seen :: w.nodes[a].height == 1
    ensures NoCommits(s, w)
  {
  }

  lemma OnlyShardCommits(s: Setting, w: World, m: NodeMsg)
    requires s.WellFormed() && Small(s, w) && First(s, w, m)
    ensures forall k | k in Handle(s, w, m).msgs && k.kind == Commit :: k.from.shard == k.to.shard
  {
    HandleAny(s, w, m);
    hide Inv, Handle, Receive, Heard, First;
    forall k | k in Handle(s, w, m).msgs && k.kind == Commit ensures k.from.shard == k.to.shard {
      if k in Receive(s, m.to, w.nodes[m.to], m).out {
        CommitsStay(s, w, m, k);
      }
    }
  }

  lemma NoneCounted(s: Setting, w: World, m: NodeMsg)
    requires Small(s, w) && First(s, w, m)
    ensures forall a | a in Foreign(s) :: a in Handle(s, w, m).nodes && Handle(s, w, m).nodes[a].commit.global.votes <= 0
  {
    HandleAny(s, w, m);
    if m.to in Foreign(s) {
      CommitCount(s, w, m);
    }
    hide Inv, Handle, Receive, Heard, First;
  }

  lemma SeenAtOne(s: Setting, w: World, m: NodeMsg)
    requires Small(s, w) && First(s, w, m)
    ensures forall a | a in Foreign(s) && Mark(a, 1) in Handle(s, w, m).seen ::
      a in Handle(s, w, m).nodes && Handle(s, w, m).nodes[a].height == 1
  {
    HandleAny(s, w, m);
    hide Inv, Handle, Receive, Heard;
  }

  /** A commit vote that is sent stays in its shard: a count among the intra-leaders does not get full. */
  lemma CommitsStay(s: Setting, w: World, m: NodeMsg, k: NodeMsg)
    requires s.WellFormed() && Small(s, w) && First(s, w, m)
    requires k in Receive(s, m.to, w.nodes[m.to], m).out && k.kind == Commit
    ensures k.from.shard == k.to.shard
  {
    hide Receive, Inv, Heard, NoCommits, Handled, Completes;
    var n := w.nodes[m.to];
    OutCommits(s, n, m, k);
    if m.from.shard != m.to.shard {
      var r :| Heard(s, w, m.to, r);
      VoteCounts(s, w, m, r);
      PrepareCounts(s, n, m);
    }
  }

  /** A prepare vote that arrives is a new one, and does not fill the count. */
  lemma VoteCounts(s: Setting, w: World, m: NodeMsg, r: set<NodeId>)
    requires s.WellFormed() && |s.intraLeaders| == 3 && First(s, w, m) && Heard(s, w, m.to, r)
    requires m.kind == Prepare && m.from.shard != m.to.shard
    ensures m.from !in r && r + {m.from} <= s.intraLeaders - {m.to}
    ensures var c := w.nodes[m.to].prepare.global;
      AtMost(Handled(c, 3, m), |r + {m.from}|) && !Completes(c, 3, m)
  {
    hide AtMost, Handled, Completes;
    assert Once(s, w, m.from, m.to, r) && m == Vote1(m.from, m.to);
    OthersAreTwo(s, m.to, r + {m.from});
    CountOne(w.nodes[m.to].prepare.global, 3, m, |r|);
  }

  lemma OutCommits(s: Setting, n: NodeState, m: NodeMsg, k: NodeMsg)
    requires s.WellFormed() && k in Receive(s, m.to, n, m).out && k.kind == Commit
    ensures m.kind == Prepare && k.from == m.to
    ensures m.from.shard == m.to.shard ==> k.to.shard == m.to.shard
  {
    hide Need, Completes, Handled;
  }

  lemma CommitCount(s: Setting, w: World, m: NodeMsg)
    requires NoCommits(s, w) && First(s, w, m) && m.to in Foreign(s)
    ensures Receive(s, m.to, w.nodes[m.to], m).node.commit.global.votes <= 0
  {
    if m.kind == PrePrepare {
      PrePrepareCounts(s, w.nodes[m.to], m);
    } else {
      HandleFirst(s, w, m);
    }
    hide Receive;
  }

  lemma DeliverSmall(s: Setting, w: World, m: NodeMsg, body: nat, time: nat)
    requires s.WellFormed() && Small(s, w) && m in w.msgs && m.to in w.nodes
    ensures Small(s, Step(s, w, Deliver(m, body, time)))
  {
    var e := Deliver(m, body, time);
    hide Inv, Heard, Step, NoCommits;
    IsFirst(s, w, m);
    NobodyEnds(s, w, e);
    StepKeepsInv(s, w, e);
    JustHandles(s, w, m, body, time);
    NoCommitsNext(s, w, m);
    forall y | y in s.intraLeaders ensures exists r :: Heard(s, Step(s, w, e), y, r) {
      var r :| Heard(s, w, y, r);
      HeardNext(s, w, m, y, r);
    }
  }

  lemma JustHandles(s: Setting, w: World, m: NodeMsg, body: nat, time: nat)
    requires m in w.msgs && m.to in w.nodes
    requires var x := Step(s, w, Deliver(m, body, time)); x.blocks == w.blocks && x.stops == w.stops
    ensures Step(s, w, Deliver(m, body, time)) == Handle(s, w, m)
  {
    hide Launched, Receive, LaunchMsgs, Over, NewBlock, Broadcast;
  }

  lemma TaskOnce(s: Setting, w: World, e: Event, x: NodeId, y: NodeId, r: set<NodeId>)
    requires s.WellFormed() && (e.IntraTask? || e.GlobalTask?) && Once(s, w, x, y, r)
    requires x in s.intraLeaders && y in s.intraLeaders && x != y && s.leader in w.nodes && w.started
    requires forall id | id in w.intraTasks + w.globalTasks :: id == s.leader
    ensures Once(s, Step(s, w, e), x, y, r)
  {
    var l := s.leader;
    var h := w.nodes[l].height;
    GroupIs(s, x, y);
    BroadcastIs(s.shards(l.shard), Prepare, l, h, Vote1(x, y));
    BroadcastIs(s.intraLeaders, Prepare, l, h, Vote1(x, y));
    hide Broadcast;
    assert e.node in w.intraTasks + w.globalTasks ==> e.node == l;
    if e.node == l {
      TaskRuns(s, w, e);
    } else {
      assert Step(s, w, e) == w;
    }
  }

  lemma TaskRuns(s: Setting, w: World, e: Event)
    requires (e.IntraTask? || e.GlobalTask?) && s.leader == e.node && e.node in w.nodes
    ensures var x, l, h := Step(s, w, e), s.leader, w.nodes[e.node].height;
      if e.IntraTask? && l in w.intraTasks then
        && x.msgs == w.msgs + Broadcast(s.shards(l.shard), Prepare, l, h) && x.nodes == w.nodes && x.started == w.started
        && x.intraTasks[l] == w.intraTasks[l] - 1 && x.globalTasks[l] == w.globalTasks[l] + 1
      else if e.GlobalTask? && l in w.globalTasks then
        && x.msgs == w.msgs + Broadcast(s.intraLeaders, Prepare, l, h) && x.nodes == w.nodes && x.started == w.started
        && x.intraTasks[l] == w.intraTasks[l] && x.globalTasks[l] == w.globalTasks[l] - 1
      else x == w
  {
    hide Broadcast;
  }

  lemma TaskSmall(s: Setting, w: World, e: Event)
    requires s.WellFormed() && Small(s, w) && (e.IntraTask? || e.GlobalTask?)
    ensures Small(s, Step(s, w, e))
  {
    hide Inv, Step, Heard, NoCommits;
    var x := Step(s, w, e);
    StepKeepsInv(s, w, e);
    NobodyEnds(s, w, e);
    TaskIs(s, w, e);
    InvTasks(s, w);
    if x != w {
      TaskNoCommits(s, w, x);
      forall y | y in s.intraLeaders ensures exists r :: Heard(s, x, y, r) {
        var r :| Heard(s, w, y, r);
        TaskHeard(s, w, e, y, r);
      }
    }
  }

  lemma TaskNoCommits(s: Setting, w: World, x: World)
    requires NoCommits(s, w) && x.nodes == w.nodes && x.seen == w.seen
    requires forall m | m in x.msgs && m.kind == Commit :: m in w.msgs
    ensures NoCommits(s, x)
  {
  }

  lemma TaskHeard(s: Setting, w: World, e: Event, y: NodeId, r: set<NodeId>)
    requires s.WellFormed() && (e.IntraTask? || e.GlobalTask?) && y in s.intraLeaders && Heard(s, w, y, r)
    requires s.leader in w.nodes && w.started && forall id | id in w.intraTasks + w.globalTasks :: id == s.leader
    requires Step(s, w, e).nodes == w.nodes
    ensures Heard(s, Step(s, w, e), y, r)
  {
    hide Step, Once, AtMost;
    forall z | z in s.intraLeaders - {y} ensures Once(s, Step(s, w, e), z, y, r) {
      TaskOnce(s, w, e, z, y, r);
    }
  }

  lemma InvTasks(s: Setting, w: World)
    requires Inv(s, w)
    ensures s.leader in w.nodes && forall id | id in w.intraTasks + w.globalTasks :: id == s.leader && w.started
  {
    InvIs(s, w);
  }

  lemma TaskIs(s: Setting, w: World, e: Event)
    requires e.IntraTask? || e.GlobalTask?
    ensures var x := Step(s, w, e);
      && x.nodes == w.nodes && x.seen == w.seen && x.started == w.started
      && (x == w || e.node in w.intraTasks + w.globalTasks)
      && (forall m | m in x.msgs && m.kind == Commit :: m in w.msgs)
  {
    hide Broadcast;
    if Step(s, w, e) != w {
      var id := e.node;
      var group := if e.IntraTask? then s.shards(id.shard) else s.intraLeaders;
      TaskSends(s, w, e, group);
      OnlyKind(group, id, w.nodes[id].height);
    }
  }

  lemma TaskSends(s: Setting, w: World, e: Event, group: set<NodeId>)
    requires (e.IntraTask? || e.GlobalTask?) && Step(s, w, e) != w
    requires group == if e.IntraTask? then s.shards(e.node.shard) else s.intraLeaders
    ensures e.node in w.nodes && Step(s, w, e).msgs == w.msgs + Broadcast(group, Prepare, e.node, w.nodes[e.node].height)
  {
    hide Broadcast;
  }

  lemma OnlyKind(members: set<NodeId>, from: NodeId, h: nat)
    ensures forall m | m in Broadcast(members, Prepare, from, h) :: m.kind == Prepare
  {
  }

  lemma BeginSmall(s: Setting, w: World, e: Event)
    requires s.WellFormed() && Small(s, w) && e.Begin?
    ensures Small(s, Step(s, w, e))
  {
    hide Inv, Step, Heard, NoCommits;
    StepKeepsInv(s, w, e);
    NobodyEnds(s, w, e);
    if w.started {
      BegunBefore(s, w, e);
    } else {
      NothingYet(s, w);
      BeginFacts(s, w, e);
      BeginNoCommits(s, w, e);
      hide Launched;
      forall y | y in s.intraLeaders ensures exists r :: Heard(s, Step(s, w, e), y, r) {
        var r :| Heard(s, w, y, r);
        BeginHeard(s, w, e, y, r);
      }
    }
  }

  lemma BegunBefore(s: Setting, w: World, e: Event)
    requires e.Begin? && w.started
    ensures Step(s, w, e) == w
  {
  }

  lemma BeginNoCommits(s: Setting, w: World, e: Event)
    requires NoCommits(s, w) && s.leader in w.nodes
    requires var x := Step(s, w, e);
      && s.leader in x.nodes && x.nodes == w.nodes[s.leader := x.nodes[s.leader]] && x.seen == w.seen
      && (forall m | m in x.msgs :: m.kind == PrePrepare)
    ensures NoCommits(s, Step(s, w, e))
  {
    hide Step;
  }

  lemma NothingYet(s: Setting, w: World)
    requires Inv(s, w) && !w.started
    ensures w.msgs == multiset{} && w.intraTasks == multiset{} && w.globalTasks == multiset{}
    ensures s.leader in w.nodes && w.nodes[s.leader].height == 0 && w.nodes[s.leader].prepare.global.latest == 0
  {
    InvIs(s, w);
    assert Top(s, w) == 0 && forall m | m in w.msgs :: 1 <= m.height <= 0 by {
      hide Levels, ToldOnce, EndsOnce, Tally, Stopping, Chained;
    }
    if m :| m in w.msgs {
      assert false;
    }
    assert Level(w.nodes[s.leader], Top(s, w));
    if id :| id in w.intraTasks + w.globalTasks {
      assert false;
    }
    assert w.intraTasks + w.globalTasks == multiset{};
  }

  lemma BeginFacts(s: Setting, w: World, e: Event)
    requires s.WellFormed() && e.Begin? && !w.started && w.msgs == multiset{} && w.intraTasks == multiset{} && w.globalTasks == multiset{}
    requires s.leader in w.nodes && w.nodes[s.leader].height == 0
    ensures var x, n := Step(s, w, e), w.nodes[s.leader];
      && x.nodes == w.nodes[s.leader := Launched(s, s.leader, n, e.body, e.time)]
      && x.nodes[s.leader].prepare.global == Reset(n.prepare.global, 1) && x.nodes[s.leader].height == 1
      && (forall m | m in x.msgs :: m.kind == PrePrepare)
      && x.intraTasks == multiset{s.leader} && x.globalTasks == multiset{} && x.started && x.seen == w.seen
  {
    assert multiset{} + multiset{s.leader} == multiset{s.leader};
    forall m | m in LaunchMsgs(s, s.leader, 1) ensures m.kind == PrePrepare {
      LaunchTells(s, 1, m);
    }
    hide LaunchMsgs, NewBlock, Kept;
  }

  lemma BeginHeard(s: Setting, w: World, e: Event, y: NodeId, r: set<NodeId>)
    requires s.WellFormed() && e.Begin? && !w.started && Heard(s, w, y, r)
    requires s.leader in w.nodes && w.nodes[s.leader].prepare.global.latest == 0
    requires var x := Step(s, w, e);
      && s.leader in x.nodes && x.nodes == w.nodes[s.leader := x.nodes[s.leader]]
      && x.nodes[s.leader].prepare.global == Reset(w.nodes[s.leader].prepare.global, 1)
      && (forall m | m in x.msgs :: m.kind == PrePrepare)
      && x.intraTasks == multiset{s.leader} && x.globalTasks == multiset{} && x.started
    ensures Heard(s, Step(s, w, e), y, r)
  {
    var x := Step(s, w, e);
    if y == s.leader {
      ResetCounts(w.nodes[y].prepare.global, |r|);
    }
    hide Step, AtMost;
    forall z | z in s.intraLeaders - {y} ensures Once(s, x, z, y, r) {
      assert Once(s, w, z, y, r);
    }
  }

  lemma StartSmall(s: Setting)
    requires s.WellFormed() && |s.intraLeaders| == 3
    ensures Small(s, Start(s))
  {
    StartHasInv(s);
    forall y | y in s.intraLeaders ensures exists r :: Heard(s, Start(s), y, r) {
      assert Of([], 1) == 0;
      assert Heard(s, Start(s), y, {});
    }
    hide Inv, Heard;
  }

  lemma {:induction false} StaysSmall(s: Setting, w: World, events: seq<Event>)
    requires s.WellFormed() && Small(s, w)
    ensures Small(s, Run(s, w, events))
    decreases |events|
  {
    if events != [] {
      hide Small, Step;
      var e := events[0];
      match e {
        case Begin(body, time) => BeginSmall(s, w, e);
        case Deliver(m, body, time) =>
          if m in w.msgs && m.to in w.nodes {
            DeliverSmall(s, w, m, body, time);
          } else {
            NothingDelivered(s, w, e);
          }
        case IntraTask(id) => TaskSmall(s, w, e);
        case GlobalTask(id) => TaskSmall(s, w, e);
      }
      StaysSmall(s, Step(s, w, e), events[1..]);
    }
  }

  lemma SmallIs(s: Setting, w: World)
    requires Small(s, w)
    ensures |w.blocks| <= 1 && w.stops == 0
  {
  }

  /** A leader alone among the intra-leaders has nobody to end its round. */
  lemma {:induction false} AloneStays(s: Setting, w: World, events: seq<Event>)
    requires s.WellFormed() && |s.intraLeaders| == 1 && Inv(s, w) && |w.blocks| <= 1 && w.stops == 0
    ensures |Run(s, w, events).blocks| <= 1 && Run(s, w, events).stops == 0
    decreases |events|
  {
    if events != [] {
      StepKeepsInv(s, w, events[0]);
      NobodyElse(s, w, events[0]);
      hide Inv, Step;
      AloneStays(s, Step(s, w, events[0]), events[1..]);
    }
  }

  lemma NobodyElse(s: Setting, w: World, e: Event)
    requires s.WellFormed() && |s.intraLeaders| == 1 && Inv(s, w) && |w.blocks| <= 1 && w.stops == 0 && Inv(s, Step(s, w, e))
    ensures |Step(s, w, e).blocks| <= 1 && Step(s, w, e).stops == 0
  {
    hide Inv, Step, Voters;
    var x := Step(s, w, e);
    InvIs(s, x);
    BlocksOnlyGrow(s, w, e);
    SubsetSize({s.leader}, s.intraLeaders);
    VotersAreForeign(s, x, 1);
    assert Voters(s, x, 1) == {};
    LeavesHeight(s, w, e);
  }

  /** Mining can be completed exactly with two intra-leaders, or with four or more. */
  lemma MiningCompletesIff(s: Setting)
    requires s.WellFormed()
    ensures (exists events :: |Run(s, Start(s), events).blocks| > 1) <==> CanMeet(s)
    ensures (exists events :: |Run(s, Start(s), events).blocks| == END_BLOCK_HEIGHT && Run(s, Start(s), events).stops == 1) <==> CanMeet(s)
  {
    if CanMeet(s) {
      var events := SomeRunCompletes(s);
    } else {
      SubsetSize({s.leader}, s.intraLeaders);
      forall events ensures |Run(s, Start(s), events).blocks| <= 1 {
        if |s.intraLeaders| == 1 {
          StartHasInv(s);
          AloneStays(s, Start(s), events);
        } else {
          StartSmall(s);
          StaysSmall(s, Start(s), events);
          SmallIs(s, Run(s, Start(s), events));
        }
      }
    }
  }
}
