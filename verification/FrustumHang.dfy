/** A round that cannot end any more: a member of a tight group got its prepare votes before it was told. */
module FrustumHang {
  import opened Sequences
  import opened Quorums
  import opened Frustum
  import opened FrustumRuns
  import opened FrustumProgress

  /** Groups in which every other member's vote is needed. */
  predicate Tight(s: Setting) {
    |s.intraLeaders| == 4 || |s.intraLeaders| == 6
  }

  function Quota(s: Setting): int {
    NeedOf(s, Prepare)
  }

  /** The member has sent its commit votes. */
  predicate Full(s: Setting, w: World, x: NodeId) {
    x in w.nodes && w.nodes[x].prepare.global.votes >= Quota(s)
  }

  function CommitTo(x: NodeId, a: NodeId): NodeMsg {
    NodeMsg(Commit, x, a, 1)
  }

  /** No prepare vote will reach c any more, and it has not counted enough. */
  ghost predicate Deaf(s: Setting, w: World, c: NodeId) {
    && c in w.nodes && w.nodes[c].prepare.global.votes < Quota(s)
    && forall m | m in w.msgs :: !(m.kind == Prepare && m.to == c)
  }

  /** Everybody was told of the first round, and the leader's prepare votes are out. */
  ghost predicate AllTold(s: Setting, w: World) {
    && (forall m | m in w.msgs :: m.kind != PrePrepare)
    && (forall id :: id !in w.intraTasks && id !in w.globalTasks)
    && (forall x | x in s.intraLeaders :: x in w.nodes && w.nodes[x].height == 1)
  }

  /** `d` are the members whose commit votes have reached a. */
  ghost predicate Reached(s: Setting, w: World, c: NodeId, a: NodeId, d: set<NodeId>) {
    && d <= s.intraLeaders - {a, c} && a in w.nodes
    && w.nodes[a].commit.global.votes <= |d| && w.nodes[a].commit.global.latest == 1 && w.nodes[a].commit.global.buffer == []
    && CommitTo(c, a) !in w.msgs
    && forall x | x in s.intraLeaders - {a, c} :: ReachedBy(s, w, x, a, d)
  }

  ghost predicate ReachedBy(s: Setting, w: World, x: NodeId, a: NodeId, d: set<NodeId>) {
    && w.msgs[CommitTo(x, a)] <= 1
    && (CommitTo(x, a) in w.msgs ==> Full(s, w, x) && x !in d)
    && (x in d ==> Full(s, w, x))
  }

  ghost predicate Hung(s: Setting, w: World, c: NodeId) {
    && Tight(s) && Inv(s, w) && |w.blocks| == 1 && w.stops == 0
    && c in Foreign(s) && Deaf(s, w, c) && AllTold(s, w)
    && forall a | a in Foreign(s) && a != c :: exists d :: Reached(s, w, c, a, d)
  }

  lemma QuotaIs(s: Setting)
    requires Tight(s)
    ensures Quota(s) == |s.intraLeaders| - 1 && LeaderNeed(s) >= 2 && Need(false, s.intraLeaders) == Quota(s)
  {
    NeedIs(s.intraLeaders);
  }

  /** Without c's vote, no other member's commit count gets full. */
  lemma NotFull(s: Setting, w: World, c: NodeId, a: NodeId)
    requires Hung(s, w, c) && a in Foreign(s) && a != c
    ensures a in w.nodes && !CommitFull(s, w.nodes[a]) && w.nodes[a].height == 1
  {
    hide Inv, Deaf;
    QuotaIs(s);
    var d :| Reached(s, w, c, a, d);
    SubsetSize(d, s.intraLeaders - {a, c});
    assert |s.intraLeaders - {a, c}| == |s.intraLeaders| - 2;
    hide Quota, Need;
  }

  /** So nobody but c ends the round, and the leader stays in it. */
  lemma OnlyOneEnds(s: Setting, w: World, c: NodeId, e: Event)
    requires s.WellFormed() && Hung(s, w, c)
    ensures Step(s, w, e).blocks == w.blocks && Step(s, w, e).stops == w.stops
  {
    var x := Step(s, w, e);
    StepKeepsInv(s, w, e);
    QuotaIs(s);
    VotersAreForeign(s, x, 1);
    forall v | v in Voters(s, x, 1) ensures v == c {
      if v != c {
        NotFull(s, w, c, v);
        NotYetEnded(s, w, e, v);
      }
    }
    SubsetSize(Voters(s, x, 1), {c});
    hide Inv, Deaf, Reached, Step, AllTold, Voters;
    LeavesHeight(s, w, e);
    NeedIs(s.intraLeaders);
    BlocksOnlyGrow(s, w, e);
    StopsOnlyGrow(s, w, e);
    assert x.blocks[..|w.blocks|] == w.blocks;
  }

  lemma StopsOnlyGrow(s: Setting, w: World, e: Event)
    ensures Step(s, w, e).stops >= w.stops
  {
    hide Launched, Receive, LaunchMsgs, Over, NewBlock, Broadcast;
  }

  lemma NotYetEnded(s: Setting, w: World, e: Event, v: NodeId)
    requires Routed(s, w) && EndsOnce(s, w) && v in w.nodes
    requires Mark(v, 1) in w.seen ==> w.nodes[v].height == 1 && !CommitFull(s, w.nodes[v])
    ensures v !in Voters(s, Step(s, w, e), 1)
  {
    var m := NodeMsg(Finality, v, s.leader, 1);
    hide Launched, Receive, LaunchMsgs, Over, NewBlock, Broadcast, CommitFull;
    if v.shard != s.leader.shard {
      assert EndedOnce(s, w, m);
      if e.Deliver? && e.msg in w.msgs {
        assert Proper(s, e.msg, Top(s, w));
      }
    }
  }

  /** What handling a message of the first round does to the counts among the intra-leaders. */
  lemma HandleFirst(s: Setting, w: World, m: NodeMsg)
    requires m in w.msgs && m.to in w.nodes && m.kind != PrePrepare
    ensures var x, y, r := Handle(s, w, m), m.to, Receive(s, m.to, w.nodes[m.to], m);
      && x.nodes == w.nodes[y := r.node] && x.msgs == w.msgs - multiset{m} + r.out
      && x.intraTasks == w.intraTasks && x.globalTasks == w.globalTasks
      && r.node.height == w.nodes[y].height
      && (m.kind != Prepare || m.from.shard == y.shard ==> r.node.prepare.global == w.nodes[y].prepare.global)
      && (m.kind != Commit || m.from.shard == y.shard ==> r.node.commit.global == w.nodes[y].commit.global)
  {
    hide Need, Broadcast, Handled, Completes;
  }

  /** A prepare vote from another shard: the count goes up, and all are told when it gets full. */
  lemma PrepareFirst(s: Setting, n: NodeState, m: NodeMsg)
    requires m.kind == Prepare && m.from.shard != m.to.shard && n.prepare.global.latest == m.height
    ensures var r, q := Receive(s, m.to, n, m), Quota(s);
      && r.node.prepare.global.votes >= n.prepare.global.votes
      && (forall k | k in r.out :: k.kind == Commit && k.from == m.to)
      && (forall k :: r.out[k] <= 1)
      && (r.out != multiset{} ==> n.prepare.global.votes < q <= r.node.prepare.global.votes)
  {
    hide Need;
  }

  lemma OtherFirst(s: Setting, n: NodeState, m: NodeMsg)
    requires m.kind != PrePrepare
    ensures var r := Receive(s, m.to, n, m);
      && (m.kind == Prepare && m.from.shard == m.to.shard ==> forall k | k in r.out :: k.kind == Commit && k.to in s.shards(m.to.shard))
      && (m.kind == Commit ==> forall k | k in r.out :: k.kind == Finality)
      && (m.kind == Finality ==> r.out == multiset{})
      && (forall k | k in r.out :: k.kind != Prepare && k.kind != PrePrepare)
  {
    hide Need, Handled, Completes;
  }

  lemma CommitFirst(s: Setting, n: NodeState, m: NodeMsg)
    requires m.kind == Commit && m.from.shard != m.to.shard
    requires n.commit.global.latest == 1 && n.commit.global.buffer == [] && m.height == 1
    ensures var g := Receive(s, m.to, n, m).node.commit.global;
      g.votes <= n.commit.global.votes + 1 && g.latest == 1 && g.buffer == []
  {
    hide Need;
    assert Of([], 1) == 0;
  }

  /** A message of the first round, and the node it reaches. */
  ghost predicate FirstRound(s: Setting, w: World, m: NodeMsg) {
    && m in w.msgs && m.to in w.nodes && m.kind != PrePrepare && m.height == 1
    && (if m.from.shard == m.to.shard then m.to.shard == s.leader.shard
        else m.from in s.intraLeaders && m.to in s.intraLeaders && m.from != m.to)
    && (m.to in s.intraLeaders ==> w.nodes[m.to].prepare.global.latest == 1)
  }

  lemma IsFirstRound(s: Setting, w: World, m: NodeMsg)
    requires Inv(s, w) && |w.blocks| == 1 && AllTold(s, w) && m in w.msgs && m.to in w.nodes
    ensures FirstRound(s, w, m)
  {
    InvIs(s, w);
    assert Proper(s, m, Top(s, w)) && Level(w.nodes[m.to], Top(s, w));
    hide Inv;
  }

  /** A commit vote for a foreign intra-leader comes from one whose prepare count has just got full. */
  lemma NewCommit(s: Setting, w: World, m: NodeMsg, k: NodeMsg)
    requires s.WellFormed() && FirstRound(s, w, m)
    requires k.kind == Commit && k.to in Foreign(s) && k in Receive(s, m.to, w.nodes[m.to], m).out
    ensures m.kind == Prepare && k.from == m.to && Receive(s, m.to, w.nodes[m.to], m).out[k] == 1
    ensures !Full(s, w, m.to) && Full(s, Handle(s, w, m), m.to)
  {
    HandleFirst(s, w, m);
    OtherFirst(s, w.nodes[m.to], m);
    if m.kind == Prepare && m.from.shard != m.to.shard {
      PrepareFirst(s, w.nodes[m.to], m);
    }
    hide Receive, Quota;
  }

  lemma FullStays(s: Setting, w: World, m: NodeMsg, x: NodeId)
    requires FirstRound(s, w, m) && Full(s, w, x)
    ensures Full(s, Handle(s, w, m), x)
  {
    HandleFirst(s, w, m);
    if m.kind == Prepare && m.from.shard != m.to.shard {
      PrepareFirst(s, w.nodes[m.to], m);
    }
    hide Receive, Quota;
  }

  lemma ReachedByNext(s: Setting, w: World, m: NodeMsg, x: NodeId, a: NodeId, d: set<NodeId>, d': set<NodeId>)
    requires s.WellFormed() && FirstRound(s, w, m) && a in Foreign(s) && ReachedBy(s, w, x, a, d)
    requires d' == if m.kind == Commit && m.to == a then d + {m.from} else d
    ensures ReachedBy(s, Handle(s, w, m), x, a, d')
  {
    var k, out := CommitTo(x, a), Receive(s, m.to, w.nodes[m.to], m).out;
    HandleFirst(s, w, m);
    if Full(s, w, x) {
      FullStays(s, w, m, x);
    }
    if k in out {
      NewCommit(s, w, m, k);
    }
    hide Receive, Full, Handle;
  }

  lemma NoCommitOfC(s: Setting, w: World, m: NodeMsg, c: NodeId, a: NodeId)
    requires s.WellFormed() && FirstRound(s, w, m) && a in Foreign(s) && Deaf(s, w, c) && CommitTo(c, a) !in w.msgs
    ensures CommitTo(c, a) !in Handle(s, w, m).msgs
  {
    var k := CommitTo(c, a);
    HandleFirst(s, w, m);
    if k in Receive(s, m.to, w.nodes[m.to], m).out {
      NewCommit(s, w, m, k);
    }
    hide Receive, Full;
  }

  lemma ReachedCount(s: Setting, w: World, m: NodeMsg, c: NodeId, a: NodeId, d: set<NodeId>)
    requires s.WellFormed() && FirstRound(s, w, m) && a in Foreign(s) && c in Foreign(s) && Reached(s, w, c, a, d)
    ensures var d', x := if m.kind == Commit && m.to == a then d + {m.from} else d, Handle(s, w, m);
      && d' <= s.intraLeaders - {a, c} && a in x.nodes
      && x.nodes[a].commit.global.votes <= |d'|
      && x.nodes[a].commit.global.latest == 1 && x.nodes[a].commit.global.buffer == []
  {
    HandleFirst(s, w, m);
    if m.kind == Commit && m.to == a {
      assert m == CommitTo(m.from, a);
      CommitFirst(s, w.nodes[a], m);
      assert m.from in s.intraLeaders - {a, c} && ReachedBy(s, w, m.from, a, d);
    }
    hide Receive, Full, Handle;
  }

  lemma ReachedNext(s: Setting, w: World, m: NodeMsg, c: NodeId, a: NodeId, d: set<NodeId>)
    requires s.WellFormed() && FirstRound(s, w, m) && a in Foreign(s) && c in Foreign(s) && Deaf(s, w, c)
    requires Reached(s, w, c, a, d)
    ensures exists d' :: Reached(s, Handle(s, w, m), c, a, d')
  {
    var d' := if m.kind == Commit && m.to == a then d + {m.from} else d;
    ReachedCount(s, w, m, c, a, d);
    NoCommitOfC(s, w, m, c, a);
    hide Handle, ReachedBy, Deaf, FirstRound;
    forall x | x in s.intraLeaders - {a, c} ensures ReachedBy(s, Handle(s, w, m), x, a, d') {
      ReachedByNext(s, w, m, x, a, d, d');
    }
    assert Reached(s, Handle(s, w, m), c, a, d');
  }

  lemma DeafNext(s: Setting, w: World, m: NodeMsg, c: NodeId)
    requires FirstRound(s, w, m) && Deaf(s, w, c) && AllTold(s, w)
    ensures Deaf(s, Handle(s, w, m), c) && AllTold(s, Handle(s, w, m))
  {
    HandleFirst(s, w, m);
    OtherFirst(s, w.nodes[m.to], m);
    hide Receive, Quota, Handle;
  }

  lemma StaysHung(s: Setting, w: World, c: NodeId, e: Event)
    requires s.WellFormed() && Hung(s, w, c)
    ensures Hung(s, Step(s, w, e), c)
  {
    OnlyOneEnds(s, w, c, e);
    StepKeepsInv(s, w, e);
    InvIs(s, w);
    hide Inv, Deaf, Reached, Step;
    OnlyHandles(s, w, e);
    if e.Deliver? && e.msg in w.msgs && e.msg.to in w.nodes {
      IsFirstRound(s, w, e.msg);
      DeafNext(s, w, e.msg, c);
      forall a | a in Foreign(s) && a != c ensures exists d :: Reached(s, Step(s, w, e), c, a, d) {
        var d :| Reached(s, w, c, a, d);
        ReachedNext(s, w, e.msg, c, a, d);
      }
    }
  }

  lemma OnlyHandles(s: Setting, w: World, e: Event)
    requires w.started && AllTold(s, w) && Step(s, w, e).blocks == w.blocks && Step(s, w, e).stops == w.stops
    ensures Step(s, w, e) == if e.Deliver? && e.msg in w.msgs && e.msg.to in w.nodes then Handle(s, w, e.msg) else w
  {
    hide Launched, Receive, LaunchMsgs, Over, NewBlock, Broadcast;
  }

  /** Whatever happens from there, the leader never gets to its second block. */
  lemma {:induction false} HangsForever(s: Setting, w: World, c: NodeId, events: seq<Event>)
    requires s.WellFormed() && Hung(s, w, c)
    ensures |Run(s, w, events).blocks| == 1 && Run(s, w, events).stops == 0
    decreases |events|
  {
    hide Step;
    if events != [] {
      StaysHung(s, w, c, events[0]);
      hide Hung;
      HangsForever(s, Step(s, w, events[0]), c, events[1..]);
    }
  }
}
