/** Rounds can end: from every block put up there is a delivery that leads to the next one. */
module FrustumProgress {
  import opened Quorums
  import opened Frustum
  import opened FrustumRuns

  /** Groups in which the others' votes can meet both thresholds. */
  predicate CanMeet(s: Setting) {
    |s.intraLeaders| == 2 || |s.intraLeaders| >= 4
  }

  function NeedOf(s: Setting, k: Kind): int {
    Need(k == Finality, s.intraLeaders)
  }

  /** The others are enough. */
  lemma OthersAreEnough(s: Setting, y: NodeId)
    requires CanMeet(s) && y in s.intraLeaders
    ensures |s.intraLeaders - {y}| >= NeedOf(s, Prepare) >= 1
    ensures NeedOf(s, Commit) == NeedOf(s, Prepare)
    ensures |s.intraLeaders - {y}| >= NeedOf(s, Finality) >= 1
  {
    NeedIs(s.intraLeaders);
    assert |s.intraLeaders - {y}| == |s.intraLeaders| - 1;
  }

  function CounterOf(n: NodeState, k: Kind): Counter {
    match k
    case Prepare => n.prepare.global
    case Commit => n.commit.global
    case _ => n.finality.global
  }

  function WithVotes(n: NodeState, k: Kind, v: int): NodeState {
    match k
    case Prepare => n.(prepare := n.prepare.(global := n.prepare.global.(votes := v)))
    case Commit => n.(commit := n.commit.(global := n.commit.global.(votes := v)))
    case _ => n.(finality := n.finality.(global := n.finality.global.(votes := v)))
  }

  predicate Clean(c: Counter, h: nat, v: int) {
    c.latest == h && c.votes == v && c.buffer == []
  }

  /** Messages of this kind and height from everyone in `xs` are on their way to y. */
  predicate Under(w: World, k: Kind, xs: set<NodeId>, y: NodeId, h: nat) {
    forall x | x in xs :: NodeMsg(k, x, y, h) in w.msgs
  }

  /** Only y changed, and only its messages of one kind were taken. */
  ghost predicate Quiet(w: World, w': World, y: NodeId, k: Kind) {
    && w'.nodes.Keys == w.nodes.Keys
    && (forall id | id in w.nodes && id != y :: w'.nodes[id] == w.nodes[id])
    && w'.intraTasks == w.intraTasks && w'.globalTasks == w.globalTasks
    && w'.blocks == w.blocks && w'.stops == w.stops
    && (forall m: NodeMsg | m in w.msgs && !(m.to == y && m.kind == k) :: m in w'.msgs)
  }

  lemma QuietTwice(w: World, x: World, w': World, y: NodeId, k: Kind)
    requires Quiet(w, x, y, k) && Quiet(x, w', y, k)
    ensures Quiet(w, w', y, k)
  {
  }

  lemma {:induction false} RunAppend(s: Setting, w: World, a: seq<Event>, b: seq<Event>)
    ensures Run(s, w, a + b) == Run(s, Run(s, w, a), b)
    decreases |a|
  {
    if a == [] {
      assert a + b == b;
    } else {
      assert (a + b)[0] == a[0] && (a + b)[1..] == a[1..] + b;
      RunAppend(s, Step(s, w, a[0]), a[1..], b);
    }
  }

  lemma RunFirst(s: Setting, w: World, e: Event, b: seq<Event>)
    ensures Run(s, w, [e] + b) == Run(s, Step(s, w, e), b)
  {
    assert ([e] + b)[0] == e && ([e] + b)[1..] == b;
  }

  lemma RunNothing(s: Setting, w: World)
    ensures Run(s, w, []) == w
  {
  }

  /** Two intra-leaders are of different shards, so they count each other among the intra-leaders. */
  lemma GroupIs(s: Setting, x: NodeId, y: NodeId)
    requires s.WellFormed() && x in s.intraLeaders && y in s.intraLeaders && x != y
    ensures x.shard != y.shard && s.Group(y, x) == s.intraLeaders
  {
  }

  /** What the vote that completes a count sends to z. */
  predicate Sends(s: Setting, k: Kind, y: NodeId, z: NodeId, a: NodeMsg, h: nat) {
    match k
    case Prepare => z in s.intraLeaders && z != y && a == NodeMsg(Commit, y, z, h)
    case Commit => y != s.leader && z == s.leader && a == NodeMsg(Finality, y, z, h)
    case _ => false
  }

  /** All that is sent by a completed count of y is under way. */
  ghost predicate Sent(s: Setting, w: World, k: Kind, y: NodeId, h: nat) {
    forall z, a | Sends(s, k, y, z, a, h) :: a in w.msgs
  }

  lemma ReceiveVote(s: Setting, n: NodeState, k: Kind, x: NodeId, y: NodeId, h: nat, v: int)
    requires s.WellFormed() && x in s.intraLeaders && y in s.intraLeaders && x != y
    requires k != PrePrepare && n.height == h && Clean(CounterOf(n, k), h, v) && v < NeedOf(s, k)
    ensures var r := Receive(s, y, n, NodeMsg(k, x, y, h));
      && r.node == WithVotes(n, k, v + 1)
      && (r.over <==> k == Finality && v + 1 == NeedOf(s, k))
      && (v + 1 == NeedOf(s, k) ==> forall z, a | Sends(s, k, y, z, a, h) :: a in r.out)
  {
    GroupIs(s, x, y);
    hide Need;
    assert Of([], h) == 0;
  }

  lemma DeliverIs(s: Setting, w: World, m: NodeMsg)
    requires m in w.msgs && m.to in w.nodes && !Receive(s, m.to, w.nodes[m.to], m).over
    ensures var w', r := Step(s, w, Deliver(m, 0, 0)), Receive(s, m.to, w.nodes[m.to], m);
      && Quiet(w, w', m.to, m.kind)
      && w'.nodes[m.to] == r.node
      && (forall k: NodeMsg | k != m && k in w.msgs :: k in w'.msgs)
      && (forall k | k in r.out :: k in w'.msgs)
  {
    hide Receive;
  }

  /** One vote delivered, unless it ends the leader's round. */
  lemma DeliverOne(s: Setting, w: World, k: Kind, x: NodeId, y: NodeId, h: nat, v: int)
    requires s.WellFormed() && x in s.intraLeaders && y in s.intraLeaders && x != y && y in w.nodes
    requires k != PrePrepare && w.nodes[y].height == h && Clean(CounterOf(w.nodes[y], k), h, v) && v < NeedOf(s, k)
    requires k == Finality ==> v + 1 < NeedOf(s, k)
    requires NodeMsg(k, x, y, h) in w.msgs
    ensures var w' := Step(s, w, Deliver(NodeMsg(k, x, y, h), 0, 0));
      && Quiet(w, w', y, k)
      && w'.nodes[y] == WithVotes(w.nodes[y], k, v + 1)
      && (forall z | z != x && NodeMsg(k, z, y, h) in w.msgs :: NodeMsg(k, z, y, h) in w'.msgs)
      && (v + 1 == NeedOf(s, k) ==> Sent(s, w', k, y, h))
  {
    hide Step, Receive, NeedOf, WithVotes, CounterOf, Clean, Quiet, Sends;
    ReceiveVote(s, w.nodes[y], k, x, y, h, v);
    DeliverIs(s, w, NodeMsg(k, x, y, h));
  }

  /** Votes delivered until the count is one short of `goal`, or there. */
  lemma {:induction false} Feed(s: Setting, w: World, k: Kind, y: NodeId, h: nat, v: int, goal: int, xs: set<NodeId>)
    returns (events: seq<Event>, left: set<NodeId>)
    requires s.WellFormed() && y in s.intraLeaders && y in w.nodes && xs <= s.intraLeaders - {y}
    requires k != PrePrepare && w.nodes[y].height == h && Clean(CounterOf(w.nodes[y], k), h, v)
    requires 0 <= v <= goal <= NeedOf(s, k) && (k == Finality ==> goal < NeedOf(s, k)) && (v == goal ==> v < NeedOf(s, k))
    requires |xs| >= goal - v && Under(w, k, xs, y, h)
    ensures var w' := Run(s, w, events);
      && Quiet(w, w', y, k) && w'.nodes[y] == WithVotes(w.nodes[y], k, goal)
      && left <= xs && |left| >= |xs| - (goal - v) && Under(w', k, left, y, h)
      && (goal == NeedOf(s, k) ==> Sent(s, w', k, y, h))
    decreases goal - v
  {
    if v == goal {
      events, left := [], xs;
      RunNothing(s, w);
      SameVotes(w.nodes[y], k, h, v);
    } else {
      var x :| x in xs;
      DeliverOne(s, w, k, x, y, h, v);
      hide *;
      var e := Deliver(NodeMsg(k, x, y, h), 0, 0);
      var w1 := Step(s, w, e);
      NextVotes(w.nodes[y], k, h, v);
      FewerUnder(w, w1, k, xs, x, y, h);
      if v + 1 == goal {
        events, left := [e] + [], xs - {x};
        RunFirst(s, w, e, []);
        RunNothing(s, w1);
      } else {
        events, left := Feed(s, w1, k, y, h, v + 1, goal, xs - {x});
        RunFirst(s, w, e, events);
        TwiceVotes(w.nodes[y], k, v + 1, goal);
        QuietTwice(w, w1, Run(s, w1, events), y, k);
        events := [e] + events;
      }
    }
  }

  lemma SameVotes(n: NodeState, k: Kind, h: nat, v: int)
    requires Clean(CounterOf(n, k), h, v) && k != PrePrepare
    ensures WithVotes(n, k, v) == n
  {
  }

  lemma NextVotes(n: NodeState, k: Kind, h: nat, v: int)
    requires Clean(CounterOf(n, k), h, v) && k != PrePrepare
    ensures Clean(CounterOf(WithVotes(n, k, v + 1), k), h, v + 1) && WithVotes(n, k, v + 1).height == n.height
  {
  }

  lemma TwiceVotes(n: NodeState, k: Kind, v: int, u: int)
    ensures WithVotes(WithVotes(n, k, v), k, u) == WithVotes(n, k, u)
  {
  }

  lemma FewerUnder(w: World, w': World, k: Kind, xs: set<NodeId>, x: NodeId, y: NodeId, h: nat)
    requires x in xs && Under(w, k, xs, y, h)
    requires forall z | z != x && NodeMsg(k, z, y, h) in w.msgs :: NodeMsg(k, z, y, h) in w'.msgs
    ensures Under(w', k, xs - {x}, y, h) && |xs - {x}| == |xs| - 1
  {
  }

  /** Only nodes in `ys` changed, and only their messages of one kind were taken. */
  ghost predicate Calm(w: World, w': World, ys: set<NodeId>, k: Kind) {
    && w'.nodes.Keys == w.nodes.Keys
    && (forall id | id in w.nodes && id !in ys :: w'.nodes[id] == w.nodes[id])
    && w'.intraTasks == w.intraTasks && w'.globalTasks == w.globalTasks
    && w'.blocks == w.blocks && w'.stops == w.stops
    && (forall m: NodeMsg | m in w.msgs && !(m.to in ys && m.kind == k) :: m in w'.msgs)
  }

  lemma CalmNext(w: World, x: World, w': World, y: NodeId, ys: set<NodeId>, k: Kind)
    requires Quiet(w, x, y, k) && Calm(x, w', ys, k) && y !in ys
    ensures Calm(w, w', ys + {y}, k) && (y in w.nodes ==> w'.nodes[y] == x.nodes[y])
    ensures forall z | z in ys && z in w.nodes :: x.nodes[z] == w.nodes[z]
  {
  }

  /** These nodes are at height h with nothing counted, and every other intra-leader's vote on its way. */
  ghost predicate Ready(s: Setting, w: World, k: Kind, ys: set<NodeId>, h: nat) {
    forall y | y in ys :: ReadyOne(s, w, k, y, h)
  }

  ghost predicate ReadyOne(s: Setting, w: World, k: Kind, y: NodeId, h: nat) {
    && y in w.nodes && w.nodes[y].height == h && Clean(CounterOf(w.nodes[y], k), h, 0)
    && Under(w, k, s.intraLeaders - {y}, y, h)
  }

  ghost predicate Counted(s: Setting, w: World, w': World, k: Kind, ys: set<NodeId>, h: nat) {
    forall y | y in ys ::
      y in w.nodes && y in w'.nodes && w'.nodes[y] == WithVotes(w.nodes[y], k, NeedOf(s, k)) && Sent(s, w', k, y, h)
  }

  lemma StillReady(s: Setting, w: World, x: World, k: Kind, y: NodeId, ys: set<NodeId>, h: nat)
    requires Ready(s, w, k, ys, h) && Quiet(w, x, y, k) && y !in ys
    ensures Ready(s, x, k, ys, h)
  {
    forall z | z in ys ensures ReadyOne(s, x, k, z, h) {
      assert ReadyOne(s, w, k, z, h);
    }
  }

  lemma StillSent(s: Setting, x: World, w': World, k: Kind, y: NodeId, ys: set<NodeId>, h: nat)
    requires Sent(s, x, k, y, h) && Calm(x, w', ys, k) && (k == Prepare || k == Commit)
    ensures Sent(s, w', k, y, h)
  {
    forall z, a | Sends(s, k, y, z, a, h) ensures a in w'.msgs {
      assert a in x.msgs;
    }
  }

  /** All of them get the votes they need, and send what a completed count sends. */
  lemma {:induction false} FeedAll(s: Setting, w: World, k: Kind, ys: set<NodeId>, h: nat) returns (events: seq<Event>)
    requires s.WellFormed() && CanMeet(s) && ys <= s.intraLeaders && (k == Prepare || k == Commit)
    requires Ready(s, w, k, ys, h)
    ensures var w' := Run(s, w, events); Calm(w, w', ys, k) && Counted(s, w, w', k, ys, h)
    decreases ys
  {
    if ys == {} {
      events := [];
      RunNothing(s, w);
    } else {
      var y :| y in ys;
      OthersAreEnough(s, y);
      assert ReadyOne(s, w, k, y, h);
      var first, left := Feed(s, w, k, y, h, 0, NeedOf(s, k), s.intraLeaders - {y});
      var x := Run(s, w, first);
      hide *;
      OthersReady(s, w, x, k, y, ys, h);
      var rest := FeedAll(s, x, k, ys - {y}, h);
      events := first + rest;
      RunAppend(s, w, first, rest);
      AllCounted(s, w, x, Run(s, x, rest), k, y, ys, h);
    }
  }

  lemma OthersReady(s: Setting, w: World, x: World, k: Kind, y: NodeId, ys: set<NodeId>, h: nat)
    requires Ready(s, w, k, ys, h) && Quiet(w, x, y, k) && y in ys && ys <= s.intraLeaders
    ensures Ready(s, x, k, ys - {y}, h) && ys - {y} <= s.intraLeaders && ys - {y} < ys
  {
    hide ReadyOne, Quiet;
    assert Ready(s, w, k, ys - {y}, h);
    StillReady(s, w, x, k, y, ys - {y}, h);
  }

  lemma AllCounted(s: Setting, w: World, x: World, w': World, k: Kind, y: NodeId, ys: set<NodeId>, h: nat)
    requires y in ys && y in w.nodes && (k == Prepare || k == Commit)
    requires Quiet(w, x, y, k) && x.nodes[y] == WithVotes(w.nodes[y], k, NeedOf(s, k)) && Sent(s, x, k, y, h)
    requires Calm(x, w', ys - {y}, k) && Counted(s, x, w', k, ys - {y}, h)
    ensures Calm(w, w', ys, k) && Counted(s, w, w', k, ys, h)
  {
    assert ys - {y} + {y} == ys;
    CalmNext(w, x, w', y, ys - {y}, k);
    StillSent(s, x, w', k, y, ys - {y}, h);
    hide Calm, Sent, NeedOf, WithVotes;
  }

  predicate Below(buffer: seq<NodeMsg>, h: nat) {
    forall m | m in buffer :: m.height < h
  }

  lemma {:induction false} NothingKept(buffer: seq<NodeMsg>, h: nat)
    requires Below(buffer, h)
    ensures Kept(buffer, h) == []
  {
    if buffer != [] {
      NothingKept(buffer[..|buffer| - 1], h);
    }
  }

  /** No vote for height h has been kept for later. */
  predicate NoneEarly(n: NodeState, h: nat) {
    Below(n.prepare.global.buffer, h) && Below(n.commit.global.buffer, h) && Below(n.finality.global.buffer, h)
  }

  /** A node told of height h that has counted nothing yet. */
  predicate Told(n: NodeState, h: nat) {
    n.height == h && Clean(n.prepare.global, h, 0) && Clean(n.commit.global, h, 0)
  }

  /** An intra-leader is told: it starts afresh and sends its prepare votes. */
  lemma Tell(s: Setting, w: World, x: NodeId, h: nat)
    requires s.WellFormed() && x in s.intraLeaders && x != s.leader && x in w.nodes && NoneEarly(w.nodes[x], h)
    requires NodeMsg(PrePrepare, s.leader, x, h) in w.msgs
    ensures var w' := Step(s, w, Deliver(NodeMsg(PrePrepare, s.leader, x, h), 0, 0));
      Quiet(w, w', x, PrePrepare) && Told(w'.nodes[x], h) && SentPrepares(s, w', x, h)
  {
    var m, n := NodeMsg(PrePrepare, s.leader, x, h), w.nodes[x];
    GroupIs(s, s.leader, x);
    ReceiveTold(s, n, m);
    hide Receive, NoneEarly, Told;
    DeliverIs(s, w, m);
  }

  lemma ReceiveTold(s: Setting, n: NodeState, m: NodeMsg)
    requires m.kind == PrePrepare && NoneEarly(n, m.height)
    ensures var r := Receive(s, m.to, n, m);
      Told(r.node, m.height) && !r.over
      && forall z | z in s.Group(m.to, m.from) && z != m.to :: NodeMsg(Prepare, m.to, z, m.height) in r.out
  {
    NothingKept(n.prepare.global.buffer, m.height);
    NothingKept(n.commit.global.buffer, m.height);
    hide Kept, Below;
  }

  /** x's prepare votes for height h are on their way to all other intra-leaders. */
  ghost predicate SentPrepares(s: Setting, w: World, x: NodeId, h: nat) {
    forall z | z in s.intraLeaders && z != x :: NodeMsg(Prepare, x, z, h) in w.msgs
  }

  ghost predicate ToBeTold(s: Setting, w: World, x: NodeId, h: nat) {
    x in w.nodes && NoneEarly(w.nodes[x], h) && NodeMsg(PrePrepare, s.leader, x, h) in w.msgs
  }

  ghost predicate Informed(s: Setting, w: World, x: NodeId, h: nat) {
    x in w.nodes && Told(w.nodes[x], h) && SentPrepares(s, w, x, h)
  }

  lemma OthersToBeTold(s: Setting, w: World, x: World, y: NodeId, ys: set<NodeId>, h: nat)
    requires y in ys && (forall z | z in ys :: ToBeTold(s, w, z, h)) && Quiet(w, x, y, PrePrepare)
    ensures forall z | z in ys - {y} :: ToBeTold(s, x, z, h)
  {
    hide NoneEarly;
  }

  lemma AllInformed(s: Setting, w: World, x: World, w': World, y: NodeId, ys: set<NodeId>, h: nat)
    requires y in ys && y in w.nodes && Quiet(w, x, y, PrePrepare) && Informed(s, x, y, h)
    requires Calm(x, w', ys - {y}, PrePrepare) && forall z | z in ys - {y} :: Informed(s, w', z, h)
    ensures Calm(w, w', ys, PrePrepare) && forall z | z in ys :: Informed(s, w', z, h)
  {
    assert ys - {y} + {y} == ys;
    CalmNext(w, x, w', y, ys - {y}, PrePrepare);
    hide Told;
  }

  lemma {:induction false} TellAll(s: Setting, w: World, ys: set<NodeId>, h: nat) returns (events: seq<Event>)
    requires s.WellFormed() && ys <= s.intraLeaders - {s.leader} && forall y | y in ys :: ToBeTold(s, w, y, h)
    ensures var w' := Run(s, w, events); Calm(w, w', ys, PrePrepare) && forall y | y in ys :: Informed(s, w', y, h)
    decreases ys
  {
    if ys == {} {
      events := [];
      RunNothing(s, w);
    } else {
      var y :| y in ys;
      var e := Deliver(NodeMsg(PrePrepare, s.leader, y, h), 0, 0);
      Tell(s, w, y, h);
      var x := Step(s, w, e);
      OthersToBeTold(s, w, x, y, ys, h);
      assert Informed(s, x, y, h);
      hide Step, Quiet, Calm, Informed, ToBeTold;
      var rest := TellAll(s, x, ys - {y}, h);
      events := [e] + rest;
      RunFirst(s, w, e, rest);
      assert y in w.nodes by { InNodes(s, w, y, ys, h); }
      AllInformed(s, w, x, Run(s, x, rest), y, ys, h);
    }
  }

  lemma InNodes(s: Setting, w: World, y: NodeId, ys: set<NodeId>, h: nat)
    requires y in ys && forall z | z in ys :: ToBeTold(s, w, z, h)
    ensures y in w.nodes
  {
  }

  /** Only the leader's two prepare tasks ran. */
  ghost predicate TasksRan(s: Setting, w: World, w': World, h: nat) {
    && w'.nodes == w.nodes && w'.blocks == w.blocks && w'.stops == w.stops
    && (forall m | m in w.msgs :: m in w'.msgs)
    && SentPrepares(s, w', s.leader, h)
  }

  lemma RunTasks(s: Setting, w: World, h: nat)
    requires s.leader in w.nodes && s.leader in w.intraTasks && w.nodes[s.leader].height == h
    ensures TasksRan(s, w, Run(s, w, [IntraTask(s.leader), GlobalTask(s.leader)]), h)
  {
    var a, b := IntraTask(s.leader), GlobalTask(s.leader);
    var x := Step(s, w, a);
    assert [a] + [b] == [a, b] && [b] + [] == [b];
    RunFirst(s, w, a, [b]);
    RunFirst(s, x, b, []);
    RunNothing(s, Step(s, x, b));
    IntraIs(s, w);
    GlobalIs(s, x);
    hide Step, Run;
  }

  lemma IntraIs(s: Setting, w: World)
    requires s.leader in w.nodes && s.leader in w.intraTasks
    ensures var x := Step(s, w, IntraTask(s.leader));
      && x.nodes == w.nodes && x.blocks == w.blocks && x.stops == w.stops && s.leader in x.globalTasks
      && forall m | m in w.msgs :: m in x.msgs
  {
    hide Broadcast;
  }

  lemma GlobalIs(s: Setting, w: World)
    requires s.leader in w.nodes && s.leader in w.globalTasks
    ensures var x, h := Step(s, w, GlobalTask(s.leader)), w.nodes[s.leader].height;
      && x.nodes == w.nodes && x.blocks == w.blocks && x.stops == w.stops
      && (forall m | m in w.msgs :: m in x.msgs)
      && SentPrepares(s, x, s.leader, h)
  {
    var h := w.nodes[s.leader].height;
    assert forall z | z in s.intraLeaders && z != s.leader ::
      NodeMsg(Prepare, s.leader, z, h) in Broadcast(s.intraLeaders, Prepare, s.leader, h);
    hide Broadcast;
  }

  function Foreign(s: Setting): set<NodeId> {
    s.intraLeaders - {s.leader}
  }

  /** The leader has just put up block h: it counts afresh, and all other intra-leaders are still to be told. */
  ghost predicate Opened(s: Setting, w: World, h: nat) {
    && s.leader in w.nodes && s.leader in w.intraTasks
    && Told(w.nodes[s.leader], h) && Clean(w.nodes[s.leader].finality.global, h, 0)
    && forall x | x in Foreign(s) :: ToBeTold(s, w, x, h)
  }

  /** All intra-leaders are told, and their prepare votes are under way. */
  lemma ToPrepares(s: Setting, w: World, h: nat) returns (events: seq<Event>)
    requires s.WellFormed() && Opened(s, w, h)
    ensures var w' := Run(s, w, events);
      && Ready(s, w', Prepare, s.intraLeaders, h)
      && (forall y | y in s.intraLeaders :: y in w'.nodes && Told(w'.nodes[y], h))
      && Clean(w'.nodes[s.leader].finality.global, h, 0)
      && w'.blocks == w.blocks && w'.stops == w.stops
  {
    var first := TellAll(s, w, Foreign(s), h);
    var x := Run(s, w, first);
    hide Run, Told, SentPrepares, ToBeTold, Calm;
    LeaderCalm(s, w, x, h);
    var rest := [IntraTask(s.leader), GlobalTask(s.leader)];
    assert x.nodes[s.leader].height == h by { ToldHeight(x.nodes[s.leader], h); }
    RunTasks(s, x, h);
    events := first + rest;
    RunAppend(s, w, first, rest);
    NowReady(s, x, Run(s, x, rest), h);
  }

  lemma ToldHeight(n: NodeState, h: nat)
    requires Told(n, h)
    ensures n.height == h
  {
  }

  lemma LeaderCalm(s: Setting, w: World, x: World, h: nat)
    requires Opened(s, w, h) && Calm(w, x, Foreign(s), PrePrepare)
    ensures s.leader in x.nodes && x.nodes[s.leader] == w.nodes[s.leader] && s.leader in x.intraTasks
    ensures x.blocks == w.blocks && x.stops == w.stops
  {
  }

  lemma NowReady(s: Setting, x: World, w': World, h: nat)
    requires s.WellFormed() && s.leader in x.nodes && Told(x.nodes[s.leader], h)
    requires (forall y | y in Foreign(s) :: Informed(s, x, y, h)) && TasksRan(s, x, w', h)
    ensures Ready(s, w', Prepare, s.intraLeaders, h)
    ensures forall y | y in s.intraLeaders :: y in w'.nodes && Told(w'.nodes[y], h)
  {
    forall y | y in s.intraLeaders ensures ReadyOne(s, w', Prepare, y, h) && Told(w'.nodes[y], h) {
      assert y != s.leader ==> Informed(s, x, y, h);
      forall z | z in s.intraLeaders - {y} ensures NodeMsg(Prepare, z, y, h) in w'.msgs {
        assert z != s.leader ==> Informed(s, x, z, h);
      }
    }
  }

  /** Their finality messages are under way. */
  lemma ToFinality(s: Setting, w: World, h: nat) returns (events: seq<Event>)
    requires s.WellFormed() && CanMeet(s) && Opened(s, w, h)
    ensures var w' := Run(s, w, events);
      && s.leader in w'.nodes && w'.nodes[s.leader].height == h && Clean(w'.nodes[s.leader].finality.global, h, 0)
      && Under(w', Finality, Foreign(s), s.leader, h)
      && w'.blocks == w.blocks && w'.stops == w.stops
  {
    var a := ToPrepares(s, w, h);
    var x := Run(s, w, a);
    hide Run, Ready, Told, Calm, Counted, Opened;
    var b := FeedAll(s, x, Prepare, s.intraLeaders, h);
    var y := Run(s, x, b);
    PreparesAreIn(s, x, y, h);
    var c := FeedAll(s, y, Commit, Foreign(s), h);
    var z := Run(s, y, c);
    CommitsAreIn(s, y, z, h);
    events := a + b + c;
    RunAppend(s, w, a, b);
    RunAppend(s, w, a + b, c);
  }

  lemma PreparesAreIn(s: Setting, x: World, y: World, h: nat)
    requires s.WellFormed() && (forall z | z in s.intraLeaders :: z in x.nodes && Told(x.nodes[z], h))
    requires Clean(x.nodes[s.leader].finality.global, h, 0)
    requires Calm(x, y, s.intraLeaders, Prepare) && Counted(s, x, y, Prepare, s.intraLeaders, h)
    ensures Ready(s, y, Commit, Foreign(s), h)
    ensures s.leader in y.nodes && y.nodes[s.leader].height == h && Clean(y.nodes[s.leader].finality.global, h, 0)
    ensures y.blocks == x.blocks && y.stops == x.stops
  {
    hide NeedOf;
    forall z | z in Foreign(s) ensures ReadyOne(s, y, Commit, z, h) {
      forall v | v in s.intraLeaders - {z} ensures NodeMsg(Commit, v, z, h) in y.msgs {
        assert Sends(s, Prepare, v, z, NodeMsg(Commit, v, z, h), h);
      }
    }
  }

  lemma CommitsAreIn(s: Setting, y: World, z: World, h: nat)
    requires s.leader in y.nodes && y.nodes[s.leader].height == h && Clean(y.nodes[s.leader].finality.global, h, 0)
    requires Calm(y, z, Foreign(s), Commit) && Counted(s, y, z, Commit, Foreign(s), h)
    ensures s.leader in z.nodes && z.nodes[s.leader] == y.nodes[s.leader]
    ensures Under(z, Finality, Foreign(s), s.leader, h)
    ensures z.blocks == y.blocks && z.stops == y.stops
  {
    hide NeedOf;
    forall v | v in Foreign(s) ensures NodeMsg(Finality, v, s.leader, h) in z.msgs {
      assert Sends(s, Commit, v, s.leader, NodeMsg(Finality, v, s.leader, h), h);
    }
  }

  /** The finality message that completes the leader's count ends the round. */
  lemma LastFinality(s: Setting, w: World, x: NodeId, h: nat)
    requires s.WellFormed() && x in Foreign(s) && s.leader in w.nodes && w.nodes[s.leader].height == h
    requires Clean(w.nodes[s.leader].finality.global, h, NeedOf(s, Finality) - 1)
    requires NodeMsg(Finality, x, s.leader, h) in w.msgs
    ensures var w' := Step(s, w, Deliver(NodeMsg(Finality, x, s.leader, h), 0, 0));
      if h == END_BLOCK_HEIGHT then w'.blocks == w.blocks && w'.stops == w.stops + 1
      else |w'.blocks| == |w.blocks| + 1 && w'.stops == w.stops
  {
    ReceiveVote(s, w.nodes[s.leader], Finality, x, s.leader, h, NeedOf(s, Finality) - 1);
    hide Receive, NeedOf, Launched, LaunchMsgs, NewBlock;
  }

  /** From a block put up there is a delivery that ends its round. */
  lemma EndRound(s: Setting, w: World, h: nat) returns (events: seq<Event>)
    requires s.WellFormed() && CanMeet(s) && Opened(s, w, h)
    ensures events != []
    ensures var x := Run(s, w, events[..|events| - 1]);
      && x.blocks == w.blocks && x.stops == w.stops
      && var w' := Step(s, x, events[|events| - 1]);
      && w' == Run(s, w, events)
      && if h == END_BLOCK_HEIGHT then w'.blocks == w.blocks && w'.stops == w.stops + 1
         else |w'.blocks| == |w.blocks| + 1 && w'.stops == w.stops
  {
    var a := ToFinality(s, w, h);
    var x := Run(s, w, a);
    hide Run, Opened;
    OthersAreEnough(s, s.leader);
    var b, left := Feed(s, x, Finality, s.leader, h, 0, NeedOf(s, Finality) - 1, Foreign(s));
    var y := Run(s, x, b);
    var v :| v in left;
    var e := Deliver(NodeMsg(Finality, v, s.leader, h), 0, 0);
    LastFinality(s, y, v, h);
    events := a + b + [e];
    assert events[..|events| - 1] == a + b;
    RunAppend(s, w, a, b);
    RunAppend(s, w, a + b, [e]);
    RunFirst(s, y, e, []);
    RunNothing(s, Step(s, y, e));
    assert [e] + [] == [e];
  }

  /** Nothing kept for later is for a height the leader has not reached. */
  ghost predicate NoneAhead(s: Setting, w: World) {
    forall id | id in w.nodes :: NoneEarly(w.nodes[id], Top(s, w) + 1)
  }

  lemma {:induction false} KeptBelow(buffer: seq<NodeMsg>, g: nat, h: nat)
    requires Below(buffer, h)
    ensures Below(Kept(buffer, g), h)
  {
    if buffer != [] {
      KeptBelow(buffer[..|buffer| - 1], g, h);
    }
  }

  lemma ResetEarly(n: NodeState, g: nat, h: nat)
    requires NoneEarly(n, h)
    ensures NoneEarly(ResetAll(n, g), h)
  {
    KeptBelow(n.prepare.global.buffer, g, h);
    KeptBelow(n.commit.global.buffer, g, h);
    KeptBelow(n.finality.global.buffer, g, h);
    hide Kept, Below;
  }

  lemma ReceiveEarly(s: Setting, id: NodeId, n: NodeState, m: NodeMsg, h: nat)
    requires NoneEarly(n, h) && m.height < h
    ensures NoneEarly(Receive(s, id, n, m).node, h)
  {
    ResetEarly(n, m.height, h);
    hide ResetAll, Need, Broadcast;
  }

  lemma HandleEarly(s: Setting, w: World, m: NodeMsg)
    requires Routed(s, w) && NoneAhead(s, w) && m in w.msgs && m.to in w.nodes
    ensures NoneAhead(s, Handle(s, w, m))
  {
    HandleTop(s, w, m);
    assert Proper(s, m, Top(s, w));
    ReceiveEarly(s, m.to, w.nodes[m.to], m, Top(s, w) + 1);
    hide Receive, NoneEarly, Proper, Top;
  }

  lemma LaterEarly(n: NodeState, g: nat, h: nat)
    requires NoneEarly(n, g) && g <= h
    ensures NoneEarly(n, h)
  {
  }

  lemma LaunchedEarly(s: Setting, n: NodeState, body: nat, time: nat)
    requires NoneEarly(n, n.height + 1)
    ensures var x := Launched(s, s.leader, n, body, time);
      Told(x, n.height + 1) && Clean(x.finality.global, n.height + 1, 0) && NoneEarly(x, n.height + 2)
  {
    NothingKept(n.prepare.global.buffer, n.height + 1);
    NothingKept(n.commit.global.buffer, n.height + 1);
    NothingKept(n.finality.global.buffer, n.height + 1);
    hide NewBlock;
  }

  /** Putting up a block opens its round. */
  lemma LaunchOpens(s: Setting, w: World, body: nat, time: nat)
    requires s.WellFormed() && w.nodes.Keys == Everyone(s) && NoneAhead(s, w)
    ensures s.leader in w.nodes
    ensures var x := Launch(s, w, s.leader, body, time);
      Opened(s, x, Top(s, w) + 1) && NoneAhead(s, x) && Top(s, x) == Top(s, w) + 1
  {
    hide Launch, Launched, NoneEarly, Told, LaunchMsgs, Clean;
    var x, n := Launch(s, w, s.leader, body, time), w.nodes[s.leader];
    LaunchIs(s, w, body, time);
    LaunchedEarly(s, n, body, time);
    forall id | id in w.nodes ensures NoneEarly(w.nodes[id], n.height + 2) {
      LaterEarly(w.nodes[id], n.height + 1, n.height + 2);
    }
  }

  lemma LaunchIs(s: Setting, w: World, body: nat, time: nat)
    requires s.leader in w.nodes
    ensures var x, n := Launch(s, w, s.leader, body, time), w.nodes[s.leader];
      && x.nodes == w.nodes[s.leader := Launched(s, s.leader, n, body, time)]
      && x.nodes[s.leader].height == n.height + 1 && s.leader in x.intraTasks
      && forall y | y in Foreign(s) :: NodeMsg(PrePrepare, s.leader, y, n.height + 1) in x.msgs
  {
    var n := w.nodes[s.leader];
    assert forall y | y in Foreign(s) :: NodeMsg(PrePrepare, s.leader, y, n.height + 1) in LaunchMsgs(s, s.leader, n.height + 1);
    hide LaunchMsgs, ResetAll, NewBlock;
  }

  lemma DeliverEarly(s: Setting, w: World, m: NodeMsg, body: nat, time: nat)
    requires s.WellFormed() && Routed(s, w) && NoneAhead(s, w) && m in w.msgs && m.to in w.nodes
    ensures var x := Step(s, w, Deliver(m, body, time));
      NoneAhead(s, x) && (|x.blocks| > |w.blocks| ==> Opened(s, x, Top(s, x)))
  {
    hide Step, Handle, Over, Opened, Launch, NoneAhead, Routed, Top;
    var y := Handle(s, w, m);
    HandleEarly(s, w, m);
    HandleIs(s, w, m);
    DeliverNext(s, w, m, body, time);
    if Over(s, w, m) && y.nodes[s.leader].height != END_BLOCK_HEIGHT {
      LaunchOpens(s, y, body, time);
    } else {
      StopEarly(s, y);
    }
  }

  lemma HandleIs(s: Setting, w: World, m: NodeMsg)
    requires Routed(s, w) && m in w.msgs && m.to in w.nodes
    ensures var y := Handle(s, w, m); y.nodes.Keys == w.nodes.Keys == Everyone(s) && y.blocks == w.blocks
    ensures Over(s, w, m) ==> m.to == s.leader
  {
    assert Proper(s, m, Top(s, w));
    hide OnPrePrepare, OnPrepare, OnCommit, Everyone;
  }

  lemma DeliverNext(s: Setting, w: World, m: NodeMsg, body: nat, time: nat)
    requires m in w.msgs && m.to in w.nodes
    ensures m.to in Handle(s, w, m).nodes
    ensures var x, y := Step(s, w, Deliver(m, body, time)), Handle(s, w, m);
      x == if !Over(s, w, m) then y
           else if y.nodes[m.to].height == END_BLOCK_HEIGHT then y.(stops := y.stops + 1)
           else Launch(s, y, m.to, body, time)
  {
    hide Over, Launch, Receive;
  }

  lemma StopEarly(s: Setting, y: World)
    requires NoneAhead(s, y)
    ensures NoneAhead(s, y.(stops := y.stops + 1))
  {
    hide NoneEarly;
  }

  lemma StepEarly(s: Setting, w: World, e: Event)
    requires s.WellFormed() && Inv(s, w) && NoneAhead(s, w)
    ensures var x := Step(s, w, e);
      NoneAhead(s, x) && (|x.blocks| > |w.blocks| ==> Opened(s, x, |x.blocks|))
  {
    hide Inv, Opened, NoneAhead, Step;
    StepKeepsInv(s, w, e);
    InvIs(s, w);
    InvIs(s, Step(s, w, e));
    match e
    case Begin(body, time) => BeginEarly(s, w, body, time);
    case Deliver(m, body, time) =>
      if m in w.msgs && m.to in w.nodes {
        DeliverEarly(s, w, m, body, time);
      } else {
        NothingDelivered(s, w, e);
      }
    case IntraTask(id) => TaskEarly(s, w, e);
    case GlobalTask(id) => TaskEarly(s, w, e);
  }

  lemma NothingDelivered(s: Setting, w: World, e: Event)
    requires e.Deliver? && (e.msg !in w.msgs || e.msg.to !in w.nodes)
    ensures Step(s, w, e) == w
  {
  }

  lemma BeginEarly(s: Setting, w: World, body: nat, time: nat)
    requires s.WellFormed() && w.nodes.Keys == Everyone(s) && NoneAhead(s, w)
    ensures var x := Step(s, w, Begin(body, time));
      NoneAhead(s, x) && (|x.blocks| > |w.blocks| ==> Opened(s, x, Top(s, x)))
  {
    hide Opened, NoneEarly, Launch;
    if !w.started {
      LaunchOpens(s, w.(started := true), body, time);
    }
  }

  lemma TaskEarly(s: Setting, w: World, e: Event)
    requires NoneAhead(s, w) && (e.IntraTask? || e.GlobalTask?)
    ensures var x := Step(s, w, e); NoneAhead(s, x) && x.blocks == w.blocks
  {
    hide NoneEarly, Broadcast;
  }

  lemma InvIs(s: Setting, w: World)
    requires Inv(s, w)
    ensures Routed(s, w) && Top(s, w) == |w.blocks| <= END_BLOCK_HEIGHT && w.nodes.Keys == Everyone(s)
    ensures w.stops <= 1 && (w.stops == 1 ==> |w.blocks| == END_BLOCK_HEIGHT)
  {
    InvIsChain(s, w);
  }

  lemma {:induction false} RunEarly(s: Setting, w: World, events: seq<Event>)
    requires s.WellFormed() && Inv(s, w) && NoneAhead(s, w)
    ensures Inv(s, Run(s, w, events)) && NoneAhead(s, Run(s, w, events))
    decreases |events|
  {
    if events != [] {
      hide Inv, NoneAhead, Step;
      StepKeepsInv(s, w, events[0]);
      StepEarly(s, w, events[0]);
      RunEarly(s, Step(s, w, events[0]), events[1..]);
    }
  }

  lemma StartEarly(s: Setting)
    requires s.WellFormed()
    ensures Inv(s, Start(s)) && NoneAhead(s, Start(s))
  {
    StartHasInv(s);
  }

  /** A world of some run in which block h has just been put up. */
  ghost predicate JustPutUp(s: Setting, w: World, h: nat) {
    Inv(s, w) && NoneAhead(s, w) && Opened(s, w, h) && |w.blocks| == h
  }

  /** One round on from there: the next block, or the end of mining. */
  lemma NextBlock(s: Setting, w: World, h: nat) returns (events: seq<Event>)
    requires s.WellFormed() && CanMeet(s) && JustPutUp(s, w, h)
    ensures var w' := Run(s, w, events);
      if h == END_BLOCK_HEIGHT then w'.blocks == w.blocks && w'.stops == w.stops + 1
      else JustPutUp(s, w', h + 1) && w'.stops == w.stops
  {
    hide Run, Step, Opened, Inv, NoneAhead;
    events := EndRound(s, w, h);
    var front, e := events[..|events| - 1], events[|events| - 1];
    RunEarly(s, w, front);
    RunEarly(s, w, events);
    StepEarly(s, Run(s, w, front), e);
  }

  lemma PutUp(s: Setting, events: seq<Event>, e: Event)
    requires s.WellFormed()
    ensures var w := Run(s, Start(s), events);
      var x := Step(s, w, e);
      |x.blocks| > |w.blocks| ==> JustPutUp(s, x, |x.blocks|) && x.stops == 0
  {
    hide Run, Step, Opened, Inv, NoneAhead, Start;
    var w := Run(s, Start(s), events);
    StartEarly(s);
    RunEarly(s, Start(s), events);
    StepKeepsInv(s, w, e);
    StepEarly(s, w, e);
    if |Step(s, w, e).blocks| > |w.blocks| {
      NoStopYet(s, w, e);
    }
  }

  lemma NoStopYet(s: Setting, w: World, e: Event)
    requires Inv(s, w) && Inv(s, Step(s, w, e)) && |Step(s, w, e).blocks| > |w.blocks|
    ensures Step(s, w, e).stops == 0
  {
    hide Inv, Step;
    InvIs(s, w);
    InvIs(s, Step(s, w, e));
    BlockOrStop(s, w, e);
  }

  lemma BlockOrStop(s: Setting, w: World, e: Event)
    ensures |Step(s, w, e).blocks| > |w.blocks| ==> Step(s, w, e).stops == w.stops
  {
    hide Launched, Receive, LaunchMsgs, Over, NewBlock, Broadcast;
  }

  /**
    Rounds end: whenever, in any run, the leader has put up a block, the messages under way can be
    delivered so that it puts up the next one, or stops after the last.
   */
  lemma RoundCanEnd(s: Setting, events: seq<Event>, e: Event) returns (more: seq<Event>)
    requires s.WellFormed() && CanMeet(s)
    requires var w := Run(s, Start(s), events); |Step(s, w, e).blocks| > |w.blocks|
    ensures var x := Step(s, Run(s, Start(s), events), e);
      var y := Run(s, x, more);
      if |x.blocks| == END_BLOCK_HEIGHT then y.blocks == x.blocks && y.stops == 1 else |y.blocks| == |x.blocks| + 1
  {
    hide Run, Step, JustPutUp;
    PutUp(s, events, e);
    var x := Step(s, Run(s, Start(s), events), e);
    more := NextBlock(s, x, |x.blocks|);
    if |x.blocks| != END_BLOCK_HEIGHT {
      PutUpHas(s, Run(s, x, more), |x.blocks| + 1);
    }
  }

  lemma PutUpHas(s: Setting, w: World, h: nat)
    requires JustPutUp(s, w, h)
    ensures |w.blocks| == h <= END_BLOCK_HEIGHT
  {
    InvIs(s, w);
  }

  lemma {:induction false} ToTheEnd(s: Setting, w: World, h: nat) returns (events: seq<Event>)
    requires s.WellFormed() && CanMeet(s) && JustPutUp(s, w, h) && w.stops == 0
    ensures var w' := Run(s, w, events); |w'.blocks| == END_BLOCK_HEIGHT && w'.stops == 1
    decreases END_BLOCK_HEIGHT - h
  {
    PutUpHas(s, w, h);
    hide Run, JustPutUp;
    var first := NextBlock(s, w, h);
    if h == END_BLOCK_HEIGHT {
      events := first;
    } else {
      var x := Run(s, w, first);
      PutUpHas(s, x, h + 1);
      var rest := ToTheEnd(s, x, h + 1);
      events := first + rest;
      RunAppend(s, w, first, rest);
    }
  }

  /** And so mining can be completed: from every block put up, the last one is reached and mining stops. */
  lemma MiningCanComplete(s: Setting, events: seq<Event>, e: Event) returns (more: seq<Event>)
    requires s.WellFormed() && CanMeet(s)
    requires var w := Run(s, Start(s), events); |Step(s, w, e).blocks| > |w.blocks|
    ensures var y := Run(s, Step(s, Run(s, Start(s), events), e), more);
      |y.blocks| == END_BLOCK_HEIGHT && y.stops == 1
  {
    hide Run, Step, JustPutUp;
    PutUp(s, events, e);
    var x := Step(s, Run(s, Start(s), events), e);
    more := ToTheEnd(s, x, |x.blocks|);
  }

  /** In particular from the start: some run puts up all the blocks. */
  lemma SomeRunCompletes(s: Setting) returns (events: seq<Event>)
    requires s.WellFormed() && CanMeet(s)
    ensures var w := Run(s, Start(s), events); |w.blocks| == END_BLOCK_HEIGHT && w.stops == 1
  {
    var e := Begin(0, 0);
    RunNothing(s, Start(s));
    FirstBlock(s);
    hide Run, Step, Start;
    var more := MiningCanComplete(s, [], e);
    events := [e] + more;
    RunFirst(s, Start(s), e, more);
  }

  lemma FirstBlock(s: Setting)
    requires s.WellFormed()
    ensures |Step(s, Start(s), Begin(0, 0)).blocks| == 1 && Start(s).blocks == []
  {
    hide Launched, LaunchMsgs;
  }
}
