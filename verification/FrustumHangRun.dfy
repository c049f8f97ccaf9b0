/** A run of four intra-leaders that gets into such a round. */
module FrustumHangRun {
  import opened Quorums
  import opened Frustum
  import opened FrustumRuns
  import opened FrustumVotes
  import opened FrustumProgress
  import opened FrustumHang

  const L := NodeId(0, 0)
  const A := NodeId(1, 0)
  const B := NodeId(2, 0)
  const C := NodeId(3, 0)

  /** Four shards of one node each. */
  function Four(): Setting {
    Setting((k: nat) => {NodeId(k, 0)}, {L, A, B, C}, L, (b: Block) => 0)
  }

  function Tells(x: NodeId): NodeMsg {
    NodeMsg(PrePrepare, L, x, 1)
  }

  function Votes(x: NodeId, y: NodeId): NodeMsg {
    NodeMsg(Prepare, x, y, 1)
  }

  function Sending(m: NodeMsg): Event {
    Deliver(m, 0, 0)
  }

  /** The votes of all others reach C before it is told. */
  function Hanging(): seq<Event> {
    [Begin(0, 0), Sending(Tells(A)), Sending(Tells(B)), IntraTask(L), GlobalTask(L),
     Sending(Votes(L, C)), Sending(Votes(A, C)), Sending(Votes(B, C)), Sending(Tells(C))]
  }

  /** How often a message is under way: nodes not told are still to be, and voters' votes go to all but C, which has taken some. */
  function UnderWay(m: NodeMsg, told: set<NodeId>, voters: set<NodeId>, taken: set<NodeId>): nat {
    if m.height != 1 || m.to !in {L, A, B, C} then 0
    else if m.kind == PrePrepare then (if m.from == L && m.to != L && m.to !in told then 1 else 0)
    else if m.kind == Prepare then (if m.from in voters && m.to != m.from && !(m.to == C && m.from in taken) then 1 else 0)
    else 0
  }

  ghost predicate MsgsAre(msgs: multiset<NodeMsg>, told: set<NodeId>, voters: set<NodeId>, taken: set<NodeId>) {
    forall m :: msgs[m] == UnderWay(m, told, voters, taken)
  }

  predicate NodeAt(n: NodeState, told: bool, kept: seq<NodeMsg>) {
    var h := if told then 1 else 0;
    && n.height == h
    && n.prepare.global == Counter(false, h, 0, kept)
    && n.commit.global == Counter(false, h, 0, [])
  }

  ghost predicate NodesAre(nodes: map<NodeId, NodeState>, told: set<NodeId>, kept: seq<NodeMsg>) {
    nodes.Keys == {L, A, B, C} && forall x | x in nodes :: NodeAt(nodes[x], x in told, if x == C then kept else [])
  }

  /** Who was told, who has voted, what C has taken and kept, and whether the leader's votes are still to be sent. */
  ghost predicate At(w: World, told: set<NodeId>, voters: set<NodeId>, taken: set<NodeId>, kept: seq<NodeMsg>, tasks: bool) {
    && w.started && |w.blocks| == 1 && w.stops == 0
    && NodesAre(w.nodes, told, kept) && MsgsAre(w.msgs, told, voters, taken)
    && w.intraTasks == (if tasks then multiset{L} else multiset{}) && w.globalTasks == multiset{}
  }

  lemma FourIs()
    ensures Four().WellFormed() && Tight(Four()) && C in Foreign(Four()) && Four().leader == L
    ensures Everyone(Four()) == {L, A, B, C} == Four().intraLeaders
    ensures Foreign(Four()) == {A, B, C}
  {
    Distinct();
    assert |{L, A, B, C}| == 4;
  }

  lemma Distinct()
    ensures L != A && L != B && L != C && A != B && A != C && B != C
    ensures L.shard != A.shard && L.shard != B.shard && L.shard != C.shard && C.shard != A.shard && C.shard != B.shard
  {
  }

  lemma OwnShard(kind: Kind, x: NodeId)
    requires x in {L, A, B, C}
    ensures Broadcast(Four().shards(x.shard), kind, x, 1) == multiset{}
  {
  }

  lemma BeginIs(s: Setting)
    requires s.leader in Everyone(s)
    ensures var x := Step(s, Start(s), Begin(0, 0));
      && x.nodes.Keys == Everyone(s)
      && (forall id | id in x.nodes :: x.nodes[id] == if id == s.leader then Launched(s, s.leader, FreshNode(), 0, 0) else FreshNode())
      && x.msgs == LaunchMsgs(s, s.leader, 1) && x.intraTasks == multiset{s.leader} && x.globalTasks == multiset{}
      && x.started && |x.blocks| == 1 && x.stops == 0
  {
    hide LaunchMsgs, Launched, NewBlock;
    assert multiset{} + LaunchMsgs(s, s.leader, 1) == LaunchMsgs(s, s.leader, 1);
    assert multiset{} + multiset{s.leader} == multiset{s.leader};
  }

  lemma FirstNodes()
    ensures NodeAt(FreshNode(), false, []) && NodeAt(Launched(Four(), L, FreshNode(), 0, 0), true, [])
  {
    assert Kept([], 1) == [];
    hide NewBlock;
  }

  lemma FirstMsgs()
    ensures MsgsAre(LaunchMsgs(Four(), L, 1), {L}, {}, {})
  {
    FourIs();
    hide LaunchMsgs, Four;
    forall m ensures LaunchMsgs(Four(), L, 1)[m] == UnderWay(m, {L}, {}, {}) {
      LaunchTells(Four(), 1, m);
    }
  }

  lemma Begins()
    ensures At(Step(Four(), Start(Four()), Begin(0, 0)), {L}, {}, {}, [], true)
  {
    FourIs();
    BeginIs(Four());
    FirstNodes();
    FirstMsgs();
    hide Step, Four, MsgsAre, NodeAt, Launched, LaunchMsgs, FreshNode, Everyone;
  }

  lemma {:induction false} AllKept(kept: seq<NodeMsg>)
    ensures (forall m | m in kept :: m.height == 1) ==> Kept(kept, 1) == kept
  {
    if kept != [] {
      AllKept(kept[..|kept| - 1]);
    }
  }

  /** A node that is told starts afresh, with what it has kept, and votes. */
  lemma TellNode(n: NodeState, x: NodeId, kept: seq<NodeMsg>)
    requires NodeAt(n, false, kept) && x in {A, B, C} && forall m | m in kept :: m.height == 1
    ensures var r := Receive(Four(), x, n, Tells(x));
      NodeAt(r.node, true, kept) && r.out == Broadcast(Four().intraLeaders, Prepare, x, 1) && !r.over
  {
    AllKept(kept);
    assert Kept([], 1) == [];
    hide Broadcast, Kept;
  }

  /** A vote that comes before it is kept. */
  lemma KeepNode(n: NodeState, x: NodeId, kept: seq<NodeMsg>)
    requires NodeAt(n, false, kept) && x in {L, A, B}
    ensures var r := Receive(Four(), C, n, Votes(x, C));
      NodeAt(r.node, false, kept + [Votes(x, C)]) && r.out == multiset{} && !r.over
  {
    hide Need;
  }

  lemma Delivers(s: Setting, w: World, m: NodeMsg)
    requires m in w.msgs && m.to in w.nodes && !Receive(s, m.to, w.nodes[m.to], m).over
    ensures var r, x := Receive(s, m.to, w.nodes[m.to], m), Step(s, w, Deliver(m, 0, 0));
      && x.nodes == w.nodes[m.to := r.node] && x.msgs == w.msgs - multiset{m} + r.out
      && x.intraTasks == w.intraTasks && x.globalTasks == w.globalTasks
      && x.started == w.started && x.blocks == w.blocks && x.stops == w.stops
  {
    hide Receive;
  }

  lemma TellMsgs(msgs: multiset<NodeMsg>, x: NodeId, told: set<NodeId>, voters: set<NodeId>, taken: set<NodeId>)
    requires MsgsAre(msgs, told, voters, taken) && x in {A, B, C} && x !in told && x !in voters && x !in taken
    ensures Tells(x) in msgs
    ensures MsgsAre(msgs - multiset{Tells(x)} + Broadcast(Four().intraLeaders, Prepare, x, 1), told + {x}, voters + {x}, taken)
  {
    MembersAre();
    var members := Four().intraLeaders;
    var out := Broadcast(members, Prepare, x, 1);
    hide Broadcast, Four, UnderWay;
    TellCount(Tells(x), x, told, voters, taken);
    forall m ensures (msgs - multiset{Tells(x)} + out)[m] == UnderWay(m, told + {x}, voters + {x}, taken) {
      BroadcastIs(members, Prepare, x, 1, m);
      TellCount(m, x, told, voters, taken);
    }
  }

  lemma TellCount(m: NodeMsg, x: NodeId, told: set<NodeId>, voters: set<NodeId>, taken: set<NodeId>)
    requires x in {A, B, C} && x !in told && x !in voters && x !in taken
    ensures m == Tells(x) ==> UnderWay(m, told, voters, taken) == 1
    ensures UnderWay(m, told + {x}, voters + {x}, taken) ==
      UnderWay(m, told, voters, taken) - (if m == Tells(x) then 1 else 0)
        + (if m.kind == Prepare && m.from == x && m.height == 1 && m.to in {L, A, B, C} && m.to != x then 1 else 0)
  {
    Distinct();
  }

  lemma KeepMsgs(msgs: multiset<NodeMsg>, x: NodeId, told: set<NodeId>, voters: set<NodeId>, taken: set<NodeId>)
    requires MsgsAre(msgs, told, voters, taken) && x in {L, A, B} && x in voters && x !in taken
    ensures Votes(x, C) in msgs
    ensures MsgsAre(msgs - multiset{Votes(x, C)}, told, voters, taken + {x})
  {
    Distinct();
    assert UnderWay(Votes(x, C), told, voters, taken) == 1;
    forall m ensures (msgs - multiset{Votes(x, C)})[m] == UnderWay(m, told, voters, taken + {x}) {
      assert msgs[m] == UnderWay(m, told, voters, taken);
    }
  }

  lemma TaskMsgs(msgs: multiset<NodeMsg>, told: set<NodeId>, voters: set<NodeId>, taken: set<NodeId>)
    requires MsgsAre(msgs, told, voters, taken) && L !in voters && L !in taken
    ensures MsgsAre(msgs + Broadcast(Four().intraLeaders, Prepare, L, 1), told, voters + {L}, taken)
  {
    MembersAre();
    var members := Four().intraLeaders;
    var out := Broadcast(members, Prepare, L, 1);
    hide Broadcast, Four, UnderWay;
    forall m ensures (msgs + out)[m] == UnderWay(m, told, voters + {L}, taken) {
      BroadcastIs(members, Prepare, L, 1, m);
      TaskCount(m, told, voters, taken);
    }
  }

  lemma MembersAre()
    ensures Four().intraLeaders == {L, A, B, C}
  {
  }

  lemma TaskCount(m: NodeMsg, told: set<NodeId>, voters: set<NodeId>, taken: set<NodeId>)
    requires L !in voters && L !in taken
    ensures UnderWay(m, told, voters + {L}, taken) ==
      UnderWay(m, told, voters, taken)
        + (if m.kind == Prepare && m.from == L && m.height == 1 && m.to in {L, A, B, C} && m.to != L then 1 else 0)
  {
    Distinct();
  }

  lemma IsTold(w: World, x: NodeId, told: set<NodeId>, voters: set<NodeId>, taken: set<NodeId>, kept: seq<NodeMsg>, tasks: bool)
    requires At(w, told, voters, taken, kept, tasks) && x in {A, B, C} && x !in told && x !in voters && x !in taken
    requires forall m | m in kept :: m.height == 1
    ensures At(Step(Four(), w, Sending(Tells(x))), told + {x}, voters + {x}, taken, kept, tasks)
  {
    hide Step, Receive, Broadcast, NodeAt, MsgsAre, Four;
    TellNode(w.nodes[x], x, if x == C then kept else []);
    TellMsgs(w.msgs, x, told, voters, taken);
    Delivers(Four(), w, Tells(x));
  }

  lemma IsKept(w: World, x: NodeId, told: set<NodeId>, voters: set<NodeId>, taken: set<NodeId>, kept: seq<NodeMsg>)
    requires At(w, told, voters, taken, kept, false) && C !in told && x in {L, A, B} && x in voters && x !in taken
    ensures At(Step(Four(), w, Sending(Votes(x, C))), told, voters, taken + {x}, kept + [Votes(x, C)], false)
  {
    hide Step, Receive, NodeAt, MsgsAre, Four;
    KeepNode(w.nodes[C], x, kept);
    KeepMsgs(w.msgs, x, told, voters, taken);
    Delivers(Four(), w, Votes(x, C));
    var left := w.msgs - multiset{Votes(x, C)};
    assert left + multiset{} == left;
  }

  lemma IntraRuns(w: World)
    requires L in w.nodes && w.nodes[L].height == 1 && w.intraTasks == multiset{L} && w.globalTasks == multiset{}
    ensures Step(Four(), w, IntraTask(L)) == w.(intraTasks := multiset{}, globalTasks := multiset{L})
  {
    OwnShard(Prepare, L);
    hide Broadcast;
    assert w.msgs + multiset{} == w.msgs;
  }

  lemma GlobalRuns(w: World)
    requires L in w.nodes && w.nodes[L].height == 1 && w.globalTasks == multiset{L}
    ensures Step(Four(), w, GlobalTask(L)) ==
      w.(msgs := w.msgs + Broadcast(Four().intraLeaders, Prepare, L, 1), globalTasks := multiset{})
  {
    hide Broadcast;
  }

  lemma TasksRun(w: World, told: set<NodeId>, voters: set<NodeId>, taken: set<NodeId>, kept: seq<NodeMsg>)
    requires At(w, told, voters, taken, kept, true) && L in told && L !in voters && L !in taken
    ensures At(Step(Four(), Step(Four(), w, IntraTask(L)), GlobalTask(L)), told, voters + {L}, taken, kept, false)
  {
    hide Step, MsgsAre, Broadcast, Four;
    assert NodeAt(w.nodes[L], true, []) by { Distinct(); }
    IntraRuns(w);
    GlobalRuns(w.(intraTasks := multiset{}, globalTasks := multiset{L}));
    TaskMsgs(w.msgs, told, voters, taken);
  }

  lemma RunStep(s: Setting, w: World, es: seq<Event>, k: nat)
    requires k < |es|
    ensures Run(s, w, es[..k + 1]) == Step(s, Run(s, w, es[..k]), es[k])
  {
    assert es[..k + 1] == es[..k] + [es[k]];
    RunAppend(s, w, es[..k], [es[k]]);
    RunFirst(s, Run(s, w, es[..k]), es[k], []);
    RunNothing(s, Step(s, Run(s, w, es[..k]), es[k]));
    assert [es[k]] + [] == [es[k]];
  }

  lemma ToTheTasks(s: Setting, w0: World, es: seq<Event>)
    requires s == Four() && w0 == Start(s) && es == Hanging()
    ensures At(Run(s, w0, es[..5]), {L} + {A} + {B}, {} + {A} + {B} + {L}, {}, [], false)
  {
    hide Run, Step, At, Start, Four;
    Distinct();
    RunNothing(s, w0);
    assert es[..0] == [];
    RunStep(s, w0, es, 0);
    Begins();
    RunStep(s, w0, es, 1);
    IsTold(Run(s, w0, es[..1]), A, {L}, {}, {}, [], true);
    RunStep(s, w0, es, 2);
    IsTold(Run(s, w0, es[..2]), B, {L} + {A}, {} + {A}, {}, [], true);
    RunStep(s, w0, es, 3);
    RunStep(s, w0, es, 4);
    TasksRun(Run(s, w0, es[..3]), {L} + {A} + {B}, {} + {A} + {B}, {}, []);
  }

  /** C has been told last, and nobody has counted anything. */
  lemma HangingGoes(s: Setting, w0: World, es: seq<Event>)
    requires s == Four() && w0 == Start(s) && es == Hanging()
    ensures exists kept :: At(Run(s, w0, es), {L, A, B, C}, {L, A, B, C}, {L, A, B}, kept, false)
  {
    hide Run, Step, At, Start, Four;
    Distinct();
    ToTheTasks(s, w0, es);
    var told, voters := {L} + {A} + {B}, {} + {A} + {B} + {L};
    var k1 := [] + [Votes(L, C)];
    var k2 := k1 + [Votes(A, C)];
    var k3 := k2 + [Votes(B, C)];
    RunStep(s, w0, es, 5);
    IsKept(Run(s, w0, es[..5]), L, told, voters, {}, []);
    RunStep(s, w0, es, 6);
    IsKept(Run(s, w0, es[..6]), A, told, voters, {} + {L}, k1);
    RunStep(s, w0, es, 7);
    IsKept(Run(s, w0, es[..7]), B, told, voters, {} + {L} + {A}, k2);
    RunStep(s, w0, es, 8);
    IsTold(Run(s, w0, es[..8]), C, told, voters, {} + {L} + {A} + {B}, k3, false);
    assert es[..9] == es && told + {C} == {L, A, B, C} && voters + {C} == {L, A, B, C} && {} + {L} + {A} + {B} == {L, A, B};
  }

  /**
    So rounds do not always end: after this run of four intra-leaders, which delivers everything just
    once, no delivery of anything brings the leader to its second block.
   */
  lemma RoundMayHang(more: seq<Event>)
    ensures Four().WellFormed() && CanMeet(Four())
    ensures var w := Run(Four(), Run(Four(), Start(Four()), Hanging()), more); |w.blocks| == 1 && w.stops == 0
  {
    var w := Run(Four(), Start(Four()), Hanging());
    hide Run, Step, Start, At;
    FourIs();
    HangingGoes(Four(), Start(Four()), Hanging());
    StartHasInv(Four());
    RunKeepsInv(Four(), Start(Four()), Hanging());
    var kept :| At(w, {L, A, B, C}, {L, A, B, C}, {L, A, B}, kept, false);
    NowHung(w, kept);
    HangsForever(Four(), w, C, more);
  }

  lemma OnlyVotes(w: World, kept: seq<NodeMsg>)
    requires At(w, {L, A, B, C}, {L, A, B, C}, {L, A, B}, kept, false)
    ensures forall m | m in w.msgs :: m.kind == Prepare && m.to != C
  {
    forall m | m in w.msgs ensures m.kind == Prepare && m.to != C {
      assert w.msgs[m] == UnderWay(m, {L, A, B, C}, {L, A, B, C}, {L, A, B});
    }
  }

  lemma NowHung(w: World, kept: seq<NodeMsg>)
    requires Inv(Four(), w) && At(w, {L, A, B, C}, {L, A, B, C}, {L, A, B}, kept, false)
    ensures Hung(Four(), w, C)
  {
    var s := Four();
    hide *;
    NowDeaf(w, kept);
    OneBlock(w, kept);
    IsTight();
    forall a | a in Foreign(s) && a != C ensures exists d :: Reached(s, w, C, a, d) {
      OtherForeign(a);
      NobodyReached(w, kept, a);
    }
    IsHung(s, w, C);
  }

  lemma IsTight()
    ensures Tight(Four()) && C in Foreign(Four())
  {
    FourIs();
  }

  lemma OtherForeign(a: NodeId)
    requires a in Foreign(Four()) && a != C
    ensures a in {A, B}
  {
    FourIs();
  }

  lemma IsHung(s: Setting, w: World, c: NodeId)
    requires Tight(s) && Inv(s, w) && |w.blocks| == 1 && w.stops == 0 && c in Foreign(s) && Deaf(s, w, c) && AllTold(s, w)
    requires forall a | a in Foreign(s) && a != c :: exists d :: Reached(s, w, c, a, d)
    ensures Hung(s, w, c)
  {
  }

  lemma OneBlock(w: World, kept: seq<NodeMsg>)
    requires At(w, {L, A, B, C}, {L, A, B, C}, {L, A, B}, kept, false)
    ensures w.stops == 0 && |w.blocks| == 1
  {
  }

  lemma NowDeaf(w: World, kept: seq<NodeMsg>)
    requires At(w, {L, A, B, C}, {L, A, B, C}, {L, A, B}, kept, false)
    ensures Deaf(Four(), w, C) && AllTold(Four(), w)
  {
    FourIs();
    OnlyVotes(w, kept);
    QuotaIs(Four());
    hide UnderWay, MsgsAre, Four, Quota;
  }

  lemma NobodyReached(w: World, kept: seq<NodeMsg>, a: NodeId)
    requires At(w, {L, A, B, C}, {L, A, B, C}, {L, A, B}, kept, false) && a in {A, B}
    ensures Reached(Four(), w, C, a, {})
  {
    FourIs();
    Distinct();
    OnlyVotes(w, kept);
    hide Four, UnderWay, MsgsAre, Full;
  }
}
