/** What the vote quorum decides: which shards elect at most one leader per term, and whom they elect. */
module RaftElections {
  import opened Sequences
  import opened Raft

  /** The quorum of the sharded protocol, and of the unsharded one once the seed node is struck off the members. */
  function ShardQuorum(n: nat): nat {
    n / 2
  }

  function WholeQuorum(n: nat): nat
    requires n > 0
  {
    (n - 1) / 2
  }

  lemma {:induction false} RunAppend(w: World, q1: nat, a: seq<Event>, b: seq<Event>)
    ensures Run(w, q1, a + b) == Run(Run(w, q1, a), q1, b)
    decreases |a|
  {
    if a == [] {
      assert a + b == b;
    } else {
      assert (a + b)[0] == a[0] && (a + b)[1..] == a[1..] + b;
      RunAppend(Step(w, q1, a[0]), q1, a[1..], b);
    }
  }

  /** With no confirmation asked for, nobody is ever elected: the count never meets the quorum. */
  lemma {:induction false} NoQuorumNoLeader(w: World, events: seq<Event>)
    ensures Run(w, 0, events).elected == w.elected
    decreases |events|
  {
    if events != [] {
      NoQuorumNoLeader(Step(w, 0, events[0]), events[1..]);
    }
  }

  /** v is asked by c, standing with this term and height, and c counts the answer. */
  function Support(c: Id, v: Id, term: nat, height: nat): seq<Event> {
    [Deliver(StartVote(c, v, term, height)), Deliver(Confirm(v, c, term))]
  }

  /** One voter after the other. */
  function Campaign(c: Id, vs: seq<Id>, term: nat, height: nat): seq<Event>
    decreases |vs|
  {
    if vs == [] then [] else Support(c, vs[0], term, height) + Campaign(c, vs[1..], term, height)
  }

  /** A node with an older term, an older last vote and no longer log. */
  predicate IsBehind(n: NodeState, term: nat, height: nat) {
    n.term < term && n.candiTerm < term && n.height <= height
  }

  predicate IsWaiting(w: World, c: Id, v: Id, term: nat, height: nat) {
    v < |w.nodes| && IsBehind(w.nodes[v], term, height) && StartVote(c, v, term, height) in w.msgs
  }

  predicate Waiting(w: World, c: Id, vs: seq<Id>, term: nat, height: nat) {
    forall v | v in vs :: IsWaiting(w, c, v, term, height)
  }

  predicate Standing(w: World, c: Id, term: nat, count: nat) {
    && c < |w.nodes| && w.nodes[c].term == term && w.nodes[c].role == Candidate
    && w.nodes[c].q1Term <= term && Count(w.nodes[c]) == count
  }

  /** Only c and the voters `vs` changed, and nobody else's requests were taken. */
  ghost predicate Apart(w: World, x: World, c: Id, vs: seq<Id>) {
    && |x.nodes| == |w.nodes|
    && (forall i | 0 <= i < |w.nodes| && i !in vs && i != c :: x.nodes[i] == w.nodes[i])
    && (forall m | m in w.msgs && m.StartVote? && m.to !in vs :: m in x.msgs)
    && w.elected <= x.elected
  }

  ghost predicate Leads(w: World, c: Id, term: nat) {
    c < |w.nodes| && w.nodes[c].role == Leader && w.nodes[c].term == term && Win(c, term) in w.elected
  }

  lemma SupportOne(w: World, q1: nat, c: Id, v: Id, term: nat, height: nat, count: nat)
    requires Standing(w, c, term, count) && count < q1 && IsWaiting(w, c, v, term, height) && c != v
    ensures var x := Run(w, q1, Support(c, v, term, height));
      Apart(w, x, c, [v]) && if count + 1 == q1 then Leads(x, c, term) else Standing(x, c, term, count + 1)
  {
    var ask, answer := StartVote(c, v, term, height), Confirm(v, c, term);
    var y := AskVote(w, ask);
    assert Step(w, q1, Support(c, v, term, height)[0]) == y;
    assert answer in y.msgs;
    assert Run(w, q1, Support(c, v, term, height)) == Run(y, q1, [Deliver(answer)]);
    assert Run(y, q1, [Deliver(answer)]) == Run(CountVote(y, answer, q1), q1, []);
  }

  /** Enough voters waiting, a candidate wins by asking one after the other. */
  lemma {:induction false} CampaignWins(w: World, q1: nat, c: Id, vs: seq<Id>, term: nat, height: nat)
    requires 0 < |vs| <= q1 && Standing(w, c, term, q1 - |vs|)
    requires NoRepeats(vs) && c !in vs && Waiting(w, c, vs, term, height)
    ensures var x := Run(w, q1, Campaign(c, vs, term, height)); Apart(w, x, c, vs) && Leads(x, c, term)
    decreases |vs|
  {
    var v, rest := vs[0], vs[1..];
    var y := Run(w, q1, Support(c, v, term, height));
    SupportOne(w, q1, c, v, term, height, q1 - |vs|);
    RunAppend(w, q1, Support(c, v, term, height), Campaign(c, rest, term, height));
    hide Run, Leads, Standing;
    RestApart(w, y, c, vs);
    if rest == [] {
      NoMore(y, q1);
    } else {
      StillWaiting(w, y, c, [v], c, rest, term, height);
      CampaignWins(y, q1, c, rest, term, height);
      ThenApart(w, y, Run(y, q1, Campaign(c, rest, term, height)), c, vs);
    }
  }

  lemma NoMore(w: World, q1: nat)
    ensures Run(w, q1, []) == w
  {
  }

  lemma RestApart(w: World, y: World, c: Id, vs: seq<Id>)
    requires vs != [] && NoRepeats(vs) && Apart(w, y, c, vs[..1])
    ensures forall v | v in vs[1..] :: v !in vs[..1]
    ensures vs[..1] == [vs[0]] && NoRepeats(vs[1..])
    ensures Apart(w, y, c, vs)
  {
  }

  lemma ThenApart(w: World, y: World, x: World, c: Id, vs: seq<Id>)
    requires vs != [] && Apart(w, y, c, vs[..1]) && Apart(y, x, c, vs[1..])
    ensures Apart(w, x, c, vs)
  {
  }

  /** One campaign leaves the voters of another, or its own later ones, waiting. */
  lemma StillWaiting(w: World, x: World, c: Id, vs: seq<Id>, d: Id, ws: seq<Id>, term: nat, height: nat)
    requires Apart(w, x, c, vs) && Waiting(w, d, ws, term, height)
    requires c !in ws && forall v | v in ws :: v !in vs
    ensures Waiting(x, d, ws, term, height)
  {
    forall v | v in ws ensures IsWaiting(x, d, v, term, height) {
      assert IsWaiting(w, d, v, term, height);
      assert StartVote(d, v, term, height).to !in vs;
    }
  }

  /** The events of a candidacy: standing, and asking `vs` one after the other. */
  function Candidacy(w: World, c: Id, vs: seq<Id>): seq<Event>
    requires c < |w.nodes|
  {
    [TimeOut(c)] + Campaign(c, vs, w.nodes[c].term + 1, w.nodes[c].height)
  }

  lemma NowStanding(w: World, q1: nat, c: Id, vs: seq<Id>)
    requires c < |w.nodes| && c !in vs && w.nodes[c].q1Term <= w.nodes[c].term
    requires forall v | v in vs :: v < |w.nodes| && IsBehind(w.nodes[v], w.nodes[c].term + 1, w.nodes[c].height)
    ensures var x := Step(w, q1, TimeOut(c));
      Standing(x, c, w.nodes[c].term + 1, 0) && Waiting(x, c, vs, w.nodes[c].term + 1, w.nodes[c].height)
  {
    var s := Stand(c, w.nodes[c].term + 1, w.nodes[c].height);
    forall v | v in vs ensures IsWaiting(Step(w, q1, TimeOut(c)), c, v, s.term, s.height) {
      assert StartVote(c, v, s.term, s.height) in Requests(|w.nodes|, s);
    }
  }

  /**
    Whoever is up to date can win: after any run, a node whose next term is above the terms and the last
    votes of enough others, and whose log is no shorter than theirs, leads that term once it stands and
    they are asked.
   */
  lemma UpToDateWins(n: nat, q1: nat, events: seq<Event>, c: Id, vs: seq<Id>)
    requires c < n && 0 < q1 == |vs| && NoRepeats(vs) && c !in vs
    requires var w := Run(Start(n), q1, events);
      && |w.nodes| == n
      && forall v | v in vs ::
           v < n && w.nodes[v].term <= w.nodes[c].term && w.nodes[v].candiTerm <= w.nodes[c].term
           && w.nodes[v].height <= w.nodes[c].height
    ensures var w := Run(Start(n), q1, events);
      Leads(Run(Start(n), q1, events + Candidacy(w, c, vs)), c, w.nodes[c].term + 1)
  {
    hide Run, Campaign, Leads, Standing, Waiting, Inv;
    var w := Run(Start(n), q1, events);
    StartHasInv(n, q1);
    RunKeepsInv(Start(n), q1, events);
    RunAppend(Start(n), q1, events, Candidacy(w, c, vs));
    var term, height := w.nodes[c].term + 1, w.nodes[c].height;
    CountsOwnTerm(w, q1, c);
    NowStanding(w, q1, c, vs);
    RunAppend(w, q1, [TimeOut(c)], Campaign(c, vs, term, height));
    RunOne(w, q1, TimeOut(c));
    CampaignWins(Step(w, q1, TimeOut(c)), q1, c, vs, term, height);
  }

  lemma CountsOwnTerm(w: World, q1: nat, c: Id)
    requires Inv(w, q1) && c < |w.nodes|
    ensures w.nodes[c].q1Term <= w.nodes[c].term
  {
    hide TermsBound, OneVote, Truthful;
    assert CountedRight(w, w.nodes[c], c);
  }

  lemma RunOne(w: World, q1: nat, e: Event)
    ensures Run(w, q1, [e]) == Step(w, q1, e)
  {
    assert [e][1..] == [];
  }

  /** A heartbeat ends a candidacy: until the node stands again it wins nothing, whatever confirmations come. */
  lemma HeartBeatEndsCandidacy(w: World, q1: nat, from: Id, c: Id, events: seq<Event>)
    requires c < |w.nodes| && TimeOut(c) !in events
    ensures forall x | x in Run(w, q1, [Beat(from, c)] + events).elected && x.node == c :: x in w.elected
  {
    RunAppend(w, q1, [Beat(from, c)], events);
    RunOne(w, q1, Beat(from, c));
    NoCandidateNoWin(Step(w, q1, Beat(from, c)), q1, c, events);
  }

  lemma {:induction false} NoCandidateNoWin(w: World, q1: nat, c: Id, events: seq<Event>)
    requires c < |w.nodes| && w.nodes[c].role != Candidate && TimeOut(c) !in events
    ensures forall x | x in Run(w, q1, events).elected && x.node == c :: x in w.elected
    decreases |events|
  {
    if events != [] {
      var y := Step(w, q1, events[0]);
      StaysDown(w, q1, c, events[0]);
      hide Step;
      NoCandidateNoWin(y, q1, c, events[1..]);
    }
  }

  lemma StaysDown(w: World, q1: nat, c: Id, e: Event)
    requires c < |w.nodes| && w.nodes[c].role != Candidate && e != TimeOut(c)
    ensures var y := Step(w, q1, e);
      && |y.nodes| == |w.nodes| && y.nodes[c].role != Candidate
      && forall x | x in y.elected && x.node == c :: x in w.elected
  {
  }

  /** Ids lo to lo + k. */
  function Block(lo: Id, k: nat): (vs: seq<Id>)
    ensures |vs| == k && (forall a | 0 <= a < k :: vs[a] == lo + a)
    ensures NoRepeats(vs) && forall v :: v in vs <==> lo <= v < lo + k
  {
    if k == 0 then [] else Block(lo, k - 1) + [lo + k - 1]
  }

  /** Half the shard's votes for node 0, half for node 1. */
  function Rivals(q1: nat): seq<Event> {
    [TimeOut(0), TimeOut(1)] + (Campaign(0, Block(2, q1), 1, 0) + Campaign(1, Block(2 + q1, q1), 1, 0))
  }

  lemma BothStand(n: nat, q1: nat)
    requires 2 <= n
    ensures var w := Run(Start(n), q1, [TimeOut(0), TimeOut(1)]);
      && |w.nodes| == n && Standing(w, 0, 1, 0) && Standing(w, 1, 1, 0)
      && forall v: Id | 2 <= v < n :: IsWaiting(w, 0, v, 1, 0) && IsWaiting(w, 1, v, 1, 0)
  {
    var a := StandUp(Start(n), 0);
    var b := StandUp(a, 1);
    assert Run(Start(n), q1, [TimeOut(0), TimeOut(1)]) == Run(a, q1, [TimeOut(1)]) == Run(b, q1, []) == b;
    forall v: Id | 2 <= v < n ensures IsWaiting(b, 0, v, 1, 0) && IsWaiting(b, 1, v, 1, 0) {
      assert StartVote(0, v, 1, 0) in Requests(n, Stand(0, 1, 0));
      assert StartVote(1, v, 1, 0) in Requests(n, Stand(1, 1, 0));
    }
  }

  /** A quorum that half the shard meets lets two nodes win the same term. */
  lemma TwoLeaders(n: nat, q1: nat)
    requires 0 < q1 && 2 * (q1 + 1) <= n
    ensures !OneLeaderPerTerm(Run(Start(n), q1, Rivals(q1)))
  {
    hide Run, Campaign, Standing, OneLeaderPerTerm;
    var w := Run(Start(n), q1, [TimeOut(0), TimeOut(1)]);
    var us, vs := Block(2, q1), Block(2 + q1, q1);
    BothStand(n, q1);
    RunAppend(Start(n), q1, [TimeOut(0), TimeOut(1)], Campaign(0, us, 1, 0) + Campaign(1, vs, 1, 0));
    RunAppend(w, q1, Campaign(0, us, 1, 0), Campaign(1, vs, 1, 0));
    CampaignWins(w, q1, 0, us, 1, 0);
    var x := Run(w, q1, Campaign(0, us, 1, 0));
    StillWaiting(w, x, 0, us, 1, vs, 1, 0);
    StillStanding(w, x, 0, us, 1, 1, 0);
    CampaignWins(x, q1, 1, vs, 1, 0);
    TwoWins(Run(Start(n), q1, Rivals(q1)));
  }

  lemma StillStanding(w: World, x: World, c: Id, vs: seq<Id>, d: Id, term: nat, count: nat)
    requires Apart(w, x, c, vs) && d !in vs && d != c && Standing(w, d, term, count)
    ensures Standing(x, d, term, count)
  {
  }

  lemma TwoWins(w: World)
    requires Win(0, 1) in w.elected && Win(1, 1) in w.elected
    ensures !OneLeaderPerTerm(w)
  {
  }

  /** Which quorums give election safety, over every run: those above half, and the one nobody meets. */
  lemma SafeExactly(n: nat, q1: nat)
    ensures (forall events: seq<Event> :: OneLeaderPerTerm(Run(Start(n), q1, events)))
       <==> q1 == 0 || 2 * (q1 + 1) > n
  {
    if q1 == 0 {
      forall events: seq<Event> ensures OneLeaderPerTerm(Run(Start(n), q1, events)) {
        NoQuorumNoLeader(Start(n), events);
      }
    } else if 2 * (q1 + 1) > n {
      forall events: seq<Event> ensures OneLeaderPerTerm(Run(Start(n), q1, events)) {
        ElectionSafety(n, q1, events);
      }
    } else {
      TwoLeaders(n, q1);
    }
  }

  /** The sharded protocol elects at most one leader per term, in every run of a shard of any size. */
  lemma ShardElectionSafety(n: nat, events: seq<Event>)
    ensures OneLeaderPerTerm(Run(Start(n), ShardQuorum(n), events))
  {
    ElectionSafety(n, ShardQuorum(n), events);
  }

  /** The unsharded protocol does so exactly for odd sizes, and for two nodes, where nobody is ever elected. */
  lemma WholeElectionSafety(n: nat)
    requires n > 0
    ensures (forall events: seq<Event> :: OneLeaderPerTerm(Run(Start(n), WholeQuorum(n), events)))
       <==> n % 2 == 1 || n == 2
  {
    SafeExactly(n, WholeQuorum(n));
  }

  /** A winner's log, when it stood, was no shorter than each of its voters' logs when they voted. */
  lemma WinnerIsUpToDate(n: nat, q1: nat, events: seq<Event>, x: Win)
    requires x in Run(Start(n), q1, events).elected
    ensures var w := Run(Start(n), q1, events);
      exists s :: s in w.stood && s.node == x.node && s.term == x.term
        && |Camp(w, x.node, x.term)| >= q1 + 1
        && forall v | v in Camp(w, x.node, x.term) && v != x.node ::
             exists h: nat :: h <= s.height && Vote(v, x.node, x.term, h) in w.votes
  {
    StartHasInv(n, q1);
    RunKeepsInv(Start(n), q1, events);
    var w := Run(Start(n), q1, events);
    hide Run;
    CampSize(w, q1, x);
    var s :| s in w.stood && s.node == x.node && s.term == x.term;
    forall v | v in Camp(w, x.node, x.term) && v != x.node
      ensures exists h: nat :: h <= s.height && Vote(v, x.node, x.term, h) in w.votes
    {
      VoterBehind(w, v, x, s);
    }
  }

  lemma VoterBehind(w: World, v: Id, x: Win, s: Stand)
    requires OneVote(w) && Truthful(w) && HasVoted(w, v, x.node, x.term)
    requires s in w.stood && s.node == x.node && s.term == x.term
    ensures exists h: nat :: h <= s.height && Vote(v, x.node, x.term, h) in w.votes
  {
    var b :| b in w.votes && b.voter == v && b.candidate == x.node && b.term == x.term;
    assert b == Vote(v, x.node, x.term, b.height);
  }
}
