/** Leader election inside a shard: the node's handlers, and every run of a shard of them. */
module Raft {
  import opened Sequences

  type Id = nat

  datatype Role = Follower | Candidate | Leader

  /** The vote last given is (candiId, candiTerm); q1Count counts confirmations of term q1Term. */
  datatype NodeState = NodeState(
    term: nat, role: Role, candiTerm: nat, candiId: Id, q1Count: nat, q1Term: nat, height: nat, leader: Id)

  const FRESH := NodeState(0, Follower, 0, 0, 0, 0, 0, 0)

  function TimedOut(n: NodeState): NodeState {
    n.(role := Candidate, term := n.term + 1)
  }

  /** A vote needs a term above the own and above the last vote's, and a log that is not behind. */
  predicate Grants(n: NodeState, term: nat, height: nat) {
    term > n.term && height >= n.height && term > n.candiTerm
  }

  function Voted(n: NodeState, from: Id, term: nat): NodeState {
    n.(term := term, candiTerm := term, candiId := from)
  }

  /** Confirmations counted for the current term before the next one. */
  function Count(n: NodeState): nat {
    if n.q1Term < n.term then 0 else n.q1Count
  }

  predicate Elects(n: NodeState, term: nat, q1: nat) {
    term >= n.term && Count(n) + 1 == q1 && n.role == Candidate
  }

  function Confirmed(n: NodeState, term: nat, q1: nat): NodeState {
    if term < n.term then n
    else
      n.(q1Term := if n.q1Term < n.term then n.term else n.q1Term,
         q1Count := if Count(n) < q1 then Count(n) + 1 else Count(n),
         role := if Elects(n, term, q1) then Leader else n.role)
  }

  function Beaten(n: NodeState, from: Id): NodeState {
    n.(leader := from, role := if n.role == Candidate then Follower else n.role)
  }

  class RaftNode {
    var term: nat
    var role: Role
    var candiTerm: nat
    var candiId: Id
    var q1Count: nat
    var q1Term: nat
    var height: nat
    var leader: Id

    function State(): NodeState
      reads this
    {
      NodeState(term, role, candiTerm, candiId, q1Count, q1Term, height, leader)
    }

    constructor ()
      ensures State() == FRESH
    {
      term, role, candiTerm, candiId, q1Count, q1Term, height, leader := 0, Follower, 0, 0, 0, 0, 0, 0;
    }

    /** Stand for election; the term and height are broadcast with the vote request. */
    method HeartBeatTimeOutDetection() returns (askTerm: nat, askHeight: nat)
      modifies this
      ensures State() == TimedOut(old(State()))
      ensures askTerm == term && askHeight == height
    {
      role := Candidate;
      term := term + 1;
      return term, height;
    }

    /** Whether a confirmation for `msgTerm` is sent back. */
    method RespondStartVote(from: Id, msgTerm: nat, msgHeight: nat) returns (confirm: bool)
      modifies this
      ensures confirm <==> Grants(old(State()), msgTerm, msgHeight)
      ensures State() == if confirm then Voted(old(State()), from, msgTerm) else old(State())
    {
      if msgTerm > term && msgHeight >= height && msgTerm > candiTerm {
        term := msgTerm;
        candiTerm := msgTerm;
        candiId := from;
        return true;
      }
      return false;
    }

    /** One confirmation taken from the channel; `done` ends the counting. */
    method CheckConfirmStartVote(msgTerm: nat, q1: nat) returns (elected: bool, done: bool)
      modifies this
      ensures State() == Confirmed(old(State()), msgTerm, q1)
      ensures elected <==> Elects(old(State()), msgTerm, q1)
      ensures done <==> msgTerm >= old(term) && Count(old(State())) + 1 == q1
    {
      elected, done := false, false;
      if msgTerm < term { return; }
      if q1Term < term {
        q1Count := 0;
        q1Term := term;
      }
      if q1Count < q1 {
        q1Count := q1Count + 1;
        if q1Count == q1 {
          done := true;
          if role == Candidate {
            elected := true;
            role := Leader;
          }
        }
      }
    }

    method HeartBeat(from: Id)
      modifies this
      ensures State() == Beaten(old(State()), from)
    {
      leader := from;
      if role == Candidate {
        role := Follower;
      }
    }
  }

  datatype Msg = StartVote(from: Id, to: Id, term: nat, height: nat) | Confirm(from: Id, to: Id, term: nat)

  datatype Stand = Stand(node: Id, term: nat, height: nat)
  datatype Vote = Vote(voter: Id, candidate: Id, term: nat, height: nat)
  datatype Win = Win(node: Id, term: nat)

  /** The shard, the messages under way, and what has ever happened in it. */
  datatype World = World(
    nodes: seq<NodeState>, msgs: set<Msg>,
    stood: set<Stand>, votes: set<Vote>, counted: set<Msg>, elected: set<Win>)

  datatype Event =
    | TimeOut(node: Id)
    | Deliver(msg: Msg)
    | Beat(from: Id, to: Id)
    | Mine(node: Id, height: nat)

  function Start(n: nat): World {
    World(seq(n, i => FRESH), {}, {}, {}, {}, {})
  }

  function Requests(n: nat, s: Stand): set<Msg> {
    set to | 0 <= to < n && to != s.node :: StartVote(s.node, to, s.term, s.height)
  }

  function StandUp(w: World, i: Id): World
    requires i < |w.nodes|
  {
    var n := TimedOut(w.nodes[i]);
    var s := Stand(i, n.term, n.height);
    w.(nodes := w.nodes[i := n], msgs := w.msgs + Requests(|w.nodes|, s), stood := w.stood + {s})
  }

  function AskVote(w: World, m: Msg): World
    requires m.StartVote? && m.to < |w.nodes|
  {
    var n := w.nodes[m.to];
    if Grants(n, m.term, m.height) then
      w.(nodes := w.nodes[m.to := Voted(n, m.from, m.term)],
         msgs := w.msgs - {m} + {Confirm(m.to, m.from, m.term)},
         votes := w.votes + {Vote(m.to, m.from, m.term, n.height)})
    else
      w.(msgs := w.msgs - {m})
  }

  function CountVote(w: World, m: Msg, q1: nat): World
    requires m.Confirm? && m.to < |w.nodes|
  {
    var n := w.nodes[m.to];
    w.(nodes := w.nodes[m.to := Confirmed(n, m.term, q1)],
       msgs := w.msgs - {m},
       counted := w.counted + {m},
       elected := w.elected + if Elects(n, m.term, q1) then {Win(m.to, n.term)} else {})
  }

  /** Any event may come at any time, in any order; what cannot happen changes nothing. */
  function Step(w: World, q1: nat, e: Event): World {
    match e
    case TimeOut(i) => if i < |w.nodes| then StandUp(w, i) else w
    case Deliver(m) =>
      if m !in w.msgs || m.to >= |w.nodes| then w
      else if m.StartVote? then AskVote(w, m)
      else CountVote(w, m, q1)
    case Beat(from, to) => if to < |w.nodes| then w.(nodes := w.nodes[to := Beaten(w.nodes[to], from)]) else w
    case Mine(i, h) =>
      if i < |w.nodes| && h > w.nodes[i].height then w.(nodes := w.nodes[i := w.nodes[i].(height := h)]) else w
  }

  function Run(w: World, q1: nat, events: seq<Event>): World
    decreases |events|
  {
    if events == [] then w else Run(Step(w, q1, events[0]), q1, events[1..])
  }

  /** The confirmations node c has counted in a term. */
  function Backers(w: World, c: Id, term: nat): set<Msg> {
    set m | m in w.counted && m.Confirm? && m.to == c && m.term == term
  }

  predicate HasStood(w: World, c: Id, term: nat) {
    exists s :: s in w.stood && s.node == c && s.term == term
  }

  predicate HasVoted(w: World, v: Id, c: Id, term: nat) {
    exists x :: x in w.votes && x.voter == v && x.candidate == c && x.term == term
  }

  /** Terms only grow, and a node's history lies within its term. */
  ghost predicate TermsBound(w: World) {
    && (forall s | s in w.stood :: s.node < |w.nodes| && s.term <= w.nodes[s.node].term)
    && (forall x | x in w.votes :: x.voter < |w.nodes| && x.term <= w.nodes[x.voter].term)
  }

  /** In each term a node votes at most once, and only if it does not stand. */
  ghost predicate OneVote(w: World) {
    && (forall x, y | x in w.votes && y in w.votes && x.voter == y.voter && x.term == y.term :: x == y)
    && (forall x, s | x in w.votes && s in w.stood && x.voter == s.node :: x.term != s.term)
    && (forall s, z | s in w.stood && z in w.stood && s.node == z.node && s.term == z.term :: s == z)
  }

  /** Messages tell the truth about stands and votes. */
  ghost predicate Truthful(w: World) {
    && (forall m | m in w.msgs && m.StartVote? :: Stand(m.from, m.term, m.height) in w.stood)
    && (forall m | m in w.msgs + w.counted && m.Confirm? :: HasVoted(w, m.from, m.to, m.term))
    && (forall m | m in w.msgs && m.Confirm? :: m !in w.counted)
    && (forall x | x in w.votes ::
          exists s :: s in w.stood && s.node == x.candidate && s.term == x.term && x.height <= s.height)
  }

  /** A count never exceeds the confirmations counted; a winner has counted enough. */
  ghost predicate Tallied(w: World, q1: nat) {
    && (forall i | 0 <= i < |w.nodes| :: CountedRight(w, w.nodes[i], i))
    && (forall x | x in w.elected :: Backed(w, q1, x))
  }

  ghost predicate CountedRight(w: World, n: NodeState, i: Id) {
    n.q1Term <= n.term && Count(n) <= |Backers(w, i, n.term)|
  }

  ghost predicate Backed(w: World, q1: nat, x: Win) {
    HasStood(w, x.node, x.term) && |Backers(w, x.node, x.term)| >= q1
  }

  ghost predicate Inv(w: World, q1: nat) {
    TermsBound(w) && OneVote(w) && Truthful(w) && Tallied(w, q1)
  }

  lemma StandBounds(w: World, i: Id)
    requires TermsBound(w) && OneVote(w) && i < |w.nodes|
    ensures TermsBound(StandUp(w, i)) && OneVote(StandUp(w, i))
  {
  }

  lemma StandTruthful(w: World, i: Id)
    requires Truthful(w) && i < |w.nodes|
    ensures Truthful(StandUp(w, i))
  {
    var x := StandUp(w, i);
    forall m | m in x.msgs + x.counted && m.Confirm? ensures HasVoted(x, m.from, m.to, m.term) {
      assert HasVoted(w, m.from, m.to, m.term);
    }
  }

  lemma StandTallied(w: World, q1: nat, i: Id)
    requires Tallied(w, q1) && i < |w.nodes|
    ensures Tallied(StandUp(w, i), q1)
  {
    var x := StandUp(w, i);
    forall c, t ensures Backers(x, c, t) == Backers(w, c, t) {}
    forall c, t | HasStood(w, c, t) ensures HasStood(x, c, t) {}
  }

  lemma AskBounds(w: World, m: Msg)
    requires TermsBound(w) && OneVote(w) && m.StartVote? && m.to < |w.nodes|
    ensures TermsBound(AskVote(w, m)) && OneVote(AskVote(w, m))
  {
  }

  lemma AskTruthful(w: World, m: Msg)
    requires TermsBound(w) && Truthful(w) && m in w.msgs && m.StartVote? && m.to < |w.nodes|
    ensures Truthful(AskVote(w, m))
  {
    var x := AskVote(w, m);
    forall c | c in x.msgs + x.counted && c.Confirm? ensures HasVoted(x, c.from, c.to, c.term) {
      if c in w.msgs + w.counted {
        assert HasVoted(w, c.from, c.to, c.term);
      } else {
        assert Vote(m.to, m.from, m.term, w.nodes[m.to].height) in x.votes;
      }
    }
    forall c | c in w.counted && c.Confirm? ensures c != Confirm(m.to, m.from, m.term) || !Grants(w.nodes[m.to], m.term, m.height) {
      assert HasVoted(w, c.from, c.to, c.term);
    }
  }

  lemma AskTallied(w: World, q1: nat, m: Msg)
    requires Tallied(w, q1) && m.StartVote? && m.to < |w.nodes|
    ensures Tallied(AskVote(w, m), q1)
  {
    var x := AskVote(w, m);
    forall c, t ensures Backers(x, c, t) == Backers(w, c, t) {}
    forall c, t | HasStood(w, c, t) ensures HasStood(x, c, t) {}
  }

  lemma CountBounds(w: World, m: Msg, q1: nat)
    requires TermsBound(w) && OneVote(w) && m.Confirm? && m.to < |w.nodes|
    ensures TermsBound(CountVote(w, m, q1)) && OneVote(CountVote(w, m, q1))
  {
  }

  lemma CountTruthful(w: World, m: Msg, q1: nat)
    requires Truthful(w) && m in w.msgs && m.Confirm? && m.to < |w.nodes|
    ensures Truthful(CountVote(w, m, q1))
  {
    var x := CountVote(w, m, q1);
    forall c | c in x.msgs + x.counted && c.Confirm? ensures HasVoted(x, c.from, c.to, c.term) {
      assert HasVoted(w, c.from, c.to, c.term);
    }
  }

  /** A confirmation is of a term its receiver stood in, so never above the receiver's term. */
  lemma ConfirmedTerm(w: World, m: Msg)
    requires TermsBound(w) && Truthful(w) && m in w.msgs && m.Confirm? && m.to < |w.nodes|
    ensures HasStood(w, m.to, m.term) && m.term <= w.nodes[m.to].term
  {
    assert HasVoted(w, m.from, m.to, m.term);
  }

  lemma CountBackers(w: World, m: Msg, q1: nat, c: Id, t: nat)
    requires m !in w.counted && m.Confirm? && m.to < |w.nodes|
    ensures Backers(CountVote(w, m, q1), c, t)
      == if c == m.to && t == m.term then Backers(w, c, t) + {m} else Backers(w, c, t)
    ensures |Backers(CountVote(w, m, q1), c, t)|
      == if c == m.to && t == m.term then |Backers(w, c, t)| + 1 else |Backers(w, c, t)|
  {
  }

  lemma CountTallied(w: World, m: Msg, q1: nat)
    requires TermsBound(w) && Truthful(w) && Tallied(w, q1) && m in w.msgs && m.Confirm? && m.to < |w.nodes|
    ensures Tallied(CountVote(w, m, q1), q1)
  {
    ConfirmedTerm(w, m);
    assert m !in w.counted;
    var x := CountVote(w, m, q1);
    hide Truthful, TermsBound, Backed, CountedRight;
    forall i | 0 <= i < |w.nodes| ensures CountedRight(x, x.nodes[i], i) {
      CountedStays(w, m, q1, i);
    }
    forall z | z in x.elected ensures Backed(x, q1, z) {
      BackedStays(w, m, q1, z);
    }
  }

  lemma CountedStays(w: World, m: Msg, q1: nat, i: Id)
    requires m.Confirm? && m !in w.counted && m.to < |w.nodes| && m.term <= w.nodes[m.to].term
    requires i < |w.nodes| && CountedRight(w, w.nodes[i], i)
    ensures CountedRight(CountVote(w, m, q1), CountVote(w, m, q1).nodes[i], i)
  {
    CountBackers(w, m, q1, i, w.nodes[i].term);
    hide Backers;
  }

  lemma BackedStays(w: World, m: Msg, q1: nat, z: Win)
    requires m.Confirm? && m !in w.counted && m.to < |w.nodes| && m.term <= w.nodes[m.to].term
    requires HasStood(w, m.to, m.term) && CountedRight(w, w.nodes[m.to], m.to)
    requires z in CountVote(w, m, q1).elected && (z in w.elected ==> Backed(w, q1, z))
    ensures Backed(CountVote(w, m, q1), q1, z)
  {
    CountBackers(w, m, q1, z.node, z.term);
    hide Backers;
  }

  lemma StepKeepsInv(w: World, q1: nat, e: Event)
    requires Inv(w, q1)
    ensures Inv(Step(w, q1, e), q1) && |Step(w, q1, e).nodes| == |w.nodes|
  {
    var x := Step(w, q1, e);
    match e
    case TimeOut(i) =>
      if i < |w.nodes| {
        StandBounds(w, i);
        StandTruthful(w, i);
        StandTallied(w, q1, i);
      }
    case Deliver(m) =>
      if m in w.msgs && m.to < |w.nodes| {
        if m.StartVote? {
          AskBounds(w, m);
          AskTruthful(w, m);
          AskTallied(w, q1, m);
        } else {
          CountBounds(w, m, q1);
          CountTruthful(w, m, q1);
          CountTallied(w, m, q1);
        }
      }
    case Beat(from, to) => SameHistory(w, x, q1);
    case Mine(i, h) => SameHistory(w, x, q1);
  }

  lemma SameHistory(w: World, x: World, q1: nat)
    requires Inv(w, q1) && x == w.(nodes := x.nodes) && |x.nodes| == |w.nodes|
    requires forall i | 0 <= i < |w.nodes| ::
      x.nodes[i].term == w.nodes[i].term && x.nodes[i].q1Term == w.nodes[i].q1Term && x.nodes[i].q1Count == w.nodes[i].q1Count
    ensures Inv(x, q1)
  {
    forall c, t ensures Backers(x, c, t) == Backers(w, c, t) {}
    forall c, t ensures HasStood(x, c, t) <==> HasStood(w, c, t) {}
    forall v, c, t ensures HasVoted(x, v, c, t) <==> HasVoted(w, v, c, t) {}
  }

  lemma {:induction false} RunKeepsInv(w: World, q1: nat, events: seq<Event>)
    requires Inv(w, q1)
    ensures Inv(Run(w, q1, events), q1) && |Run(w, q1, events).nodes| == |w.nodes|
    decreases |events|
  {
    if events != [] {
      StepKeepsInv(w, q1, events[0]);
      RunKeepsInv(Step(w, q1, events[0]), q1, events[1..]);
    }
  }

  lemma StartHasInv(n: nat, q1: nat)
    ensures Inv(Start(n), q1)
  {
  }

  /** The nodes behind a winner: its voters and itself. */
  function Camp(w: World, c: Id, term: nat): set<Id> {
    (set m | m in Backers(w, c, term) :: m.from) + {c}
  }

  lemma {:induction false} SendersSize(ms: set<Msg>)
    requires forall x, y | x in ms && y in ms && x.from == y.from :: x == y
    ensures |set m | m in ms :: m.from| == |ms|
  {
    if ms != {} {
      var m :| m in ms;
      SendersSize(ms - {m});
      assert (set k | k in ms :: k.from) == (set k | k in ms - {m} :: k.from) + {m.from};
    }
  }

  lemma CampSize(w: World, q1: nat, x: Win)
    requires Inv(w, q1) && x in w.elected
    ensures |Camp(w, x.node, x.term)| >= q1 + 1
    ensures forall v | v in Camp(w, x.node, x.term) && v != x.node :: HasVoted(w, v, x.node, x.term)
    ensures HasStood(w, x.node, x.term)
    ensures forall v | v in Camp(w, x.node, x.term) :: v < |w.nodes|
  {
    var ms := Backers(w, x.node, x.term);
    forall m | m in ms ensures HasVoted(w, m.from, x.node, x.term) && m.from < |w.nodes| {
      assert m in w.msgs + w.counted;
    }
    forall a, b | a in ms && b in ms && a.from == b.from ensures a == b {
      assert a == Confirm(b.from, x.node, x.term);
    }
    SendersSize(ms);
    assert x.node !in (set m | m in ms :: m.from);
  }

  ghost predicate OneLeaderPerTerm(w: World) {
    forall x, y | x in w.elected && y in w.elected && x.term == y.term :: x == y
  }

  function Ids(n: nat): (s: set<Id>)
    ensures |s| == n
    ensures forall i: nat :: i in s <==> i < n
  {
    if n == 0 then {} else Ids(n - 1) + {n - 1}
  }

  lemma InvOneLeader(w: World, q1: nat)
    requires Inv(w, q1) && 2 * (q1 + 1) > |w.nodes|
    ensures OneLeaderPerTerm(w)
  {
    forall x, y | x in w.elected && y in w.elected && x.term == y.term ensures x == y {
      CampSize(w, q1, x);
      CampSize(w, q1, y);
      var a, b := Camp(w, x.node, x.term), Camp(w, y.node, y.term);
      Overlap(a, b, Ids(|w.nodes|));
      var v :| v in a * b;
      if x.node != y.node {
        BothSides(w, v, x, y);
      }
    }
  }

  /** Nobody is in two camps of one term. */
  lemma BothSides(w: World, v: Id, x: Win, y: Win)
    requires OneVote(w) && x.term == y.term && HasStood(w, x.node, x.term) && HasStood(w, y.node, y.term)
    requires v == x.node || HasVoted(w, v, x.node, x.term)
    requires v == y.node || HasVoted(w, v, y.node, y.term)
    ensures x.node == y.node
  {
  }

  /** Election safety: in every run, with a quorum above half, a term has at most one leader. */
  lemma ElectionSafety(n: nat, q1: nat, events: seq<Event>)
    requires 2 * (q1 + 1) > n
    ensures OneLeaderPerTerm(Run(Start(n), q1, events))
  {
    StartHasInv(n, q1);
    RunKeepsInv(Start(n), q1, events);
    InvOneLeader(Run(Start(n), q1, events), q1);
  }
}
