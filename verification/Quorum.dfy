/** The vote counter: one round at a time, later rounds' messages kept for when their round comes. */
module Quorums {

  datatype NodeId = NodeId(shard: nat, num: nat)

  datatype Kind = PrePrepare | Prepare | Commit | Finality

  datatype NodeMsg = NodeMsg(kind: Kind, from: NodeId, to: NodeId, height: nat)

  /** The counter's value; `finality` tells the counters that need f + 1 votes from those that need 2f + 1. */
  datatype Counter = Counter(finality: bool, latest: nat, votes: int, buffer: seq<NodeMsg>)

  function Threshold(finality: bool, f: real, total: nat): int {
    var malicious := (total as real * f).Floor;
    if finality then malicious + 1 else 2 * malicious + 1
  }

  /** The messages of round `h` or later, in order. */
  function Kept(buffer: seq<NodeMsg>, h: nat): seq<NodeMsg> {
    if buffer == [] then []
    else
      var last := buffer[|buffer| - 1];
      Kept(buffer[..|buffer| - 1], h) + if last.height >= h then [last] else []
  }

  /** How many messages of `buffer` are of round `h`. */
  function Of(buffer: seq<NodeMsg>, h: nat): nat {
    if buffer == [] then 0
    else Of(buffer[..|buffer| - 1], h) + if buffer[|buffer| - 1].height == h then 1 else 0
  }

  function Reset(c: Counter, h: nat): Counter {
    c.(latest := h, votes := 0, buffer := Kept(c.buffer, h))
  }

  function Least(a: int, b: int): int {
    if a <= b then a else b
  }

  /** A vote of the current round brings in the buffered ones of that round as well, each time. */
  function Handled(c: Counter, q: int, m: NodeMsg): Counter {
    if m.height == c.latest then
      if c.votes < q then c.(votes := Least(q, c.votes + 1 + Of(c.buffer, c.latest))) else c
    else if m.height > c.latest then c.(buffer := c.buffer + [m])
    else c
  }

  /** This message completes the quorum. */
  predicate Completes(c: Counter, q: int, m: NodeMsg) {
    m.height == c.latest && c.votes < q && c.votes + 1 + Of(c.buffer, c.latest) >= q
  }

  const ALREADY_MET: int := 1024
  const LATER_ROUND: int := 1025

  class Quorum {
    const finality: bool
    var latestProposalNum: nat
    var voteCount: int
    var finish: bool
    var msgBuffer: seq<NodeMsg>

    function State(): Counter
      reads this
    {
      Counter(finality, latestProposalNum, voteCount, msgBuffer)
    }

    constructor (finality: bool)
      ensures State() == Counter(finality, 0, 0, []) && !finish && this.finality == finality
    {
      this.finality, latestProposalNum, voteCount, finish, msgBuffer := finality, 0, 0, false, [];
    }

    method ResetCount(proposalNum: nat)
      modifies this
      ensures State() == Reset(old(State()), proposalNum) && !finish
    {
      latestProposalNum := proposalNum;
      voteCount := 0;
      finish := false;
      if msgBuffer != [] {
        var kept := [];
        for i := 0 to |msgBuffer|
          invariant kept == Kept(msgBuffer[..i], proposalNum)
        {
          assert msgBuffer[..i + 1][..i] == msgBuffer[..i];
          if msgBuffer[i].height >= proposalNum {
            kept := kept + [msgBuffer[i]];
          }
        }
        assert msgBuffer[..|msgBuffer|] == msgBuffer;
        msgBuffer := kept;
      }
    }

    /** The code tells the threshold, a quorum met before, or a message of a later round. */
    method Handle(f: real, total: nat, m: NodeMsg) returns (done: bool, code: int)
      modifies this`voteCount, this`msgBuffer
      ensures var q := Threshold(finality, f, total);
        && State() == Handled(old(State()), q, m)
        && (done <==> Completes(old(State()), q, m))
        && code == if m.height > latestProposalNum then LATER_ROUND
                   else if m.height == latestProposalNum && old(voteCount) >= q then ALREADY_MET
                   else q
    {
      var malicious := (total as real * f).Floor;
      var q := if finality then malicious + 1 else 2 * malicious + 1;
      if m.height == latestProposalNum {
        if voteCount >= q { return false, ALREADY_MET; }
        voteCount := voteCount + 1;
        if voteCount == q { return true, q; }
        ghost var before := voteCount;
        var buffer := msgBuffer;
        for i := 0 to |buffer|
          invariant msgBuffer == buffer
          invariant voteCount == before + Of(buffer[..i], latestProposalNum) && voteCount < q
        {
          assert buffer[..i + 1][..i] == buffer[..i];
          if buffer[i].height == latestProposalNum {
            voteCount := voteCount + 1;
            if voteCount == q {
              OfMonotone(buffer, latestProposalNum, i + 1);
              return true, q;
            }
          }
        }
        assert buffer[..|buffer|] == buffer;
        return false, q;
      } else if m.height > latestProposalNum {
        msgBuffer := msgBuffer + [m];
        return false, LATER_ROUND;
      }
      return false, q;
    }
  }

  lemma {:induction false} OfMonotone(b: seq<NodeMsg>, h: nat, i: nat)
    requires i <= |b|
    ensures Of(b[..i], h) <= Of(b, h)
  {
    if i == |b| {
      assert b[..i] == b;
    } else {
      assert b[..|b| - 1][..i] == b[..i];
      OfMonotone(b[..|b| - 1], h, i);
    }
  }

  lemma OfSnoc(b: seq<NodeMsg>, m: NodeMsg, h: nat)
    ensures Of(b + [m], h) == Of(b, h) + if m.height == h then 1 else 0
    ensures Kept(b + [m], h) == Kept(b, h) + if m.height >= h then [m] else []
  {
    assert (b + [m])[..|b|] == b;
  }

  /** Resetting drops exactly the earlier rounds' messages ... */
  lemma {:induction false} KeptExactly(b: seq<NodeMsg>, h: nat, m: NodeMsg)
    ensures multiset(Kept(b, h))[m] == if m.height >= h then multiset(b)[m] else 0
  {
    if b != [] {
      var n := |b| - 1;
      KeptExactly(b[..n], h, m);
      assert b == b[..n] + [b[n]];
    }
  }

  /** ... and keeps the order of the rest. */
  lemma {:induction false} KeptInOrder(a: seq<NodeMsg>, b: seq<NodeMsg>, h: nat)
    ensures Kept(a + b, h) == Kept(a, h) + Kept(b, h)
  {
    if b == [] {
      assert a + b == a;
    } else {
      var n := |b| - 1;
      KeptInOrder(a, b[..n], h);
      assert a + b == (a + b[..n]) + [b[n]];
      OfSnoc(a + b[..n], b[n], h);
    }
  }

  lemma {:induction false} KeptCount(b: seq<NodeMsg>, h: nat, g: nat)
    ensures Of(Kept(b, h), g) == if g >= h then Of(b, g) else 0
  {
    if b != [] {
      var n := |b| - 1;
      KeptCount(b[..n], h, g);
      assert Kept(b[..n], h) + [] == Kept(b[..n], h);
      OfSnoc(Kept(b[..n], h), b[n], g);
    }
  }

  function HandledAll(c: Counter, q: int, ms: seq<NodeMsg>): Counter {
    if ms == [] then c else Handled(HandledAll(c, q, ms[..|ms| - 1]), q, ms[|ms| - 1])
  }

  /** How often success was reported. */
  function Successes(c: Counter, q: int, ms: seq<NodeMsg>): nat {
    if ms == [] then 0
    else
      var n := |ms| - 1;
      Successes(c, q, ms[..n]) + if Completes(HandledAll(c, q, ms[..n]), q, ms[n]) then 1 else 0
  }

  /**
    Between two resets, whatever arrives: k messages of the round, with b of them in the buffer at
    the reset, give min(q, k * (1 + b)) votes. So success is reported at most once, at the first k
    that reaches the threshold this way, and the buffer only grows by later rounds' messages.
   */
  lemma {:induction false} VotesExactly(c: Counter, q: int, ms: seq<NodeMsg>)
    requires q >= 1 && c.votes == 0
    ensures var d, b, k := HandledAll(c, q, ms), Of(c.buffer, c.latest), Of(ms, c.latest);
      && d.latest == c.latest && d.finality == c.finality
      && Of(d.buffer, c.latest) == b
      && d.votes == Least(q, k * (1 + b))
      && Successes(c, q, ms) == if k * (1 + b) >= q then 1 else 0
  {
    if ms != [] {
      var n := |ms| - 1;
      VotesExactly(c, q, ms[..n]);
      var d := HandledAll(c, q, ms[..n]);
      var k, b := Of(ms[..n], c.latest), Of(c.buffer, c.latest);
      OneMore(k, b);
      if ms[n].height > c.latest {
        assert (d.buffer + [ms[n]])[..|d.buffer|] == d.buffer;
      }
    }
  }

  lemma OneMore(k: nat, b: nat)
    ensures (k + 1) * (1 + b) == k * (1 + b) + 1 + b
  {
  }

  lemma Product(k: nat, b: nat)
    ensures k * (1 + b) >= k
    ensures b == 0 || k == 1 ==> k * (1 + b) == k + (if k == 1 then b else 0)
    ensures k >= 2 ==> k * (1 + b) >= 2 + b
  {
    if k >= 2 {
      assert k * (1 + b) == 2 * (1 + b) + (k - 2) * (1 + b);
      assert (k - 2) * (1 + b) >= k - 2;
    }
  }

  /** A round with its threshold-th message delivered has succeeded. */
  lemma SuccessInTime(c: Counter, q: int, ms: seq<NodeMsg>)
    requires q >= 1 && c.votes == 0 && Of(ms, c.latest) >= q
    ensures Successes(c, q, ms) == 1
  {
    hide Successes, HandledAll, Of;
    VotesExactly(c, q, ms);
    Product(Of(ms, c.latest), Of(c.buffer, c.latest));
  }

  lemma TwoMessages(m: NodeMsg)
    ensures Of([m, m], m.height) == 2
  {
    OfSnoc([m], m, m.height);
    assert [m] + [m] == [m, m];
    OfSnoc([], m, m.height);
    assert [] + [m] == [m];
  }

  /** Each message of the round seen so far counted once, buffered or not. */
  predicate CountsEach(c: Counter, q: int, ms: seq<NodeMsg>) {
    HandledAll(c, q, ms).votes == Least(q, Of(ms, c.latest) + Of(c.buffer, c.latest))
  }

  /**
    Every delivery sequence with a message of the round has each of its messages counted once exactly
    when none was buffered before the reset, or the threshold is met by the buffered ones and two more.
   */
  lemma CountsMessagesIff(c: Counter, q: int, m: NodeMsg)
    requires q >= 1 && c.votes == 0 && m.height == c.latest
    ensures (forall ms: seq<NodeMsg> | Of(ms, c.latest) > 0 :: CountsEach(c, q, ms))
       <==> Of(c.buffer, c.latest) == 0 || q <= 2 + Of(c.buffer, c.latest)
  {
    hide Successes, HandledAll, Of;
    var b := Of(c.buffer, c.latest);
    if b == 0 || q <= 2 + b {
      forall ms: seq<NodeMsg> | Of(ms, c.latest) > 0 ensures CountsEach(c, q, ms) {
        VotesExactly(c, q, ms);
        Product(Of(ms, c.latest), b);
      }
    } else {
      TwoMessages(m);
      VotesExactly(c, q, [m, m]);
      assert !CountsEach(c, q, [m, m]);
    }
  }
}
