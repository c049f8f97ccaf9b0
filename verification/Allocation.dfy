/** How the coordinator deals shuffled nodes and adversaries out to committees. */
module Allocation {
  import opened Sequences
  import opened Division

  datatype Placement = Placement(committee: nat, honest: bool)

  /** Adversaries planned for committee c of t nodes: just under a half, or just under a sixth. */
  function Planned(c: nat, t: nat): int {
    var d := if c % 2 == 0 then 2 else 6;
    if t % d == 0 then t / d - 1 else t / d
  }

  /** The nodes that do not divide evenly go to the last committee. */
  function CommitteeOf(n: nat, m: nat, i: nat): nat
    requires m > 0
  {
    if n / m == 0 then 0 else if i / (n / m) < m then i / (n / m) else m - 1
  }

  /** The size used at node i; the rest is added in only where it begins. */
  function SizeAt(n: nat, m: nat, i: nat): nat
    requires m > 0
  {
    if n / m > 0 && i != 0 && i == n - n % m then n / m + n % m else n / m
  }

  function HonestAt(n: nat, m: nat, i: nat): bool
    requires m > 0
  {
    var t := SizeAt(n, m, i);
    t != 0 && i % t >= Planned(CommitteeOf(n, m, i), t)
  }

  /** Neither a division by zero nor a committee number past the last. */
  predicate Fits(n: nat, m: nat)
    requires m > 0
  {
    n <= 1 || (n / m > 0 && n % m <= n / m)
  }

  /** Where the committee number stops growing, and when it would pass the last committee. */
  lemma Turns(n: nat, m: nat, i: nat)
    requires m > 0 && n / m > 0 && i < n
    ensures n - n % m == m * (n / m)
    ensures i % (n / m) == 0 && i / (n / m) == m <==> i == n - n % m
    ensures n % m <= n / m ==> i / (n / m) <= m
    ensures n % m > n / m ==> (m + 1) * (n / m) < n
  {
    var npm, rest := n / m, n % m;
    assert n == m * npm + rest;
    if i == n - rest {
      MultipleMod(m, npm);
    } else if i % npm == 0 {
      assert i == (i / npm) * npm;
    }
    if rest <= npm {
      assert (m + 1) * npm == m * npm + npm;
      QuotientOrder(i, (m + 1) * npm - 1, npm);
      ModIs((m + 1) * npm - 1, m, npm, npm - 1);
    } else {
      assert (m + 1) * npm == m * npm + npm;
    }
  }

  lemma Advance(n: nat, m: nat, i: nat)
    requires m > 0 && n / m > 0 && 0 < i < n && (i - 1) / (n / m) <= m
    ensures var npm, last := n / m, CommitteeOf(n, m, i - 1);
      var c := if i % npm == 0 && i != n - n % m then last + 1 else last;
      && (c >= m ==> !Fits(n, m))
      && (c < m ==> c == CommitteeOf(n, m, i) && i / npm <= m)
    ensures SizeAt(n, m, i) == if i % (n / m) == 0 && i == n - n % m then n / m + n % m else n / m
  {
    Turns(n, m, i);
    NextQuotient(i, n / m);
    var npm := n / m;
    var q, p := i / npm, (i - 1) / npm;
    hide Fits;
    if q == m + 1 {
      PastTheLast(n, m, i);
    }
  }

  lemma PastTheLast(n: nat, m: nat, i: nat)
    requires m > 0 && n / m > 0 && i < n && i / (n / m) == m + 1
    ensures !Fits(n, m)
  {
    Turns(n, m, i);
    assert n > 1 by { assert m * (n / m) >= 1; }
  }

  /** With room for every node, the last one's committee number is not past the last. */
  lemma EndsInside(n: nat, m: nat)
    requires m > 0 && n > 0 && n / m > 0 && (n - 1) / (n / m) <= m
    ensures Fits(n, m)
  {
    Turns(n, m, n - 1);
    if n % m > n / m {
      QuotientOrder((m + 1) * (n / m), n - 1, n / m);
      MultipleMod(m + 1, n / m);
    }
  }

  lemma SmallCases(n: nat, m: nat)
    requires m > 0
    ensures n <= 1 ==> Fits(n, m)
    ensures n >= 2 && n / m == 0 ==> !Fits(n, m)
    ensures n > 0 ==> CommitteeOf(n, m, 0) == 0 && SizeAt(n, m, 0) == n / m
  {
  }

  /** Deals the nodes in order; none when the program would stop on a bad committee number. */
  method Allocate(n: nat, m: nat) returns (r: Option<seq<Placement>>)
    requires m > 0
    ensures r.Some? <==> Fits(n, m)
    ensures r.Some? ==> |r.value| == n
    ensures r.Some? ==> forall i | 0 <= i < n :: r.value[i] == Placement(CommitteeOf(n, m, i), HonestAt(n, m, i))
  {
    hide CommitteeOf, SizeAt, Fits, Planned;
    var npm, rest := n / m, n % m;
    var c := 0;
    var nodes: seq<Placement> := [];
    SmallCases(n, m);
    for i := 0 to n
      invariant |nodes| == i && (i == 0 ==> c == 0)
      invariant i > 0 ==> c == CommitteeOf(n, m, i - 1) && (npm == 0 ==> i == 1)
      invariant npm > 0 && i > 0 ==> (i - 1) / npm <= m
      invariant forall k | 0 <= k < i :: nodes[k] == Placement(CommitteeOf(n, m, k), HonestAt(n, m, k))
    {
      var t := npm;
      if i != 0 {
        if npm == 0 { return None; }
        Advance(n, m, i);
        if i % npm == 0 {
          if i != n - rest {
            c := c + 1;
          } else {
            t := t + rest;
          }
        }
      }
      if c >= m {
        return None;
      }
      var f := AdversariesIn(c, t);
      nodes := nodes + [Placement(c, !(t == 0 || i % t < f))];
    }
    if npm > 0 && n > 0 {
      EndsInside(n, m);
    }
    return Some(nodes);
  }

  method AdversariesIn(c: nat, t: nat) returns (f: int)
    ensures f == Planned(c, t)
  {
    var d := if c % 2 == 0 then 2 else 6;
    f := t / d;
    if t % d == 0 {
      f := f - 1;
    }
  }

  function Members(n: nat, m: nat, k: nat): set<nat>
    requires m > 0
  {
    set i: nat | i < n && CommitteeOf(n, m, i) == k
  }

  /** The adversaries among the first `upto` nodes. */
  function Faulty(n: nat, m: nat, upto: nat): set<nat>
    requires m > 0
  {
    set i: nat | i < upto && !HonestAt(n, m, i)
  }

  /** Committee k of a division that leaves no rest is the k-th block of n/m nodes, adversaries first. */
  lemma Block(n: nat, m: nat, k: nat, i: nat)
    requires m > 0 && n / m > 0 && n % m == 0 && k < m && i < n
    ensures var npm := n / m;
      && (CommitteeOf(n, m, i) == k <==> k * npm <= i < k * npm + npm)
      && (CommitteeOf(n, m, i) == k ==> (!HonestAt(n, m, i) <==> i < k * npm + Planned(k, npm)))
  {
    var npm := n / m;
    Turns(n, m, i);
    QuotientOrder(i, n - 1, npm);
    assert n - 1 == (m - 1) * npm + (npm - 1);
    ModIs(n - 1, m - 1, npm, npm - 1);
    assert i == (i / npm) * npm + i % npm;
    if k * npm <= i < k * npm + npm {
      ModIs(i, k, npm, i - k * npm);
    }
  }

  lemma PlannedBounds(k: nat, t: nat)
    requires t > 0
    ensures Planned(k, t) == if k % 2 == 0 then (t - 1) / 2 else (t - 1) / 6
    ensures 0 <= Planned(k, t) <= (t - 1) / 2 && Planned(k, t) < t
  {
    NextQuotient(t, 2);
    NextQuotient(t, 6);
  }

  lemma BlockInside(m: nat, k: nat, npm: nat)
    requires k < m
    ensures k * npm + npm <= m * npm
  {
    assert m * npm == (k + 1) * npm + (m - k - 1) * npm;
  }

  /** Committee k is the nodes from lo to hi, and its adversaries are the first p of them. */
  ghost predicate IsBlock(n: nat, m: nat, k: nat, lo: nat, hi: nat, p: nat)
    requires m > 0
  {
    && lo + p <= hi <= n
    && forall i: nat | i < n ::
         && (CommitteeOf(n, m, i) == k <==> lo <= i < hi)
         && (CommitteeOf(n, m, i) == k ==> (!HonestAt(n, m, i) <==> i < lo + p))
  }

  lemma CommitteeIsBlock(n: nat, m: nat, k: nat)
    requires m > 0 && n / m > 0 && n % m == 0 && k < m
    ensures Planned(k, n / m) >= 0
    ensures IsBlock(n, m, k, k * (n / m), (k + 1) * (n / m), Planned(k, n / m))
  {
    hide CommitteeOf, HonestAt, Planned;
    var npm := n / m;
    PlannedBounds(k, npm);
    BlockInside(m, k, npm);
    assert n == m * npm;
    assert (k + 1) * npm == k * npm + npm;
    forall i: nat | i < n ensures
      && (CommitteeOf(n, m, i) == k <==> k * npm <= i < (k + 1) * npm)
      && (CommitteeOf(n, m, i) == k ==> (!HonestAt(n, m, i) <==> i < k * npm + Planned(k, npm)))
    {
      Block(n, m, k, i);
    }
  }

  lemma BlockSets(n: nat, m: nat, k: nat, lo: nat, hi: nat, p: nat)
    requires m > 0 && IsBlock(n, m, k, lo, hi, p)
    ensures Members(n, m, k) == Range(lo, hi)
    ensures Members(n, m, k) * Faulty(n, m, n) == Range(lo, lo + p)
    ensures Faulty(n, m, hi) == Faulty(n, m, lo) + Range(lo, lo + p) && Faulty(n, m, lo) !! Range(lo, lo + p)
  {
    hide CommitteeOf, HonestAt;
    forall i: nat ensures i in Members(n, m, k) <==> i in Range(lo, hi) {}
    forall i: nat ensures i in Members(n, m, k) * Faulty(n, m, n) <==> i in Range(lo, lo + p) {}
    forall i: nat ensures i in Faulty(n, m, hi) <==> i in Faulty(n, m, lo) + Range(lo, lo + p) {
      assert lo <= i < hi ==> CommitteeOf(n, m, i) == k;
    }
  }

  /** Every committee gets its share of nodes, and fewer adversaries than half of them, rounded up. */
  lemma CommitteeShares(n: nat, m: nat, k: nat)
    requires m > 0 && n / m > 0 && n % m == 0 && k < m
    ensures |Members(n, m, k)| == n / m
    ensures |Members(n, m, k) * Faulty(n, m, n)| == Planned(k, n / m) < (n / m + 1) / 2
  {
    hide *;
    var npm := n / m;
    CommitteeIsBlock(n, m, k);
    PlannedBounds(k, npm);
    OneMoreBlock(k, npm);
    BlockSets(n, m, k, k * npm, (k + 1) * npm, Planned(k, npm));
  }

  lemma OneMoreBlock(k: nat, npm: nat)
    ensures (k + 1) * npm - k * npm == npm
  {
  }

  function PlannedUpTo(k: nat, t: nat): int {
    if k == 0 then 0 else PlannedUpTo(k - 1, t) + Planned(k - 1, t)
  }

  lemma FaultyNext(n: nat, m: nat, k: nat)
    requires m > 0 && n / m > 0 && n % m == 0 && k < m
    ensures |Faulty(n, m, (k + 1) * (n / m))| == |Faulty(n, m, k * (n / m))| + Planned(k, n / m)
  {
    hide *;
    CommitteeIsBlock(n, m, k);
    BlockSets(n, m, k, k * (n / m), (k + 1) * (n / m), Planned(k, n / m));
  }

  lemma {:induction false} FaultyUpTo(n: nat, m: nat, k: nat)
    requires m > 0 && n / m > 0 && n % m == 0 && k <= m
    ensures |Faulty(n, m, k * (n / m))| == PlannedUpTo(k, n / m)
  {
    hide Faulty, Planned;
    if k > 0 {
      FaultyUpTo(n, m, k - 1);
      FaultyNext(n, m, k - 1);
    } else {
      NoneFaulty(n, m);
      assert k * (n / m) == 0;
    }
  }

  lemma NoneFaulty(n: nat, m: nat)
    requires m > 0
    ensures Faulty(n, m, 0) == {}
  {
  }

  /** A committee planned for a half and its neighbour planned for a sixth. */
  function PairPlanned(t: nat): int {
    (t - 1) / 2 + (t - 1) / 6
  }

  lemma {:induction false} PlannedPairs(j: nat, t: nat)
    requires t > 0
    ensures PlannedUpTo(2 * j, t) == j * PairPlanned(t)
  {
    if j > 0 {
      PlannedPairs(j - 1, t);
      OnePair(j - 1, t);
      hide Planned, PlannedUpTo, PairPlanned;
      assert j * PairPlanned(t) == (j - 1) * PairPlanned(t) + PairPlanned(t);
    }
  }

  lemma OnePair(j: nat, t: nat)
    requires t > 0
    ensures PlannedUpTo(2 * (j + 1), t) == PlannedUpTo(2 * j, t) + PairPlanned(t)
  {
    PlannedBounds(2 * j, t);
    PlannedBounds(2 * j + 1, t);
    hide Planned;
    assert PlannedUpTo(2 * j + 1, t) == PlannedUpTo(2 * j, t) + Planned(2 * j, t);
  }

  /** What two neighbouring committees leave below two thirds of a committee each. */
  function Slack(t: nat): int {
    2 * t - 3 * PairPlanned(t)
  }

  /** The sum over m committees of t nodes, against a third of them. */
  lemma SumAgainstAThird(m: nat, t: nat)
    requires m > 0 && t > 0
    ensures 3 * PlannedUpTo(m, t) < m * t <==> m % 2 == 0 || 3 * ((t - 1) / 2) < t + (m / 2) * Slack(t)
  {
    hide Planned, PlannedUpTo, PairPlanned, Slack;
    var j := m / 2;
    SlackIs(t);
    PlannedPairs(j, t);
    PairSums(j, t, PairPlanned(t), Slack(t), m);
    if m % 2 == 0 {
      assert m == 2 * j;
    } else {
      assert m == 2 * j + 1;
      LastCommittee(j, t);
    }
  }

  lemma SlackIs(t: nat)
    requires t > 0
    ensures Slack(t) == 2 * t - 3 * PairPlanned(t) && Slack(t) >= 2
  {
  }

  lemma LastCommittee(j: nat, t: nat)
    requires t > 0
    ensures PlannedUpTo(2 * j + 1, t) == PlannedUpTo(2 * j, t) + (t - 1) / 2
  {
    PlannedBounds(2 * j, t);
  }

  lemma PairSums(j: nat, t: nat, pair: int, slack: int, m: nat)
    requires slack == 2 * t - 3 * pair && slack >= 2
    ensures 3 * (j * pair) == j * (2 * t) - j * slack
    ensures m == 2 * j ==> m * t == j * (2 * t)
    ensures m == 2 * j + 1 ==> m * t == j * (2 * t) + t
    ensures j > 0 ==> j * slack > 0
  {
    assert j * slack == j * (2 * t) - 3 * (j * pair);
    if j > 0 {
      assert j * slack == slack + (j - 1) * slack;
      assert (j - 1) * slack >= 0;
    }
  }

  /**
    All adversaries together stay below a third of the nodes for every even number of committees, and
    for an odd number exactly when its pairs make up for what the last committee has above a third.
   */
  lemma BelowAThirdExactly(n: nat, m: nat)
    requires m > 0 && n / m > 0 && n % m == 0
    ensures var npm := n / m;
      3 * |Faulty(n, m, n)| < n <==> m % 2 == 0 || 3 * ((npm - 1) / 2) < npm + (m / 2) * Slack(npm)
  {
    var npm := n / m;
    assert n == m * npm;
    FaultyUpTo(n, m, m);
    SumAgainstAThird(m, npm);
  }

  /** One committee of five nodes is already above a third. */
  lemma OneCommitteeAboveAThird()
    ensures Fits(5, 1) && 3 * |Faulty(5, 1, 5)| >= 5
  {
    BelowAThirdExactly(5, 1);
  }

  /** The votes asked for in a committee of `size` nodes, a member counting the others. */
  function RequiredVotes(size: nat, committeeF: nat): nat
    requires size > 0 && committeeF > 0
  {
    (size - 1) / committeeF + 1
  }

  /** Every set of members large enough to accept a block has an honest one in it. */
  lemma AcceptanceIsHonest(n: nat, m: nat, k: nat, voters: set<nat>)
    requires m > 0 && n / m > 0 && n % m == 0 && k < m
    requires voters <= Members(n, m, k) && |voters| >= RequiredVotes(n / m, 2)
    ensures exists i :: i in voters && HonestAt(n, m, i)
  {
    CommitteeShares(n, m, k);
    PlannedBounds(k, n / m);
    hide CommitteeOf, HonestAt, Planned;
    if forall i | i in voters :: !HonestAt(n, m, i) {
      assert voters <= Members(n, m, k) * Faulty(n, m, n);
      SubsetSize(voters, Members(n, m, k) * Faulty(n, m, n));
      assert false;
    }
  }
}
