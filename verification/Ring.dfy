/** Neighbours on the ring of a committee's sorted members, and how far they reach. */
module Ring {
  import opened Sequences
  import opened Division
  import opened Bytes
  import opened LeaderElection

  /** Members sorted by their identities. */
  function ById(): Ranking {
    y => y
  }

  /** Position in the sorted committee. */
  function Rank(committee: set<Id>, x: Id): nat {
    |Before(ById(), committee, x)|
  }

  /** Number of neighbours: the logarithm of the committee's size, made even. */
  function Degree(n: nat): nat
    requires n > 0
  {
    var d := FloorLog2(n);
    if d % 2 != 0 then d - 1 else d
  }

  lemma DegreeBounds(n: nat, i: nat)
    requires n > 0
    ensures n < Pow2(Degree(n) + 2)
    ensures i < Degree(n) ==> 2 * Pow2(i) <= n
  {
    var d := FloorLog2(n);
    Pow2Mono(d + 1, Degree(n) + 2);
    if i < Degree(n) {
      Pow2Mono(i + 1, d);
    }
  }

  lemma RankIs(list: seq<Id>, i: nat)
    requires Ordered(ById(), list) && NoRepeats(list) && i < |list|
    ensures Rank(Elems(list), list[i]) == i
  {
    var before := Before(ById(), Elems(list), list[i]);
    NoRepeatsSize(list[..i]);
    forall y ensures y in before <==> y in Elems(list[..i]) {
      if y in Elems(list[..i]) {
        var k :| 0 <= k < i && list[k] == y;
        assert list[k] in Elems(list);
      }
    }
    assert before == Elems(list[..i]);
  }

  /** Among the whole committee a member of the list without `self` moves up by one behind `self`. */
  lemma RankInCommittee(list: seq<Id>, self: Id, j: nat)
    requires Ordered(ById(), list) && NoRepeats(list) && self !in list && j < |list|
    ensures var committee := Elems(list) + {self};
      Rank(committee, list[j]) == if Rank(committee, self) <= j then j + 1 else j
  {
    hide NoRepeats, Ordered, Elems, Rank;
    RankIs(list, j);
    InElems(list, self);
    RankBehind(Elems(list), self, list[j]);
    ByIdDiffers(Elems(list) + {self});
    BeforeCutoff(ById(), self, Elems(list), list, j);
    assert Rank(Elems(list) + {self}, self) == |Before(ById(), Elems(list) + {self}, self)| by { RankDef(Elems(list) + {self}, self); }
  }

  lemma RankDef(committee: set<Id>, x: Id)
    ensures Rank(committee, x) == |Before(ById(), committee, x)|
  {
  }

  lemma ByIdDiffers(committee: set<Id>)
    ensures DistinctHashes(ById(), committee)
  {
  }

  lemma RankBehind(others: set<Id>, self: Id, x: Id)
    requires self !in others
    ensures Rank(others + {self}, x) == Rank(others, x) + if self < x then 1 else 0
  {
    assert Before(ById(), others + {self}, x) == Before(ById(), others, x) + if self < x then {self} else {};
  }

  /** Neighbour i of the member of rank r is the member 2^i further round the ring. */
  ghost predicate AreNeighbours(committee: set<Id>, self: Id, neighbours: seq<Id>)
    requires committee != {}
  {
    && |neighbours| == Degree(|committee|)
    && forall i | 0 <= i < |neighbours| :: IsNeighbour(committee, self, i, neighbours[i])
  }

  method BuildCurrentNeighbours(self: Id, others: set<Id>) returns (neighbours: seq<Id>)
    requires self !in others
    ensures AreNeighbours(others + {self}, self, neighbours)
  {
    hide Degree, Rank, IsNeighbour, NoRepeats, Ordered, Elems, FloorLog2, Pow2;
    var members := SortedMembers(ById(), others);
    var ring := SortedMembers(ById(), others + {self});
    NoRepeatsSize(members);
    InElems(ring, self);
    InElems(members, self);
    var selfIndex := IndexIn(ring, self);
    RankIs(ring, selfIndex);
    var n := |members| + 1;
    var d := Degree(n);
    neighbours := [];
    for i := 0 to d
      invariant |neighbours| == i
      invariant forall k | 0 <= k < i :: IsNeighbour(others + {self}, self, k, neighbours[k])
    {
      NeighbourAt(members, self, i);
      var dist := (Pow2(i) - 1 + selfIndex) % |members|;
      neighbours := neighbours + [members[dist]];
    }
  }

  /** Member x is 2^i further round the ring than `self`. */
  ghost predicate IsNeighbour(committee: set<Id>, self: Id, i: nat, x: Id) {
    committee != {} && x in committee && Rank(committee, x) == (Rank(committee, self) + Pow2(i)) % |committee|
  }

  lemma NeighbourAt(members: seq<Id>, self: Id, i: nat)
    requires Ordered(ById(), members) && NoRepeats(members) && self !in members
    requires i < Degree(|members| + 1)
    ensures var committee := Elems(members) + {self};
      && members != [] && Pow2(i) >= 1
      && IsNeighbour(committee, self, i, members[(Pow2(i) - 1 + Rank(committee, self)) % |members|])
  {
    hide NoRepeats, Ordered, Elems, Rank, Degree, Pow2;
    var n, committee := |members| + 1, Elems(members) + {self};
    NoRepeatsSize(members);
    InElems(members, self);
    DegreeBounds(n, i);
    RankBelow(committee, self);
    RoundTheRing(n, Rank(committee, self), Pow2(i));
    var dist := (Pow2(i) - 1 + Rank(committee, self)) % |members|;
    RankInCommittee(members, self, dist);
    InElems(members, members[dist]);
  }

  method IndexIn(ring: seq<Id>, self: Id) returns (index: nat)
    requires self in ring
    ensures index < |ring| && ring[index] == self
  {
    var found: nat := 0;
    for i := 0 to |ring|
      invariant found < |ring| && (self in ring[..i] ==> ring[found] == self)
    {
      if ring[i] == self {
        found := i;
      }
    }
    assert ring[..|ring|] == ring;
    return found;
  }

  /** Counting in the list without oneself, from one's own place, is counting round the ring. */
  lemma RoundTheRing(n: nat, s: nat, step: nat)
    requires s < n && 1 <= step && 2 * step <= n
    ensures var dist := (step - 1 + s) % (n - 1);
      (if s <= dist then dist + 1 else dist) == (s + step) % n
  {
    var x := step - 1 + s;
    if x < n - 1 {
      ModIs(x, 0, n - 1, x);
      ModIs(s + step, 0, n, s + step);
    } else {
      ModIs(x, 1, n - 1, x - (n - 1));
      ModIs(s + step, 1, n, s + step - n);
    }
  }

  /** Neighbours are different members, and never the member itself. */
  lemma NeighboursDiffer(committee: set<Id>, self: Id, neighbours: seq<Id>)
    requires self in committee && AreNeighbours(committee, self, neighbours)
    ensures NoRepeats(neighbours) && self !in neighbours
  {
    var n, s := |committee|, Rank(committee, self);
    RankBelow(committee, self);
    forall i | 0 <= i < |neighbours|
      ensures neighbours[i] != self
      ensures forall k | 0 <= k < i :: neighbours[k] != neighbours[i]
    {
      DegreeBounds(n, i);
      StepMoves(n, s, 0, Pow2(i));
      forall k | 0 <= k < i ensures neighbours[k] != neighbours[i] {
        Pow2Mono(k + 1, i);
        StepMoves(n, s, Pow2(k), Pow2(i));
      }
    }
  }

  lemma RankBelow(committee: set<Id>, x: Id)
    requires x in committee
    ensures Rank(committee, x) < |committee|
  {
    SubsetSize(Before(ById(), committee, x), committee - {x});
  }

  lemma StepMoves(n: nat, s: nat, a: nat, b: nat)
    requires s < n && a < b && 2 * b <= n
    ensures (s + a) % n != (s + b) % n
    ensures s % n == s
  {
    if s + b < n {
      ModIs(s + a, 0, n, s + a);
      ModIs(s + b, 0, n, s + b);
    } else {
      ModIs(s + b, 1, n, s + b - n);
      if s + a < n {
        ModIs(s + a, 0, n, s + a);
      } else {
        ModIs(s + a, 1, n, s + a - n);
      }
    }
    ModIs(s, 0, n, s);
  }

  function Reach(steps: seq<nat>): nat {
    if steps == [] then 0 else Reach(steps[..|steps| - 1]) + Pow2(steps[|steps| - 1])
  }

  /** The rank reached by taking neighbour after neighbour. */
  function Walk(n: nat, rank: nat, steps: seq<nat>): nat
    requires n > 0
  {
    if steps == [] then rank else (Walk(n, rank, steps[..|steps| - 1]) + Pow2(steps[|steps| - 1])) % n
  }

  lemma {:induction false} WalkReaches(n: nat, rank: nat, steps: seq<nat>)
    requires rank < n
    ensures Walk(n, rank, steps) == (rank + Reach(steps)) % n
  {
    if steps == [] {
      ModIs(rank, 0, n, rank);
    } else {
      var front := steps[..|steps| - 1];
      WalkReaches(n, rank, front);
      AddMod(rank + Reach(front), Pow2(steps[|steps| - 1]), n);
    }
  }

  lemma AddMod(a: nat, b: nat, n: nat)
    requires n > 0
    ensures (a % n + b) % n == (a + b) % n
  {
    var q, t := a / n, (a % n + b) / n;
    var r := (a % n + b) % n;
    assert a + b == q * n + t * n + r;
    assert q * n + t * n == (q + t) * n;
    ModIs(a + b, q + t, n, r);
  }

  /** Steps to any distance below 2^k, each power below k at most once. */
  function Digits(x: nat, k: nat): (steps: seq<nat>)
    requires x < Pow2(k)
    ensures |steps| <= k && forall i | 0 <= i < |steps| :: steps[i] < k
  {
    if k == 0 then []
    else if x < Pow2(k - 1) then Digits(x, k - 1)
    else Digits(x - Pow2(k - 1), k - 1) + [k - 1]
  }

  lemma {:induction false} DigitsReach(x: nat, k: nat)
    requires x < Pow2(k)
    ensures Reach(Digits(x, k)) == x
  {
    hide Pow2, Reach;
    if k == 0 {
      ReachNothing();
    } else if x < Pow2(k - 1) {
      DigitsReach(x, k - 1);
    } else {
      LastDigit(x, k);
      DigitsReach(x - Pow2(k - 1), k - 1);
      ReachOneMore(Digits(x - Pow2(k - 1), k - 1), k - 1);
    }
  }

  lemma LastDigit(x: nat, k: nat)
    requires 0 < k && Pow2(k - 1) <= x < Pow2(k)
    ensures x - Pow2(k - 1) < Pow2(k - 1)
  {
  }

  lemma ReachNothing()
    ensures Pow2(0) == 1 && Reach([]) == 0
  {
  }

  lemma ReachOneMore(steps: seq<nat>, e: nat)
    ensures Reach(steps + [e]) == Reach(steps) + Pow2(e)
  {
    assert (steps + [e])[..|steps|] == steps;
  }

  /** q long steps after other steps. */
  lemma {:induction false} LongSteps(front: seq<nat>, q: nat, e: nat)
    ensures Reach(front + seq(q, i => e)) == Reach(front) + q * Pow2(e)
  {
    if q == 0 {
      assert front + seq(0, i => e) == front;
    } else {
      var all := front + seq(q, i => e);
      assert all[..|all| - 1] == front + seq(q - 1, i => e);
      LongSteps(front, q - 1, e);
      assert q * Pow2(e) == (q - 1) * Pow2(e) + Pow2(e);
    }
  }

  /** A distance on the ring takes at most seven of the longest steps, and one of each shorter one. */
  lemma StepsFor(n: nat, x: nat) returns (steps: seq<nat>)
    requires n >= 4 && x < n
    ensures |steps| <= Degree(n) + 6 && Reach(steps) == x
    ensures forall i | 0 <= i < |steps| :: steps[i] < Degree(n)
  {
    hide *;
    DegreeAtLeastTwo(n);
    var e: nat := Degree(n) - 1;
    LongestStep(n, e);
    SevenLong(x, Pow2(e));
    steps := ShortAndLong(x / Pow2(e), x % Pow2(e), e);
  }

  lemma DegreeAtLeastTwo(n: nat)
    requires n >= 4
    ensures Degree(n) >= 2
  {
    assert n / 2 >= 2 && n / 2 / 2 >= 1;
    assert FloorLog2(n) == FloorLog2(n / 2 / 2) + 2;
  }

  lemma LongestStep(n: nat, e: nat)
    requires n >= 4 && e + 1 == Degree(n)
    ensures n < 8 * Pow2(e)
  {
    DegreeBounds(n, 0);
    assert Pow2(e + 3) == 2 * Pow2(e + 2) && Pow2(e + 2) == 2 * Pow2(e + 1) && Pow2(e + 1) == 2 * Pow2(e);
  }

  lemma SevenLong(x: nat, long: nat)
    requires long > 0 && x < 8 * long
    ensures x / long <= 7 && x % long < long && x / long * long + x % long == x
  {
    QuotientOrder(x, 8 * long - 1, long);
    ModIs(8 * long - 1, 7, long, long - 1);
  }

  lemma ShortAndLong(q: nat, r: nat, e: nat) returns (steps: seq<nat>)
    requires q <= 7 && r < Pow2(e)
    ensures Reach(steps) == q * Pow2(e) + r && |steps| <= e + 7
    ensures forall i | 0 <= i < |steps| :: steps[i] <= e
  {
    var front := Digits(r, e);
    DigitsReach(r, e);
    LongSteps(front, q, e);
    steps := front + seq(q, i => e);
  }

  /** From every rank to every rank in at most Degree + 6 hops over neighbours. */
  lemma EveryoneReachable(n: nat, a: nat, b: nat)
    requires n >= 4 && a < n && b < n
    ensures exists steps: seq<nat> ::
      |steps| <= Degree(n) + 6 && (forall i | 0 <= i < |steps| :: steps[i] < Degree(n)) && Walk(n, a, steps) == b
  {
    var x := if a <= b then b - a else b + n - a;
    var steps := StepsFor(n, x);
    WalkReaches(n, a, steps);
    if a <= b {
      ModIs(b, 0, n, b);
    } else {
      ModIs(a + x, 1, n, b);
    }
  }
}
