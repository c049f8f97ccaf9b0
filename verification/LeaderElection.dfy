/** Hash-ranked leaders, and the members that forward cross-committee transactions. */
module LeaderElection {
  import opened Sequences
  import opened Bytes

  type Id = nat

  /** A member's hash for the current randomness and iteration, read as a number. */
  type Ranking = Id -> nat

  ghost predicate DistinctHashes(h: Ranking, committee: set<Id>) {
    forall x, y | x in committee && y in committee && h(x) == h(y) :: x == y
  }

  /** Sorted by hash, every member once. */
  predicate Ordered(h: Ranking, list: seq<Id>) {
    forall i, j | 0 <= i < j < |list| :: h(list[i]) <= h(list[j])
  }

  method SortedMembers(h: Ranking, members: set<Id>) returns (list: seq<Id>)
    ensures Ordered(h, list) && NoRepeats(list) && Elems(list) == members
  {
    list := [];
    var left := members;
    while left != {}
      invariant left <= members
      invariant Ordered(h, list) && NoRepeats(list) && Elems(list) == members - left
      decreases left
    {
      var m :| m in left;
      assert m !in Elems(list);
      list := Insert(h, list, m);
      left := left - {m};
    }
  }

  method Insert(h: Ranking, list: seq<Id>, m: Id) returns (r: seq<Id>)
    requires Ordered(h, list) && NoRepeats(list) && m !in list
    ensures Ordered(h, r) && NoRepeats(r) && Elems(r) == Elems(list) + {m}
  {
    var i := 0;
    while i < |list| && h(list[i]) < h(m)
      invariant 0 <= i <= |list|
      invariant forall j | 0 <= j < i :: h(list[j]) < h(m)
    {
      i := i + 1;
    }
    r := list[..i] + [m] + list[i..];
    Inserted(h, list, i, m);
  }

  lemma Inserted(h: Ranking, list: seq<Id>, i: nat, m: Id)
    requires Ordered(h, list) && NoRepeats(list) && m !in list && i <= |list|
    requires forall j | 0 <= j < i :: h(list[j]) <= h(m)
    requires i < |list| ==> h(m) <= h(list[i])
    ensures var r := list[..i] + [m] + list[i..];
      Ordered(h, r) && NoRepeats(r) && Elems(r) == Elems(list) + {m}
  {
    hide *;
    InsertedOrdered(h, list, i, m);
    InsertedOnce(list, i, m);
  }

  lemma InsertedOrdered(h: Ranking, list: seq<Id>, i: nat, m: Id)
    requires Ordered(h, list) && i <= |list|
    requires forall j | 0 <= j < i :: h(list[j]) <= h(m)
    requires i < |list| ==> h(m) <= h(list[i])
    ensures Ordered(h, list[..i] + [m] + list[i..])
  {
  }

  lemma InsertedOnce(list: seq<Id>, i: nat, m: Id)
    requires NoRepeats(list) && m !in list && i <= |list|
    ensures var r := list[..i] + [m] + list[i..];
      NoRepeats(r) && Elems(r) == Elems(list) + {m}
  {
    assert list == list[..i] + list[i..];
  }

  /** The members that come before x. */
  function Before(h: Ranking, committee: set<Id>, x: Id): set<Id> {
    set y | y in committee && h(y) < h(x)
  }

  ghost predicate IsLowest(h: Ranking, committee: set<Id>, x: Id) {
    x in committee && forall y | y in committee :: h(x) <= h(y)
  }

  function FloorLog2(n: nat): (k: nat)
    requires n > 0
    ensures Pow2(k) <= n < Pow2(k + 1)
    ensures k < n
  {
    if n == 1 then 0 else FloorLog2(n / 2) + 1
  }

  /** Each member sorts the others; the lowest of them leads unless the member itself is lower. */
  method ElectLeader(h: Ranking, self: Id, members: set<Id>) returns (leader: Id)
    requires self !in members && members != {}
    ensures IsLowest(h, members + {self}, leader)
  {
    var list := SortedMembers(h, members);
    assert forall y | y in members :: y in Elems(list);
    assert list != [];
    if h(self) < h(list[0]) {
      return self;
    }
    return list[0];
  }

  method ShouldISendCrossTx(h: Ranking, self: Id, members: set<Id>) returns (send: bool)
    requires self !in members && members != {} && DistinctHashes(h, members + {self})
    ensures send <==> |Before(h, members + {self}, self)| <= FloorLog2(|members|)
  {
    var list := SortedMembers(h, members);
    NoRepeatsSize(list);
    var cutoff := FloorLog2(|members|);
    BeforeCutoff(h, self, members, list, cutoff);
    return h(self) < h(list[cutoff]);
  }

  /** Being lower than the c-th of the others is having at most c of them before. */
  lemma BeforeCutoff(h: Ranking, self: Id, members: set<Id>, list: seq<Id>, c: nat)
    requires self !in members && DistinctHashes(h, members + {self})
    requires Ordered(h, list) && NoRepeats(list) && Elems(list) == members && c < |list|
    ensures h(self) < h(list[c]) <==> |Before(h, members + {self}, self)| <= c
  {
    var before := Before(h, members + {self}, self);
    NoRepeatsSize(list[..c]);
    NoRepeatsSize(list[..c + 1]);
    assert list[c] in Elems(list);
    if h(self) < h(list[c]) {
      forall y | y in before ensures y in Elems(list[..c]) {
        assert y in Elems(list);
      }
      SubsetSize(before, Elems(list[..c]));
    } else {
      forall y | y in Elems(list[..c + 1]) ensures y in before {
        var i :| 0 <= i < c + 1 && list[i] == y;
        assert y in Elems(list);
      }
      SubsetSize(Elems(list[..c + 1]), before);
    }
  }

  lemma {:induction false} HighestExists(h: Ranking, s: set<Id>) returns (m: Id)
    requires s != {}
    ensures m in s && forall y | y in s :: h(y) <= h(m)
  {
    m :| m in s;
    if s != {m} {
      var k := HighestExists(h, s - {m});
      if h(m) < h(k) {
        m := k;
      }
    }
  }

  /** Exactly c + 1 members have at most c before them. */
  lemma {:induction false} FirstMembers(h: Ranking, committee: set<Id>, c: nat)
    requires DistinctHashes(h, committee) && c < |committee|
    ensures |set x | x in committee && |Before(h, committee, x)| <= c| == c + 1
  {
    var m := HighestExists(h, committee);
    var rest := committee - {m};
    assert Before(h, committee, m) == rest;
    forall x | x in rest ensures Before(h, committee, x) == Before(h, rest, x) {}
    var first := set x | x in committee && |Before(h, committee, x)| <= c;
    if c == |rest| {
      forall x | x in committee ensures |Before(h, committee, x)| <= c {
        assert Before(h, committee, x) <= rest;
        SubsetSize(Before(h, committee, x), rest);
      }
      assert first == committee;
    } else {
      FirstMembers(h, rest, c);
      assert first == set x | x in rest && |Before(h, rest, x)| <= c;
    }
  }

  /** Each member leaves itself out of its list; with distinct hashes all of them still elect the same leader. */
  lemma LeadersAgree(h: Ranking, committee: set<Id>, a: Id, b: Id, leaderOfA: Id, leaderOfB: Id)
    requires DistinctHashes(h, committee) && a in committee && b in committee
    requires IsLowest(h, committee - {a} + {a}, leaderOfA) && IsLowest(h, committee - {b} + {b}, leaderOfB)
    ensures leaderOfA == leaderOfB && IsLowest(h, committee, leaderOfA)
  {
    assert committee - {a} + {a} == committee == committee - {b} + {b};
  }

  /** Who forwards: the leader is among them, and they are floor(log2(N - 1)) + 1 of the N members. */
  lemma SendersAre(h: Ranking, committee: set<Id>, leader: Id)
    requires |committee| >= 2 && DistinctHashes(h, committee) && IsLowest(h, committee, leader)
    ensures var c := FloorLog2(|committee| - 1);
      var senders := set x | x in committee && |Before(h, committee, x)| <= c;
      |senders| == c + 1 && leader in senders
  {
    FirstMembers(h, committee, FloorLog2(|committee| - 1));
    assert Before(h, committee, leader) == {};
  }
}
