/** Honest shares of one message, in whatever order and however often they come, are put together again. */
module IdaDelivery {
  import opened Sequences
  import opened Bytes
  import opened Merkle
  import opened Padding
  import opened IdaGossip
  import opened IdaNode

  /** A share of fewer than kappa leaves. */
  ghost predicate IsPart(s: Setting, leaves: seq<Bytes>, m: IdaMsg)
    requires leaves != []
  {
    exists lo: nat, n: nat :: n < s.kappa && IsShare(s.hash, leaves, m, lo, n)
  }

  /** Two parts are of the same leaves, or have none in common. */
  predicate SameOrApart(a: IdaMsg, b: IdaMsg) {
    MsgIndices(a) == MsgIndices(b) || MsgIndices(a) !! MsgIndices(b)
  }

  /** Whatever claims the root of `leaves` is one of the parts they were divided into. */
  ghost predicate AreParts(s: Setting, leaves: seq<Bytes>, root: Bytes, ms: seq<IdaMsg>) {
    && leaves != [] && root == NodeAt(s.hash, leaves, false, 1)
    && (forall m | m in ms && m.merkleRoot == root :: IsPart(s, leaves, m))
    && (forall a, b | a in ms && b in ms && a.merkleRoot == root && b.merkleRoot == root :: SameOrApart(a, b))
  }

  function Brings(m: IdaMsg, root: Bytes): set<nat> {
    if m.merkleRoot == root then MsgIndices(m) else {}
  }

  /** The leaves that have arrived for a root. */
  function Arrived(ms: seq<IdaMsg>, root: Bytes): set<nat> {
    if ms == [] then {} else Brings(ms[0], root) + Arrived(ms[1..], root)
  }

  lemma PartIs(s: Setting, leaves: seq<Bytes>, m: IdaMsg)
    requires leaves != [] && IsPart(s, leaves, m)
    ensures AllVerify(s, m) && FitsTree(m, leaves) && TrueChunks(m, leaves)
    ensures |MsgIndices(m)| < s.kappa && forall i | i in MsgIndices(m) :: i < |leaves|
    ensures Indices([m]) == MsgIndices(m)
  {
    var lo: nat, n: nat :| n < s.kappa && IsShare(s.hash, leaves, m, lo, n);
    SharesPass(s, leaves, m, lo, n);
    ShareIndices(s.hash, leaves, m, lo, n);
    hide *;
    AllOfOne(m);
    RangeBelow(lo, n, leaves, s, m);
  }

  lemma AllOfOne(m: IdaMsg)
    ensures Indices([m]) == MsgIndices(m) && Indices([]) == {}
  {
    hide MsgIndices;
    assert m in [m];
  }

  lemma RangeBelow(lo: nat, n: nat, leaves: seq<Bytes>, s: Setting, m: IdaMsg)
    requires leaves != [] && IsShare(s.hash, leaves, m, lo, n)
    ensures lo + n <= |leaves|
  {
  }

  /** Parts were held for the root: either enough, or all the leaves that arrived. */
  ghost predicate Gathers(s: Setting, st: State, root: Bytes, all: seq<IdaMsg>, got: set<nat>) {
    && (forall m | m in Held(st, root) :: m in all && m.merkleRoot == root)
    && Complete(Held(st, root), s.kappa, got)
  }

  lemma HeldNext(held: seq<IdaMsg>, m: IdaMsg)
    ensures Indices(held + [m]) == Indices(held) + MsgIndices(m)
    ensures MsgIndices(m) * Indices(held) != {} ==> exists k :: k in held && MsgIndices(m) * MsgIndices(k) != {}
    ensures forall k | k in held :: MsgIndices(k) <= Indices(held)
  {
    hide MsgIndices;
    if MsgIndices(m) * Indices(held) != {} {
      var i :| i in MsgIndices(m) * Indices(held);
      var k :| k in held && i in MsgIndices(k);
    }
  }

  /** What a verified message does to what is held for a root. */
  lemma HandledHolds(s: Setting, st: State, m: IdaMsg, root: Bytes)
    requires WellKept(st) && (m.merkleRoot == root ==> AllVerify(s, m))
    ensures var r, held := Handled(s, st, m), Held(st, root);
      r.Done? ==>
        var held' := Held(r.state, root);
        if m.merkleRoot != root then held' == held
        else held' == held + [m] || (held' == held && (|Indices(held)| >= s.kappa || MsgIndices(m) * Indices(held) != {}))
  {
    hide Indices, MsgIndices, AllVerify, InRange, Fill;
  }

  /** Enough leaves are held, or all that came. */
  predicate Complete(held: seq<IdaMsg>, kappa: nat, got: set<nat>) {
    |Indices(held)| >= kappa || Indices(held) == got
  }

  lemma CompleteNext(held: seq<IdaMsg>, m: IdaMsg, held': seq<IdaMsg>, kappa: nat, got: set<nat>)
    requires Complete(held, kappa, got)
    requires MsgIndices(m) * Indices(held) != {} ==> MsgIndices(m) <= Indices(held)
    requires held' == held + [m] || (held' == held && (|Indices(held)| >= kappa || MsgIndices(m) * Indices(held) != {}))
    ensures Complete(held', kappa, got + MsgIndices(m))
  {
    hide Indices, MsgIndices;
    HeldNext(held, m);
    if held' == held + [m] {
      SubsetSize(Indices(held), Indices(held'));
    } else if Indices(held) == got {
      assert MsgIndices(m) <= Indices(held) ==> got + MsgIndices(m) == got;
    }
  }

  lemma OneArrives(s: Setting, leaves: seq<Bytes>, root: Bytes, st: State, m: IdaMsg, all: seq<IdaMsg>, got: set<nat>)
    requires AreParts(s, leaves, root, all) && m in all && WellKept(st) && Gathers(s, st, root, all, got)
    ensures var r := Handled(s, st, m); r.Done? ==> Gathers(s, r.state, root, all, got + Brings(m, root))
  {
    hide NodeAt, Indices, MsgIndices, AllVerify, AreParts, WellKept, Handled, Complete, Held;
    if m.merkleRoot == root {
      PartFits(s, leaves, root, m, all);
      KnownPart(s, leaves, root, Held(st, root), m, all);
    }
    HandledHolds(s, st, m, root);
    var r := Handled(s, st, m);
    if r.Done? {
      if m.merkleRoot == root {
        CompleteNext(Held(st, root), m, Held(r.state, root), s.kappa, got);
      } else {
        assert got + {} == got;
      }
    }
  }

  lemma PartFits(s: Setting, leaves: seq<Bytes>, root: Bytes, m: IdaMsg, all: seq<IdaMsg>)
    requires AreParts(s, leaves, root, all) && m in all && m.merkleRoot == root
    ensures AllVerify(s, m)
  {
    PartIs(s, leaves, m);
  }

  /** A part of which a leaf is held is held. */
  lemma KnownPart(s: Setting, leaves: seq<Bytes>, root: Bytes, held: seq<IdaMsg>, m: IdaMsg, all: seq<IdaMsg>)
    requires AreParts(s, leaves, root, all) && m in all && m.merkleRoot == root
    requires forall k | k in held :: k in all && k.merkleRoot == root
    ensures MsgIndices(m) * Indices(held) != {} ==> MsgIndices(m) <= Indices(held)
  {
    hide NodeAt, MsgIndices, Indices, IsPart;
    HeldNext(held, m);
    if MsgIndices(m) * Indices(held) != {} {
      var k :| k in held && MsgIndices(m) * MsgIndices(k) != {};
      assert SameOrApart(m, k);
    }
  }

  lemma {:induction false} AllArrive(s: Setting, leaves: seq<Bytes>, root: Bytes, st: State, ms: seq<IdaMsg>, all: seq<IdaMsg>, got: set<nat>)
    requires AreParts(s, leaves, root, all) && forall m | m in ms :: m in all
    requires WellKept(st) && Gathers(s, st, root, all, got)
    ensures var r := Run(s, st, ms); r.Done? ==> Gathers(s, r.state, root, all, got + Arrived(ms, root))
    decreases |ms|
  {
    hide NodeAt, AreParts, Handled, Gathers, Brings, WellKept;
    if ms == [] {
      assert got + Arrived(ms, root) == got;
    } else {
      OneArrives(s, leaves, root, st, ms[0], all, got);
      var r := Handled(s, st, ms[0]);
      if r.Done? {
        AllArrive(s, leaves, root, r.state, ms[1..], all, got + Brings(ms[0], root));
        assert got + Arrived(ms, root) == got + Brings(ms[0], root) + Arrived(ms[1..], root);
      }
    }
  }

  /** Parts fill slots with leaves. */
  lemma PartsAreRight(s: Setting, leaves: seq<Bytes>, held: seq<IdaMsg>)
    requires leaves != [] && forall m | m in held :: IsPart(s, leaves, m)
    ensures InRange(held, |leaves|) && Paired(held) && RightSlots(Fill(held, |leaves|), leaves)
  {
    forall m | m in held ensures TrueChunks(m, leaves) && forall i | i in MsgIndices(m) :: i < |leaves| {
      PartIs(s, leaves, m);
    }
    hide IsPart, Fill;
    forall i | i in Indices(held) ensures i < |leaves| {
      var m :| m in held && i in MsgIndices(m);
    }
    var data := Fill(held, |leaves|);
    forall i: nat | i < |data| && data[i].Some? ensures data[i].value == leaves[i] {
      FillAt(held, |leaves|, i);
    }
  }

  /** A member that only gets parts of one message is never stopped by them. */
  lemma OneDoesNotStop(s: Setting, msg: Bytes, st: State, m: IdaMsg, all: seq<IdaMsg>, got: set<nat>)
    requires s.Proper() && IsErasureCode(s) && msg != [] && Leaves(s, msg) != []
    requires AreParts(s, Leaves(s, msg), SenderRoot(s, msg), all) && m in all
    requires m.merkleRoot == SenderRoot(s, msg) && WellKept(st) && Gathers(s, st, SenderRoot(s, msg), all, got)
    ensures Handled(s, st, m).Done?
  {
    var root, leaves := SenderRoot(s, msg), Leaves(s, msg);
    var held := Held(st, root);
    LeavesAre(s, msg);
    hide NodeAt, Leaves, Indices, MsgIndices, IsPart, AllVerify, InRange, Fill, IsErasureCode, RightSlots;
    PartsAreRight(s, leaves, held);
    PartsAreRight(s, leaves, held + [m]);
    if |Indices(held + [m])| >= s.kappa {
      RebuildsLeaves(s, msg, held + [m]);
    }
  }

  lemma {:induction false} NothingStops(s: Setting, msg: Bytes, st: State, ms: seq<IdaMsg>, all: seq<IdaMsg>, got: set<nat>)
    requires s.Proper() && IsErasureCode(s) && msg != [] && Leaves(s, msg) != []
    requires AreParts(s, Leaves(s, msg), SenderRoot(s, msg), all)
    requires forall m | m in ms :: m in all && m.merkleRoot == SenderRoot(s, msg)
    requires WellKept(st) && Gathers(s, st, SenderRoot(s, msg), all, got)
    ensures Run(s, st, ms).Done?
    decreases |ms|
  {
    hide NodeAt, Leaves, AreParts, Handled, Gathers, Brings, IsErasureCode;
    if ms != [] {
      OneDoesNotStop(s, msg, st, ms[0], all, got);
      OneArrives(s, Leaves(s, msg), SenderRoot(s, msg), st, ms[0], all, got);
      NothingStops(s, msg, Handled(s, st, ms[0]).state, ms[1..], all, got + Brings(ms[0], SenderRoot(s, msg)));
    }
  }

  lemma NothingYet(s: Setting, root: Bytes, all: seq<IdaMsg>)
    ensures WellKept(EMPTY) && Gathers(s, EMPTY, root, all, {})
  {
    AllOfOne(IdaMsg([], [], []));
  }

  /** Enough is held, and by more than one part. */
  lemma EnoughIsHeld(s: Setting, leaves: seq<Bytes>, root: Bytes, st: State, all: seq<IdaMsg>, got: set<nat>)
    requires s.kappa > 0 && AreParts(s, leaves, root, all) && |got| >= s.kappa && Gathers(s, st, root, all, got)
    ensures var held := Held(st, root);
      |held| >= 2 && |Indices(held)| >= s.kappa && forall m | m in held :: IsPart(s, leaves, m)
  {
    var held := Held(st, root);
    hide NodeAt, Indices, MsgIndices, IsPart;
    AllOfOne(IdaMsg([], [], []));
    if |held| == 1 {
      assert held == [held[0]] && held[0] in all;
      PartIs(s, leaves, held[0]);
    }
  }

  lemma EntryOfParts(s: Setting, msg: Bytes, st: State, all: seq<IdaMsg>, got: set<nat>)
    requires s.Proper() && IsErasureCode(s) && msg != [] && Leaves(s, msg) != []
    requires AreParts(s, Leaves(s, msg), SenderRoot(s, msg), all) && |got| >= s.kappa
    requires var root := SenderRoot(s, msg); Gathers(s, st, root, all, got) && Collected(s, st, root)
    requires CompleteExactly(s, st)
    ensures var root := SenderRoot(s, msg);
      && root in st.rebuilt && st.rebuilt[root] == Leaves(s, msg)
      && (DataOf(s, st, root) == Some(msg) <==> |msg| % s.kappa != 0 || !ReadsAsPadded(msg))
  {
    var root, leaves := SenderRoot(s, msg), Leaves(s, msg);
    hide NodeAt, Leaves, AreParts, Gathers, MsgIndices, Indices, IsErasureCode, DataOf, ReadsAsPadded, IsPart, Fill, InRange,
      Paired, RightSlots, AllVerify, Disjoint;
    EnoughIsHeld(s, leaves, root, st, all, got);
    LeavesAre(s, msg);
    PartsAreRight(s, leaves, Held(st, root));
    RebuildsLeaves(s, msg, Held(st, root));
    ReadsBack(s, msg, st, root);
  }

  /**
    What a sender divided arrives: whatever else a member receives, in whatever order and however
    often, once parts with kappa leaves of a message have come, none of them with kappa alone, its root
    has an entry, that is the sender's shards, and a reader gets the message exactly when its length had
    to be padded or its own tail does not read as padding. Parts alone never stop the member.
   */
  lemma PartsArrive(s: Setting, msg: Bytes, ms: seq<IdaMsg>)
    requires s.Proper() && IsErasureCode(s) && msg != [] && Leaves(s, msg) != []
    requires AreParts(s, Leaves(s, msg), SenderRoot(s, msg), ms)
    requires |Arrived(ms, SenderRoot(s, msg))| >= s.kappa
    ensures var r, root := Run(s, EMPTY, ms), SenderRoot(s, msg);
      && ((forall m | m in ms :: m.merkleRoot == root) ==> r.Done?)
      && (r.Done? ==>
            && root in r.state.rebuilt && r.state.rebuilt[root] == Leaves(s, msg)
            && (DataOf(s, r.state, root) == Some(msg) <==> |msg| % s.kappa != 0 || !ReadsAsPadded(msg)))
  {
    var root, leaves, r := SenderRoot(s, msg), Leaves(s, msg), Run(s, EMPTY, ms);
    hide Run, NodeAt, Leaves, AreParts, Handled, Gathers, MsgIndices, Indices, IsErasureCode, DataOf, ReadsAsPadded, Arrived, Collected,
      CompleteExactly;
    NothingYet(s, root, ms);
    if forall m | m in ms :: m.merkleRoot == root {
      NothingStops(s, msg, EMPTY, ms, ms, {});
    }
    if r.Done? {
      AllArrive(s, leaves, root, EMPTY, ms, ms, {});
      NothingCollected(s, root);
      RunCollects(s, EMPTY, ms, root);
      RebuiltExactly(s, ms);
      assert {} + Arrived(ms, root) == Arrived(ms, root);
      EntryOfParts(s, msg, r.state, ms, Arrived(ms, root));
    }
  }

  lemma ApartOrSame(h: Bytes -> Bytes, leaves: seq<Bytes>, a: IdaMsg, b: IdaMsg, lo: nat, lo': nat, n: nat)
    requires leaves != [] && IsShare(h, leaves, a, lo, n) && IsShare(h, leaves, b, lo', n)
    requires lo == lo' || lo + n <= lo' || lo' + n <= lo
    ensures SameOrApart(a, b)
  {
    hide NodeAt, MsgIndices, Indices, IsShare;
    ShareIndices(h, leaves, a, lo, n);
    ShareIndices(h, leaves, b, lo', n);
    AllOfOne(a);
    AllOfOne(b);
  }

  lemma ShareOfTwo(h: Bytes -> Bytes, leaves: seq<Bytes>, msgs: seq<IdaMsg>, j: nat, k: nat)
    requires AreShares(h, leaves, msgs) && j < |msgs| && k < |msgs|
    ensures SameOrApart(msgs[j], msgs[k])
  {
    hide NodeAt, SameOrApart, IsShare;
    var each := |leaves| / |msgs|;
    if j < k { Blocks(j, k, each); } else if k < j { Blocks(k, j, each); }
    ApartOrSame(h, leaves, msgs[j], msgs[k], j * each, k * each, each);
  }

  lemma ShareIsPart(s: Setting, leaves: seq<Bytes>, msgs: seq<IdaMsg>, k: nat)
    requires AreShares(s.hash, leaves, msgs) && k < |msgs| && |leaves| / |msgs| < s.kappa
    ensures IsPart(s, leaves, msgs[k])
  {
    hide NodeAt, IsShare;
    var each := |leaves| / |msgs|;
    assert IsShare(s.hash, leaves, msgs[k], k * each, each);
  }

  lemma SharesAreParts(s: Setting, leaves: seq<Bytes>, root: Bytes, msgs: seq<IdaMsg>, ms: seq<IdaMsg>)
    requires AreShares(s.hash, leaves, msgs) && |leaves| / |msgs| < s.kappa && root == NodeAt(s.hash, leaves, false, 1)
    requires forall m | m in ms && m.merkleRoot == root :: m in msgs
    ensures AreParts(s, leaves, root, ms)
  {
    assert leaves != [];
    hide NodeAt, IsPart, AreShares, SameOrApart;
    forall m | m in ms && m.merkleRoot == root ensures IsPart(s, leaves, m) {
      var k: nat :| k < |msgs| && msgs[k] == m;
      ShareIsPart(s, leaves, msgs, k);
    }
    forall a, b | a in ms && b in ms && a.merkleRoot == root && b.merkleRoot == root ensures SameOrApart(a, b) {
      var j: nat :| j < |msgs| && msgs[j] == a;
      var k: nat :| k < |msgs| && msgs[k] == b;
      ShareOfTwo(s.hash, leaves, msgs, j, k);
    }
  }

  lemma Blocks(a: nat, b: nat, each: nat)
    requires a < b
    ensures a * each + each <= b * each
  {
    assert b * each == a * each + each + (b - a - 1) * each;
  }

  /** So a message dispersed by its sender arrives wherever enough of its shares do. */
  lemma DispersalArrives(s: Setting, msg: Bytes, msgs: seq<IdaMsg>, ms: seq<IdaMsg>)
    requires s.Proper() && IsErasureCode(s) && msg != [] && Leaves(s, msg) != []
    requires AreShares(s.hash, Leaves(s, msg), msgs) && s.Total() / |msgs| < s.kappa
    requires forall m | m in ms :: m in msgs
    requires |Arrived(ms, SenderRoot(s, msg))| >= s.kappa
    ensures var r, root := Run(s, EMPTY, ms), SenderRoot(s, msg);
      && r.Done? && root in r.state.rebuilt && r.state.rebuilt[root] == Leaves(s, msg)
      && (DataOf(s, r.state, root) == Some(msg) <==> |msg| % s.kappa != 0 || !ReadsAsPadded(msg))
  {
    hide Run, NodeAt, Leaves, AreParts, IsErasureCode, DataOf, ReadsAsPadded, Arrived;
    LeavesAre(s, msg);
    SharesAreParts(s, Leaves(s, msg), SenderRoot(s, msg), msgs, ms);
    forall m | m in ms ensures m.merkleRoot == SenderRoot(s, msg) {
      var k: nat :| k < |msgs| && msgs[k] == m;
    }
    PartsArrive(s, msg, ms);
  }
}
