/** Dispersal of a message as erasure-coded chunks with Merkle proofs, and its collection at a member. */
module IdaGossip {
  import opened Sequences
  import opened Bytes
  import opened Merkle
  import opened MerkleTrees
  import opened Padding

  /** kappa data shards, parity more, and the erasure code and hash in use. */
  datatype Setting = Setting(
    kappa: nat, parity: nat, hash: Bytes -> Bytes,
    encode: seq<Bytes> -> seq<Bytes>,
    rebuild: seq<Option<Bytes>> -> Option<seq<Bytes>>)
  {
    predicate Proper() {
      0 < kappa <= 256
    }

    function Total(): nat {
      kappa + parity
    }
  }

  datatype IdaMsg = IdaMsg(chunks: seq<Bytes>, proofs: seq<Proof>, merkleRoot: Bytes)

  /** Non-empty shards of equal size. */
  predicate AreShards(kappa: nat, d: seq<Bytes>) {
    |d| == kappa && forall i | 0 <= i < kappa :: |d[i]| == |d[0]| && d[i] != []
  }

  /** Some of the shards are missing, none is wrong, and kappa are there. */
  ghost predicate Covers(kappa: nat, part: seq<Option<Bytes>>, all: seq<Bytes>) {
    && |part| == |all|
    && (forall i | 0 <= i < |all| :: part[i].Some? ==> part[i].value == all[i])
    && |set i | 0 <= i < |part| && part[i].Some?| >= kappa
  }

  /** The code is systematic, keeps the size of shards, and any kappa shards determine all of them. */
  ghost predicate IsErasureCode(s: Setting) {
    forall d | AreShards(s.kappa, d) ::
      && |s.encode(d)| == s.Total() && s.encode(d)[..s.kappa] == d
      && (s.kappa > 0 ==> forall x | x in s.encode(d) :: |x| == |d[0]|)
      && forall part | Covers(s.kappa, part, s.encode(d)) :: s.rebuild(part) == Some(s.encode(d))
  }

  /** Rebuilding only fills in what is missing. */
  ghost predicate KeepsWhatIsThere(s: Setting) {
    forall part | s.rebuild(part).Some? :: Keeps(part, s.rebuild(part).value)
  }

  predicate Keeps(part: seq<Option<Bytes>>, all: seq<Bytes>) {
    |all| == |part| && forall i | 0 <= i < |part| && part[i].Some? :: all[i] == part[i].value
  }

  function Slices(b: Bytes, size: nat, n: nat): (d: seq<Bytes>)
    requires size * n <= |b|
    ensures |d| == n
  {
    if n == 0 then []
    else
      assert size * (n - 1) + size == size * n;
      Slices(b, size, n - 1) + [b[size * (n - 1)..size * n]]
  }

  function Flat(d: seq<Bytes>): Bytes {
    if d == [] then [] else Flat(d[..|d| - 1]) + d[|d| - 1]
  }

  lemma {:induction false} FlatSlices(b: Bytes, size: nat, n: nat)
    requires size * n <= |b|
    ensures Flat(Slices(b, size, n)) == b[..size * n]
    ensures forall i | 0 <= i < n :: |Slices(b, size, n)[i]| == size
  {
    hide Slices, Flat;
    if n > 0 {
      NextSlice(b, size, n);
      FlatSlices(b, size, n - 1);
      var lo, hi := size * (n - 1), size * n;
      FlatSnoc(Slices(b, size, n - 1), b[lo..hi]);
      Join(b, lo, hi);
    } else {
      NoSlices(b, size);
    }
  }

  lemma NoSlices(b: Bytes, size: nat)
    ensures size * 0 == 0 && Slices(b, size, 0) == [] && Flat([]) == [] && b[..0] == []
  {
  }

  lemma Join(b: Bytes, lo: nat, hi: nat)
    requires lo <= hi <= |b|
    ensures b[..hi] == b[..lo] + b[lo..hi]
  {
  }

  lemma NextSlice(b: Bytes, size: nat, n: nat)
    requires 0 < n && size * n <= |b|
    ensures size * (n - 1) <= size * n && size * n - size * (n - 1) == size
    ensures Slices(b, size, n) == Slices(b, size, n - 1) + [b[size * (n - 1)..size * n]]
  {
    assert size * (n - 1) + size == size * n;
  }

  lemma FlatSnoc(d: seq<Bytes>, c: Bytes)
    ensures Flat(d + [c]) == Flat(d) + c
  {
    assert (d + [c])[..|d|] == d;
  }

  /** The data shards of a message. */
  function Shards(s: Setting, msg: Bytes): seq<Bytes>
    requires s.Proper()
  {
    var p := PadTo(msg, s.kappa);
    PaddedSize(msg, s.kappa);
    Slices(p, |p| / s.kappa, s.kappa)
  }

  lemma PaddedSize(msg: Bytes, kappa: nat)
    requires 0 < kappa <= 256
    ensures var p := PadTo(msg, kappa);
      |p| % kappa == 0 && |p| / kappa * kappa == |p| && (msg != [] ==> |p| / kappa > 0)
  {
    MissingIsLeast(|msg|, kappa, Missing(|msg|, kappa));
  }

  lemma ShardsAre(s: Setting, msg: Bytes)
    requires s.Proper() && msg != []
    ensures AreShards(s.kappa, Shards(s, msg)) && Flat(Shards(s, msg)) == PadTo(msg, s.kappa)
  {
    var p := PadTo(msg, s.kappa);
    PaddedSize(msg, s.kappa);
    FlatSlices(p, |p| / s.kappa, s.kappa);
    assert p[..|p|] == p;
  }

  /** All shards of a message: the leaves of its tree. */
  function Leaves(s: Setting, msg: Bytes): seq<Bytes>
    requires s.Proper()
  {
    s.encode(Shards(s, msg))
  }

  /** The member's two tables: messages by root, and rebuilt shards by root. */
  datatype State = State(msgs: map<Bytes, seq<IdaMsg>>, rebuilt: map<Bytes, seq<Bytes>>)

  function MsgIndices(m: IdaMsg): set<nat> {
    set i | 0 <= i < |m.proofs| :: m.proofs[i].index
  }

  function Indices(ms: seq<IdaMsg>): set<nat> {
    set m, i | m in ms && i in MsgIndices(m) :: i
  }

  /** An index beyond the shards stops the program. */
  predicate InRange(ms: seq<IdaMsg>, total: nat) {
    forall i | i in Indices(ms) :: i < total
  }

  predicate AllVerify(s: Setting, m: IdaMsg) {
    && |m.chunks| == |m.proofs|
    && forall i | 0 <= i < |m.chunks| :: Verifies(m.chunks[i], m.proofs[i], m.merkleRoot, s.hash, [])
  }

  /** The shards gathered from one message, on top of what there is. */
  function FillOne(data: seq<Option<Bytes>>, m: IdaMsg, n: nat): (r: seq<Option<Bytes>>)
    requires n <= |m.chunks| && n <= |m.proofs|
    requires forall i | i in MsgIndices(m) :: i < |data|
    ensures |r| == |data|
  {
    if n == 0 then data
    else
      assert m.proofs[n - 1].index in MsgIndices(m);
      FillOne(data, m, n - 1)[m.proofs[n - 1].index := Some(m.chunks[n - 1])]
  }

  /** One proof per chunk. */
  predicate Paired(ms: seq<IdaMsg>) {
    forall m | m in ms :: |m.chunks| == |m.proofs|
  }

  function Fill(ms: seq<IdaMsg>, total: nat): (r: seq<Option<Bytes>>)
    requires InRange(ms, total) && Paired(ms)
    ensures |r| == total
  {
    if ms == [] then seq(total, i => None)
    else
      var n := |ms| - 1;
      assert forall i | i in MsgIndices(ms[n]) :: i in Indices(ms);
      assert forall i | i in Indices(ms[..n]) :: i in Indices(ms);
      FillOne(Fill(ms[..n], total), ms[n], |ms[n].chunks|)
  }

  /** Stored messages have one proof per chunk. */
  ghost predicate WellKept(st: State) {
    forall root | root in st.msgs :: Paired(st.msgs[root])
  }

  function Held(st: State, root: Bytes): seq<IdaMsg> {
    if root in st.msgs then st.msgs[root] else []
  }

  datatype Outcome = Fatal | Done(state: State, complete: bool)

  /** What a message does to the tables; `complete` when its root has just been rebuilt. */
  ghost function Handled(s: Setting, st: State, m: IdaMsg): (r: Outcome)
    requires WellKept(st)
    ensures r.Done? ==> WellKept(r.state)
  {
    var held := Held(st, m.merkleRoot);
    if !InRange(held, s.Total()) then Fatal
    else if |Indices(held)| >= s.kappa then Done(st, false)
    else if !AllVerify(s, m) then Done(st, false)
    else if m.merkleRoot in st.msgs && MsgIndices(m) * Indices(held) != {} then Done(st, false)
    else
      var more := st.(msgs := st.msgs[m.merkleRoot := held + [m]]);
      if m.merkleRoot !in st.msgs then Done(more, false)
      else if !InRange(held + [m], s.Total()) then Fatal
      else if |Indices(held + [m])| < s.kappa then Done(more, false)
      else
        match s.rebuild(Fill(held + [m], s.Total()))
        case None => Fatal
        case Some(d) =>
          if m.merkleRoot in st.rebuilt then Done(more, false)
          else Done(more.(rebuilt := st.rebuilt[m.merkleRoot := d]), true)
  }

  /** What a reader gets: nothing when there is no entry, or nothing in it. */
  function DataOf(s: Setting, st: State, root: Bytes): Option<Bytes> {
    if root !in st.rebuilt || |st.rebuilt[root]| < s.kappa then None
    else
      var b := Flat(st.rebuilt[root][..s.kappa]);
      if b == [] then None else Some(Recovered(b))
  }

  ghost function Run(s: Setting, st: State, ms: seq<IdaMsg>): (r: Outcome)
    requires WellKept(st)
    ensures r.Done? ==> WellKept(r.state)
    decreases |ms|
  {
    if ms == [] then Done(st, false)
    else
      match Handled(s, st, ms[0])
      case Fatal => Fatal
      case Done(next, _) => Run(s, next, ms[1..])
  }

  /** A message made for the tree over `leaves`: its proofs reach from leaves to the root. */
  predicate FitsTree(m: IdaMsg, leaves: seq<Bytes>)
    requires leaves != []
  {
    forall i | 0 <= i < |m.proofs| :: m.proofs[i].index < |leaves| && |m.proofs[i].hashes| == Depth(leaves)
  }

  /** The chunks are the leaves their proofs are for. */
  ghost predicate TrueChunks(m: IdaMsg, leaves: seq<Bytes>) {
    && |m.chunks| == |m.proofs|
    && forall i | 0 <= i < |m.chunks| :: m.proofs[i].index < |leaves| && m.chunks[i] == leaves[m.proofs[i].index]
  }

  lemma IndicesNext(ms: seq<IdaMsg>, a: nat)
    requires a < |ms|
    ensures Indices(ms[..a + 1]) == Indices(ms[..a]) + MsgIndices(ms[a])
    ensures MsgIndices(ms[a]) <= Indices(ms)
  {
    assert ms[..a + 1] == ms[..a] + [ms[a]];
    assert ms[a] in ms;
  }

  /** Chunk j is the last of the first n that is for its index. */
  predicate LastOf(m: IdaMsg, j: nat, n: nat) {
    && j < n <= |m.proofs|
    && forall k | j < k < n :: m.proofs[k].index != m.proofs[j].index
  }

  /** Chunk j of the message is the one gathered for its index. */
  predicate Gathered(m: IdaMsg, j: nat) {
    |m.chunks| == |m.proofs| && LastOf(m, j, |m.proofs|)
  }

  predicate Disjoint(ms: seq<IdaMsg>) {
    forall a, b | 0 <= a < b < |ms| :: MsgIndices(ms[a]) !! MsgIndices(ms[b])
  }

  /** Every chunk gathered came with a proof of the tree's depth. */
  ghost predicate FullDepth(ms: seq<IdaMsg>, leaves: seq<Bytes>)
    requires leaves != []
  {
    forall m, j: nat | m in ms && Gathered(m, j) :: |m.proofs[j].hashes| == Depth(leaves)
  }

  ghost predicate NotDeeper(ms: seq<IdaMsg>, leaves: seq<Bytes>)
    requires leaves != []
  {
    forall m, j: nat | m in ms && Gathered(m, j) :: |m.proofs[j].hashes| <= Depth(leaves)
  }

  /** Slot i after n chunks: the last of them for it, or what was there. */
  lemma {:induction false} FillOneAt(data: seq<Option<Bytes>>, m: IdaMsg, n: nat, i: nat)
    requires n <= |m.chunks| && n <= |m.proofs| && i < |data|
    requires forall x | x in MsgIndices(m) :: x < |data|
    ensures var r := FillOne(data, m, n)[i];
      || (exists j: nat :: LastOf(m, j, n) && m.proofs[j].index == i && r == Some(m.chunks[j]))
      || (r == data[i] && forall j | 0 <= j < n :: m.proofs[j].index != i)
  {
    if n > 0 {
      assert m.proofs[n - 1].index in MsgIndices(m);
      FillOneAt(data, m, n - 1, i);
      if m.proofs[n - 1].index == i {
        assert LastOf(m, n - 1, n);
      } else if j: nat :| LastOf(m, j, n - 1) && m.proofs[j].index == i && FillOne(data, m, n - 1)[i] == Some(m.chunks[j]) {
        assert LastOf(m, j, n);
      }
    }
  }

  /** A filled slot holds a chunk gathered for it, and exactly the indices at hand are filled. */
  lemma {:induction false} FillAt(ms: seq<IdaMsg>, total: nat, i: nat)
    requires InRange(ms, total) && Paired(ms) && i < total
    ensures var r := Fill(ms, total)[i];
      && (r.Some? <==> i in Indices(ms))
      && (r.Some? ==> exists m, j: nat :: m in ms && Gathered(m, j) && m.proofs[j].index == i && r == Some(m.chunks[j]))
  {
    if ms != [] {
      var n := |ms| - 1;
      var front, m := ms[..n], ms[n];
      IndicesNext(ms, n);
      assert ms[..n + 1] == ms;
      FillAt(front, total, i);
      FillOneAt(Fill(front, total), m, |m.chunks|, i);
      MsgIndicesAt(m, i);
    }
  }

  lemma MsgIndicesAt(m: IdaMsg, i: nat)
    ensures i in MsgIndices(m) <==> exists j: nat :: j < |m.proofs| && m.proofs[j].index == i
  {
  }

  /** With indices disjoint between messages, every gathered chunk sits in its slot. */
  lemma {:induction false} GatheredIsFilled(ms: seq<IdaMsg>, total: nat, a: nat, j: nat)
    requires InRange(ms, total) && Paired(ms) && Disjoint(ms) && a < |ms| && Gathered(ms[a], j)
    ensures ms[a].proofs[j].index < total && Fill(ms, total)[ms[a].proofs[j].index] == Some(ms[a].chunks[j])
  {
    hide Indices, MsgIndices;
    var n := |ms| - 1;
    var front, m, i := ms[..n], ms[n], ms[a].proofs[j].index;
    IndicesNext(ms, n);
    IndicesNext(ms, a);
    MsgIndicesAt(ms[a], i);
    assert ms[..n + 1] == ms && i in Indices(ms);
    FillOneAt(Fill(front, total), m, |m.chunks|, i);
    MsgIndicesAt(m, i);
    if a < n {
      assert front[a] == ms[a];
      GatheredIsFilled(front, total, a, j);
    }
  }

  /** Filled slots hold the leaves. */
  predicate RightSlots(data: seq<Option<Bytes>>, leaves: seq<Bytes>) {
    |data| == |leaves| && forall i | 0 <= i < |data| && data[i].Some? :: data[i].value == leaves[i]
  }

  /** Messages that verified against the root of the tree over `leaves`. */
  ghost predicate AreVerified(s: Setting, ms: seq<IdaMsg>, leaves: seq<Bytes>)
    requires leaves != []
  {
    forall m | m in ms :: AllVerify(s, m) && m.merkleRoot == NodeAt(s.hash, leaves, false, 1)
  }

  /** Chunks of full depth are the leaves. */
  lemma DeepSlotsAreRight(s: Setting, ms: seq<IdaMsg>, leaves: seq<Bytes>)
    requires leaves != [] && InRange(ms, |leaves|) && Paired(ms) && AreVerified(s, ms, leaves) && FullDepth(ms, leaves)
    requires IsHash(s.hash) && NoSecondPreimage(s.hash, Hashed(s.hash, leaves, false))
    ensures RightSlots(Fill(ms, |leaves|), leaves)
  {
    hide NodeAt, Depth, Verifies, Hashed, NoSecondPreimage, IsHash, InRange, Paired, Fill, Indices, MsgIndices;
    var data := Fill(ms, |leaves|);
    forall i: nat | i < |data| && data[i].Some? ensures data[i].value == leaves[i] {
      FillAt(ms, |leaves|, i);
      var m, j: nat :| m in ms && Gathered(m, j) && m.proofs[j].index == i && data[i] == Some(m.chunks[j]);
      AcceptedIsTheLeaf(s.hash, leaves, false, m.chunks[j], m.proofs[j]);
    }
  }

  /** Plain values; or values that are not two digests long, with no gathered proof deeper than the tree. */
  ghost predicate DepthTells(h: Bytes -> Bytes, ms: seq<IdaMsg>, leaves: seq<Bytes>)
    requires leaves != []
  {
    || Plain(h, leaves)
    || ((forall x | x in leaves :: |x| != 2 * HASH_LENGTH) && NotDeeper(ms, leaves))
  }

  /** Then only proofs of full depth give leaves. */
  lemma RightSlotsAreDeep(s: Setting, ms: seq<IdaMsg>, leaves: seq<Bytes>)
    requires leaves != [] && InRange(ms, |leaves|) && Paired(ms) && Disjoint(ms) && AreVerified(s, ms, leaves)
    requires DepthTells(s.hash, ms, leaves) && RightSlots(Fill(ms, |leaves|), leaves)
    requires IsHash(s.hash) && NeverZero(s.hash) && NoSecondPreimage(s.hash, Hashed(s.hash, leaves, false))
    ensures FullDepth(ms, leaves)
  {
    hide NodeAt, Depth, Verifies, Hashed, NoSecondPreimage, IsHash, NeverZero, InRange, Paired, Disjoint, Fill, Indices;
    forall m, j: nat | m in ms && Gathered(m, j) ensures |m.proofs[j].hashes| == Depth(leaves) {
      var a :| 0 <= a < |ms| && ms[a] == m;
      GatheredIsFilled(ms, |leaves|, a, j);
      var value, proof := m.chunks[j], m.proofs[j];
      assert value == leaves[proof.index] && value in leaves;
      if Plain(s.hash, leaves) {
        AcceptedIsNotDeeper(s.hash, leaves, value, proof);
      }
      assert value + [] == value;
      if |proof.hashes| < Depth(leaves) {
        AcceptedIsInner(s.hash, leaves, false, value, proof, []);
        if Plain(s.hash, leaves) {
          ShallowIsNotPlain(s.hash, leaves, value, proof, leaves);
        }
      }
    }
  }

  /** What a run has collected for a root, and how its entry came about. */
  ghost predicate Collected(s: Setting, st: State, root: Bytes) {
    var held := Held(st, root);
    && Disjoint(held) && Paired(held)
    && (forall m | m in held :: AllVerify(s, m) && m.merkleRoot == root)
    && (root in st.rebuilt ==>
          && InRange(held, s.Total()) && |Indices(held)| >= s.kappa
          && s.rebuild(Fill(held, s.Total())) == Some(st.rebuilt[root]))
  }

  lemma HandledCollects(s: Setting, st: State, m: IdaMsg, root: Bytes)
    requires WellKept(st) && Collected(s, st, root)
    ensures var r := Handled(s, st, m);
      r.Done? ==> Collected(s, r.state, root) && forall x | x in Held(r.state, root) :: x in Held(st, root) || x == m
  {
    hide AllVerify, Fill, InRange, Disjoint, MsgIndices, Indices;
    var r, held := Handled(s, st, m), Held(st, root);
    if r.Done? && m.merkleRoot == root && r.state != st {
      if root in st.msgs {
        StaysDisjoint(held, m);
      } else {
        OneIsDisjoint(m);
        assert [] + [m] == [m];
      }
    }
  }

  lemma StaysDisjoint(held: seq<IdaMsg>, m: IdaMsg)
    requires Disjoint(held) && MsgIndices(m) * Indices(held) == {}
    ensures Disjoint(held + [m])
  {
    hide MsgIndices, Indices;
    forall a | 0 <= a < |held| ensures MsgIndices(held[a]) !! MsgIndices(m) {
      IndicesNext(held, a);
      forall i | i in MsgIndices(held[a]) ensures i !in MsgIndices(m) {
        assert i in Indices(held) && i !in MsgIndices(m) * Indices(held);
      }
    }
  }

  lemma OneIsDisjoint(m: IdaMsg)
    ensures Disjoint([m])
  {
  }

  /** Everything held was received, and an entry is rebuilt from all that is held. */
  lemma {:induction false} RunCollects(s: Setting, st: State, ms: seq<IdaMsg>, root: Bytes)
    requires WellKept(st) && Collected(s, st, root)
    ensures var r := Run(s, st, ms);
      r.Done? ==> Collected(s, r.state, root) && forall x | x in Held(r.state, root) :: x in Held(st, root) || x in ms
    decreases |ms|
  {
    hide Handled, Collected, Held;
    if ms != [] {
      HandledCollects(s, st, ms[0], root);
      var r := Handled(s, st, ms[0]);
      if r.Done? {
        RunCollects(s, r.state, ms[1..], root);
      }
    }
  }

  const EMPTY: State := State(map[], map[])

  lemma NothingCollected(s: Setting, root: Bytes)
    ensures WellKept(EMPTY) && Collected(s, EMPTY, root) && Held(EMPTY, root) == []
  {
  }

  /** Right slots, enough of them, rebuild all leaves. */
  lemma RebuildsLeaves(s: Setting, msg: Bytes, ms: seq<IdaMsg>)
    requires s.Proper() && IsErasureCode(s) && msg != [] && |Indices(ms)| >= s.kappa
    requires InRange(ms, s.Total()) && Paired(ms) && RightSlots(Fill(ms, s.Total()), Leaves(s, msg))
    ensures s.rebuild(Fill(ms, s.Total())) == Some(Leaves(s, msg))
  {
    hide InRange, Paired, Fill, Indices, Shards;
    ShardsAre(s, msg);
    var data := Fill(ms, s.Total());
    forall i: nat | i < |data| ensures data[i].Some? <==> i in Indices(ms) {
      FillAt(ms, s.Total(), i);
    }
    assert (set i | 0 <= i < |data| && data[i].Some?) == Indices(ms) by {
      IndicesBelow(ms, s.Total());
    }
    assert Covers(s.kappa, data, Leaves(s, msg));
  }

  lemma IndicesBelow(ms: seq<IdaMsg>, total: nat)
    requires InRange(ms, total)
    ensures forall i | i in Indices(ms) :: i < total
  {
  }

  lemma LeavesAre(s: Setting, msg: Bytes)
    requires s.Proper() && IsErasureCode(s) && msg != []
    ensures |Leaves(s, msg)| == s.Total() && s.Total() > 0
  {
    ShardsAre(s, msg);
  }

  /** The root a sender's message is known by. */
  function SenderRoot(s: Setting, msg: Bytes): Bytes
    requires s.Proper() && Leaves(s, msg) != []
  {
    NodeAt(s.hash, Leaves(s, msg), false, 1)
  }

  /** The member's hash does what the trees ask of it, for this sender's tree. */
  ghost predicate SoundFor(h: Bytes -> Bytes, leaves: seq<Bytes>)
    requires leaves != []
  {
    IsHash(h) && NeverZero(h) && NoSecondPreimage(h, Hashed(h, leaves, false))
  }

  /** What is held for a sender's root at the end of a run with an entry for it. */
  lemma HeldAtTheEnd(s: Setting, msg: Bytes, ms: seq<IdaMsg>)
    requires s.Proper() && IsErasureCode(s) && msg != [] && Leaves(s, msg) != []
    ensures var r, root := Run(s, EMPTY, ms), SenderRoot(s, msg);
      r.Done? && root in r.state.rebuilt ==>
        var held := Held(r.state, root);
        && InRange(held, |Leaves(s, msg)|) && Paired(held) && Disjoint(held) && AreVerified(s, held, Leaves(s, msg))
        && |Leaves(s, msg)| == s.Total() && |Indices(held)| >= s.kappa
        && s.rebuild(Fill(held, s.Total())) == Some(r.state.rebuilt[root])
  {
    hide Run, InRange, Paired, Disjoint, Indices, AllVerify, Fill, NodeAt;
    NothingCollected(s, SenderRoot(s, msg));
    RunCollects(s, EMPTY, ms, SenderRoot(s, msg));
    LeavesAre(s, msg);
  }

  /**
    End to end: whatever messages arrive, in whatever order, once the root of a sender's message has
    an entry gathered from proofs of full depth, the entry is the sender's shards, and a reader gets
    the sender's message exactly when its length had to be padded or its own tail does not read as
    padding.
   */
  lemma EndToEnd(s: Setting, msg: Bytes, ms: seq<IdaMsg>)
    requires s.Proper() && IsErasureCode(s) && msg != [] && Leaves(s, msg) != []
    requires SoundFor(s.hash, Leaves(s, msg))
    ensures var r, root := Run(s, EMPTY, ms), SenderRoot(s, msg);
      r.Done? && root in r.state.rebuilt && FullDepth(Held(r.state, root), Leaves(s, msg)) ==>
        && r.state.rebuilt[root] == Leaves(s, msg)
        && (DataOf(s, r.state, root) == Some(msg) <==> |msg| % s.kappa != 0 || !ReadsAsPadded(msg))
  {
    var r, root, leaves := Run(s, EMPTY, ms), SenderRoot(s, msg), Leaves(s, msg);
    HeldAtTheEnd(s, msg, ms);
    if r.Done? && root in r.state.rebuilt && FullDepth(Held(r.state, root), leaves) {
      hide *;
      Unfold(s, leaves);
      DeepSlotsAreRight(s, Held(r.state, root), leaves);
      RebuildsLeaves(s, msg, Held(r.state, root));
      ReadsBack(s, msg, r.state, root);
    }
  }

  lemma Unfold(s: Setting, leaves: seq<Bytes>)
    requires leaves != [] && SoundFor(s.hash, leaves)
    ensures IsHash(s.hash) && NeverZero(s.hash) && NoSecondPreimage(s.hash, Hashed(s.hash, leaves, false))
  {
  }

  /**
    Exactly then: when no shard begins or ends with a digest or is the padding pair, or shards are not
    two digests long and no gathered proof is deeper than the tree, an entry is the sender's shards if and only if every chunk
    it was gathered from came with a proof of full depth. Shards shorter than a digest are plain.
   */
  lemma EntryIsRightIff(s: Setting, msg: Bytes, ms: seq<IdaMsg>)
    requires s.Proper() && IsErasureCode(s) && KeepsWhatIsThere(s) && msg != [] && Leaves(s, msg) != []
    requires SoundFor(s.hash, Leaves(s, msg))
    ensures ShardSize(s, msg) < HASH_LENGTH ==> Plain(s.hash, Leaves(s, msg))
    ensures var r, root, leaves := Run(s, EMPTY, ms), SenderRoot(s, msg), Leaves(s, msg);
      && r.Done? && root in r.state.rebuilt
      && (Plain(s.hash, leaves) || (ShardSize(s, msg) != 2 * HASH_LENGTH && NotDeeper(Held(r.state, root), leaves))) ==>
        (r.state.rebuilt[root] == leaves <==> FullDepth(Held(r.state, root), leaves))
  {
    var r, root, leaves := Run(s, EMPTY, ms), SenderRoot(s, msg), Leaves(s, msg);
    HeldAtTheEnd(s, msg, ms);
    EndToEnd(s, msg, ms);
    LeafSizes(s, msg);
    if ShardSize(s, msg) < HASH_LENGTH {
      ShortIsPlain(s.hash, leaves);
    }
    if r.Done? && root in r.state.rebuilt && DepthTells(s.hash, Held(r.state, root), leaves) && r.state.rebuilt[root] == leaves {
      hide *;
      Unfold(s, leaves);
      KeptSlots(s, Fill(Held(r.state, root), s.Total()), leaves);
      RightSlotsAreDeep(s, Held(r.state, root), leaves);
    }
  }

  function ShardSize(s: Setting, msg: Bytes): nat
    requires s.Proper()
  {
    PaddedSize(msg, s.kappa);
    var p := PadTo(msg, s.kappa);
    |p| / s.kappa
  }

  lemma LeafSizes(s: Setting, msg: Bytes)
    requires s.Proper() && IsErasureCode(s) && msg != []
    ensures forall x | x in Leaves(s, msg) :: |x| == ShardSize(s, msg)
  {
    ShardsAre(s, msg);
    var p := PadTo(msg, s.kappa);
    PaddedSize(msg, s.kappa);
    FlatSlices(p, |p| / s.kappa, s.kappa);
    assert Shards(s, msg)[0] in Shards(s, msg);
  }

  lemma KeptSlots(s: Setting, data: seq<Option<Bytes>>, leaves: seq<Bytes>)
    requires KeepsWhatIsThere(s) && s.rebuild(data) == Some(leaves)
    ensures RightSlots(data, leaves)
  {
    assert Keeps(data, leaves);
  }

  /** Everything held for a root was received: checking messages as they come is checking what is held. */
  lemma HeldWereReceived(s: Setting, msg: Bytes, ms: seq<IdaMsg>)
    requires s.Proper() && Leaves(s, msg) != []
    requires forall m | m in ms && m.merkleRoot == SenderRoot(s, msg) :: FitsTree(m, Leaves(s, msg))
    ensures var r := Run(s, EMPTY, ms); r.Done? ==> FullDepth(Held(r.state, SenderRoot(s, msg)), Leaves(s, msg))
  {
    hide Run, NodeAt, Leaves, Depth;
    NothingCollected(s, SenderRoot(s, msg));
    RunCollects(s, EMPTY, ms, SenderRoot(s, msg));
  }

  lemma ReadsBack(s: Setting, msg: Bytes, st: State, root: Bytes)
    requires s.Proper() && IsErasureCode(s) && msg != []
    requires root in st.rebuilt && st.rebuilt[root] == Leaves(s, msg)
    ensures DataOf(s, st, root) == Some(msg) <==> |msg| % s.kappa != 0 || !ReadsAsPadded(msg)
  {
    ShardsAre(s, msg);
    RecoveredExactly(msg, s.kappa);
  }

  /** A root has an entry exactly when at least two messages are held for it that bring kappa indices together. */
  ghost predicate CompleteExactly(s: Setting, st: State) {
    forall root :: root in st.rebuilt <==> |Held(st, root)| >= 2 && |Indices(Held(st, root))| >= s.kappa
  }

  lemma HandledCompletes(s: Setting, st: State, m: IdaMsg)
    requires WellKept(st) && CompleteExactly(s, st) && forall root | root in st.msgs :: st.msgs[root] != []
    ensures var r := Handled(s, st, m);
      r.Done? ==> CompleteExactly(s, r.state) && forall root | root in r.state.msgs :: r.state.msgs[root] != []
  {
    hide Fill, AllVerify, Indices, InRange;
  }

  lemma {:induction false} RunCompletes(s: Setting, st: State, ms: seq<IdaMsg>)
    requires WellKept(st) && CompleteExactly(s, st) && forall root | root in st.msgs :: st.msgs[root] != []
    ensures var r := Run(s, st, ms); r.Done? ==> CompleteExactly(s, r.state)
    decreases |ms|
  {
    hide Handled, CompleteExactly;
    if ms != [] {
      HandledCompletes(s, st, ms[0]);
      var r := Handled(s, st, ms[0]);
      if r.Done? {
        RunCompletes(s, r.state, ms[1..]);
      }
    }
  }

  /** In every run: so a first message that brings kappa chunks alone is never turned into an entry. */
  lemma RebuiltExactly(s: Setting, ms: seq<IdaMsg>)
    ensures var r := Run(s, EMPTY, ms); r.Done? ==> CompleteExactly(s, r.state)
  {
    RunCompletes(s, EMPTY, ms);
  }

  /** Once a single message brings kappa indices, nothing is added to it any more, and no entry is made. */
  lemma {:induction false} StuckForever(s: Setting, st: State, m: IdaMsg, ms: seq<IdaMsg>)
    requires WellKept(st) && Held(st, m.merkleRoot) == [m] && |Indices([m])| >= s.kappa && m.merkleRoot !in st.rebuilt
    ensures var r := Run(s, st, ms); r.Done? ==> Held(r.state, m.merkleRoot) == [m] && m.merkleRoot !in r.state.rebuilt
    decreases |ms|
  {
    if ms != [] {
      StuckStep(s, st, m, ms[0]);
      hide Handled, Indices;
      var r := Handled(s, st, ms[0]);
      if r.Done? {
        StuckForever(s, r.state, m, ms[1..]);
      }
    }
  }

  lemma StuckStep(s: Setting, st: State, m: IdaMsg, next: IdaMsg)
    requires WellKept(st) && Held(st, m.merkleRoot) == [m] && |Indices([m])| >= s.kappa && m.merkleRoot !in st.rebuilt
    ensures var r := Handled(s, st, next);
      r.Done? ==> Held(r.state, m.merkleRoot) == [m] && m.merkleRoot !in r.state.rebuilt
  {
    hide Indices, MsgIndices, InRange, AllVerify, Fill;
  }

  /** A first message for its root that brings kappa chunks alone is never rebuilt, whatever comes after it. */
  lemma FirstMessageIsStuck(s: Setting, m: IdaMsg, ms: seq<IdaMsg>)
    requires s.kappa > 0 && AllVerify(s, m) && |Indices([m])| >= s.kappa
    ensures var r := Run(s, EMPTY, [m] + ms); r.Done? ==> m.merkleRoot !in r.state.rebuilt
  {
    var st := State(map[m.merkleRoot := [m]], map[]);
    assert |m.chunks| == |m.proofs| && Indices([]) == {};
    assert ([m] + ms)[0] == m && ([m] + ms)[1..] == ms && [] + [m] == [m];
    hide AllVerify, Fill, InRange;
    assert InRange([], s.Total()) by { NoIndices(s.Total()); }
    assert Handled(s, EMPTY, m) == Done(st, false);
    StuckForever(s, st, m, ms);
  }

  lemma NoIndices(total: nat)
    ensures InRange([], total)
  {
  }
}
