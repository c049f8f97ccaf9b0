/** Concrete transactions that pass every check of leader and replicas and change the value there is. */
module ValueWitnesses {
  import opened Sequences
  import opened LedgerTypes
  import opened Ledger
  import opened Proposal
  import opened Simulation
  import opened Conservation
  import opened Outpoints

  const HALF: nat := 0x8000_0000_0000_0000

  lemma SumOfTwo(a: OutTx, b: OutTx)
    ensures SumOut([a]) == a.value && SumOut([a, b]) == a.value + b.value
  {
    SumOfOne(a);
    assert [a, b][..1] == [a];
  }

  lemma TotalOfOne(k: Outpoint, out: OutTx)
    ensures Total(map[k := out]) == out.value
  {
    var none: Utxo := map[];
    NoValue();
    TotalAdd(none, k, out);
    assert none[k := out] == map[k := out];
  }

  lemma OutMapOfOne(h: Hash, out: OutTx)
    ensures OutMap(h, [out]) == map[Outpoint(h, out.n) := out]
  {
    assert [out][..0] == [];
    assert OutMap(h, []) == map[];
  }

  /** No inputs, and two outputs whose sum wraps to zero: from nothing to 2^64. */
  lemma OverflowCreatesValue() returns (env: Env, l: Ledger, t: Transaction)
    ensures NoncesMatch(l.utxo) && OriginalsOk(l.originals) && WellFormed(env, l, EMPTY_SCRATCH, t)
    ensures var st := Propose(env, l, EMPTY_SCRATCH, t, []); st.Some? && st.value.emitted == [t]
    ensures WhatAmI(env, t) == Normal && DistinctNonces(t.outputs) && OutMap(t.hash, t.outputs).Keys !! l.utxo.Keys
    ensures Total(l.utxo) == 0
    ensures var c := Commit(env, l, t, true); c.Some? && Total(c.value.utxo) == TWO_64
  {
    env := Env(1, h => 1, (i, o, h) => 1, (k, i, h) => true, t => true);
    l := Ledger(map[], map[]);
    var a, b := OutTx(HALF, 0, 9), OutTx(HALF, 1, 9);
    t := Transaction(7, NIL, [], [a, b], None);
    NoValue();
    SumOfTwo(a, b);
    NoInputs(l.utxo);
    assert WrapSum(t.outputs) == 0;
    OutMapTotal(t.hash, t.outputs);
    AfterNothingSpent(l.utxo, OutMap(t.hash, t.outputs));
    hide Total, OutMap, SumOut;
    assert Known(l, EMPTY_SCRATCH) == l.utxo;
  }

  /** Outputs under one nonce: the first is lost, and seven become four. */
  lemma RepeatedNonceLosesValue() returns (env: Env, l: Ledger, t: Transaction)
    ensures NoncesMatch(l.utxo) && OriginalsOk(l.originals) && WellFormed(env, l, EMPTY_SCRATCH, t)
    ensures var st := Propose(env, l, EMPTY_SCRATCH, t, []); st.Some? && st.value.emitted == [t]
    ensures WhatAmI(env, t) == Normal && SumOut(t.outputs) < TWO_64 && OutMap(t.hash, t.outputs).Keys !! l.utxo.Keys
    ensures Total(l.utxo) == 7
    ensures var c := Commit(env, l, t, true); c.Some? && Total(c.value.utxo) == 4
  {
    env := Alone();
    var k, seven, three, four := Outpoint(5, 0), OutTx(7, 0, 9), OutTx(3, 0, 9), OutTx(4, 0, 9);
    l := Ledger(map[k := seven], map[]);
    t := Transaction(8, NIL, [IN], [three, four], None);
    SumOfTwo(three, four);
    SumOfOne(seven);
    OutMapOfOne(8, three);
    assert [three, four][..1] == [three];
    var out: Utxo := map[Outpoint(8, 0) := four];
    assert OutMap(8, [three, four]) == OutMap(8, [three])[Outpoint(8, 0) := four] == out;
    OneInput(l.utxo);
    TotalOfOne(k, seven);
    TotalOfOne(Outpoint(8, 0), four);
    assert Known(l, EMPTY_SCRATCH) == l.utxo && l.utxo - {k} + out == out;
    hide Total, OutMap, SumOut;
  }

  lemma NoOutputs(h: Hash)
    ensures SumOut([]) == 0 && OutMap(h, []) == map[]
  {
  }

  lemma TotalOfTwo(k: Outpoint, a: OutTx, l: Outpoint, b: OutTx)
    requires k != l
    ensures Total(map[k := a, l := b]) == a.value + b.value
  {
    var first: Utxo := map[k := a];
    TotalOfOne(k, a);
    TotalAdd(first, l, b);
    assert first[l := b] == map[k := a, l := b];
  }

  lemma TwoInputs(u: Utxo, i: InTx, j: InTx)
    requires u.Keys == {Key(i), Key(j)}
    ensures Keys([i, j]) == u.Keys && Owed(u, [i, j]) == [u[Key(i)], u[Key(j)]]
  {
    assert i in [i, j] && j in [i, j];
    assert Keys([i, j]) == u.Keys;
  }

  /** Inputs that wrap to zero against no outputs: 2^64 is lost. The ledger is the one an overflow leaves. */
  lemma WrappedInputsLoseValue() returns (env: Env, l: Ledger, t: Transaction)
    ensures NoncesMatch(l.utxo) && OriginalsOk(l.originals) && WellFormed(env, l, EMPTY_SCRATCH, t)
    ensures var st := Propose(env, l, EMPTY_SCRATCH, t, []); st.Some? && st.value.emitted == [t]
    ensures WhatAmI(env, t) == Normal && t.outputs == []
    ensures Total(l.utxo) == TWO_64
    ensures var c := Commit(env, l, t, true); c.Some? && Total(c.value.utxo) == 0
  {
    hide Total, OutMap, SumOut, Owed, Keys;
    env := Alone();
    var i, j, a, b := InTx(7, 0, 0), InTx(7, 1, 0), OutTx(HALF, 0, 9), OutTx(HALF, 1, 9);
    l := Ledger(map[Key(i) := a, Key(j) := b], map[]);
    t := Transaction(8, NIL, [i, j], [], None);
    SumOfTwo(a, b);
    TotalOfTwo(Key(i), a, Key(j), b);
    TwoInputs(l.utxo, i, j);
    NoValue();
    NoOutputs(8);
    assert Known(l, EMPTY_SCRATCH) == l.utxo;
    assert l.utxo - Keys([i, j]) + OutMap(8, []) == map[];
  }

  /** A hash another unspent output is filed under: sixteen become seven. Nobody recomputes the hash. */
  lemma TakenHashLosesValue() returns (env: Env, l: Ledger, t: Transaction)
    ensures NoncesMatch(l.utxo) && OriginalsOk(l.originals)
    ensures var st := Propose(env, l, EMPTY_SCRATCH, t, []); st.Some? && st.value.emitted == [t]
    ensures WhatAmI(env, t) == Normal && DistinctNonces(t.outputs) && SumOut(t.outputs) < TWO_64
    ensures Total(l.utxo) == 16
    ensures var c := Commit(env, l, t, true); c.Some? && Total(c.value.utxo) == 7
  {
    env := Alone();
    var k, taken, seven, nine := Outpoint(5, 0), Outpoint(8, 0), OutTx(7, 0, 9), OutTx(9, 0, 9);
    l := Ledger(map[k := seven, taken := nine], map[]);
    t := Transaction(8, NIL, [IN], [seven], None);
    SumOfOne(seven);
    OutMapOfOne(8, seven);
    OneInput(l.utxo);
    TotalOfTwo(k, seven, taken, nine);
    TotalOfOne(taken, seven);
    assert Known(l, EMPTY_SCRATCH) == l.utxo;
    assert l.utxo - {k} + map[taken := seven] == map[taken := seven];
    hide Total, OutMap, SumOut;
  }

  lemma OneInput(u: Utxo)
    requires Outpoint(5, 0) in u
    ensures Keys([IN]) == {Outpoint(5, 0)} && Owed(u, [IN]) == [u[Outpoint(5, 0)]]
  {
    assert IN in [IN];
  }

  lemma NoInputs(u: Utxo)
    ensures Keys([]) == {} && Owed(u, []) == [] && WrapSum([]) == 0
  {
  }

  lemma AfterNothingSpent(u: Utxo, out: Utxo)
    requires u == map[]
    ensures u - {} + out == out
  {
  }

  const IN: InTx := InTx(5, 0, 0)
  const ONE: OutTx := OutTx(1, 0, 9)
  const TEN: OutTx := OutTx(10, 0, 9)

  /** An original that pays ten against an input of one, and the response of one that completes it. */
  function Unbalanced(): Transaction {
    Transaction(NIL, 7, [IN], [TEN], None)
  }

  function Answer(): Transaction {
    Transaction(3, 7, [IN], [ONE], Some(0))
  }

  function Waiting(): Ledger {
    Ledger(map[], map[7 := Unbalanced()])
  }

  /** One committee, and checks that let everything pass. */
  function Alone(): Env {
    Env(1, h => 1, (i, o, h) => 1, (k, i, h) => true, t => true)
  }

  /** The batch is well-formed, its response pays its inputs, and both ledgers' totals differ by nine too many. */
  lemma UnbalancedOriginalCreatesValue()
    ensures var env, l, e := Alone(), Waiting(), Entry(Answer(), []);
      && NoncesMatch(l.utxo) && OriginalsOk(l.originals) && WellFormedBatch(env, l, [e])
      && ProposeAll(env, l, [e]).Some?
      && var txs := ProposeAll(env, l, [e]).value.emitted;
      && AllPay(Consumed(env, txs)) && TransitValue(Consumed(env, txs)) == 1 && Produced(env, txs) == multiset{}
      && CommitAll(env, l, txs, true).Some?
      && Total(l.utxo) == 0 && Total(CommitAll(env, l, txs, true).value.utxo) == 10
  {
    hide *;
    var env, l, t, o := Alone(), Waiting(), Answer(), Unbalanced();
    Shapes();
    AnswerIsWellFormed();
    BatchOfOne(env, l, Entry(t, []));
    Proposes(env, l, t, o, EMPTY_SCRATCH.(added := ResponseMap(t.inputs, t.outputs)));
    FlowOfTwo(env, t, FinalOf(env, o));
    TransitOne(Bare(t));
    CommitsBoth(env, l, t, o, ONE, TEN);
    OutMapOfOne(7, TEN);
    TotalOfOne(Outpoint(7, 0), TEN);
    NoValue();
  }

  lemma Shapes()
    ensures var env, l, t, o := Alone(), Waiting(), Answer(), Unbalanced();
      && NoncesMatch(l.utxo) && OriginalsOk(l.originals) && l == Ledger(map[], map[7 := o])
      && o.inputs == t.inputs == [IN] && o.outputs == [TEN] && o.origTxHash == 7 == t.origTxHash
      && t.outputs == [ONE] && t.hash != NIL && t.proof.Some? && env.proofOk(t) && PaysItsInputs(t)
      && WhatAmI(env, t) == ResponseOut && WhatAmI(env, FinalOf(env, o)) == Final
      && OrderOk(env, Entry(t, [])) && Key(IN) in ResponseMap(t.inputs, t.outputs)
      && SumOut(Bare(t).outputs) == 1 && IN.n == ONE.n == 0 && TEN.n == 0 && TEN.value == 10
  {
    ResponseOfOne(IN, ONE);
    SumOfOne(ONE);
  }

  lemma AnswerIsWellFormed()
    ensures WellFormed(Alone(), Waiting(), EMPTY_SCRATCH, Answer())
  {
    ResponseOfOne(IN, ONE);
    OutMapOfOne(7, TEN);
    assert Seen(Waiting(), EMPTY_SCRATCH) == {};
    assert Pending(Waiting(), EMPTY_SCRATCH) == map[7 := Unbalanced()];
  }

  lemma ResponseOfOne(i: InTx, out: OutTx)
    ensures ResponseMap([i], [out]) == map[Outpoint(i.txHash, out.n) := out]
  {
    assert [i][..0] == [] && [out][..0] == [];
    assert ResponseMap([], []) == map[];
  }

  lemma BatchOfOne(env: Env, l: Ledger, e: Entry)
    ensures ProposeAll(env, l, []) == Some(Step(EMPTY_SCRATCH, []))
    ensures ProposeAll(env, l, [e]) == Propose(env, l, EMPTY_SCRATCH, e.tx, e.order)
    ensures WellFormedBatch(env, l, [e]) <==> OrderOk(env, e) && WellFormed(env, l, EMPTY_SCRATCH, e.tx)
  {
    hide Propose, WellFormed, OrderOk;
    assert [e][..0] == [];
    assert WellFormedBatch(env, l, []);
    var st := Propose(env, l, EMPTY_SCRATCH, e.tx, e.order);
    if st.Some? {
      assert [] + st.value.emitted == st.value.emitted;
    }
  }

  /** The response completes the original at once. */
  lemma Proposes(env: Env, l: Ledger, t: Transaction, o: Transaction, s1: Scratch)
    requires l == Ledger(map[], map[7 := o]) && |o.inputs| == 1 && o.origTxHash == 7 == t.origTxHash
    requires t.hash != NIL && t.proof.Some? && env.proofOk(t) && |t.inputs| == |t.outputs|
    requires s1 == EMPTY_SCRATCH.(added := ResponseMap(t.inputs, t.outputs)) && Key(o.inputs[0]) in s1.added
    ensures Pending(l, EMPTY_SCRATCH) == l.originals
    ensures var st := Propose(env, l, EMPTY_SCRATCH, t, []); st.Some? && st.value.emitted == [t, FinalOf(env, o)]
  {
    hide OutMap, Spent, FinalOf;
    var out := ResponseMap(t.inputs, t.outputs);
    assert EMPTY_SCRATCH.added + out == out;
    assert Covered(l, s1, o.inputs);
    assert Distinct(o.inputs);
  }

  lemma FlowOfTwo(env: Env, t: Transaction, f: Transaction)
    requires WhatAmI(env, t) == ResponseOut && WhatAmI(env, f) == Final && PaysItsInputs(t)
    ensures Produced(env, [t, f]) == multiset{} && Consumed(env, [t, f]) == multiset{Bare(t)}
    ensures AllPay(Consumed(env, [t, f]))
  {
    OneFlow(env, t);
    FlowSnoc(env, [t], f);
    assert [t] + [f] == [t, f];
  }

  lemma CommitsBoth(env: Env, l: Ledger, t: Transaction, o: Transaction, one: OutTx, ten: OutTx)
    requires l == Ledger(map[], map[7 := o]) && o.origTxHash == 7 && o.inputs == t.inputs && o.outputs == [ten]
    requires |t.inputs| == |t.outputs| == 1 && t.outputs == [one] && WhatAmI(env, t) == ResponseOut
    requires one.n == t.inputs[0].n && WhatAmI(env, FinalOf(env, o)) == Final
    ensures var c := CommitAll(env, l, [t, FinalOf(env, o)], true);
      c.Some? && c.value.utxo == OutMap(7, [ten])
  {
    var f, k := FinalOf(env, o), Key(t.inputs[0]);
    ResponseOfOne(t.inputs[0], one);
    assert t.inputs == [t.inputs[0]];
    ResponseCommits(env, l, t);
    var u: Utxo := map[k := one];
    assert l.utxo + ResponseMap(t.inputs, t.outputs) == u;
    CommitSnoc(env, l, [t], f, true);
    assert [t] + [f] == [t, f];
    assert Keys(f.inputs) == {k};
    assert u - {k} + OutMap(7, [ten]) == OutMap(7, [ten]);
  }

  /** A request that names one input twice is paid twice: three become six. */
  lemma RepeatedRequestCreatesValue() returns (env: Env, l: Ledger, t: Transaction)
    ensures NoncesMatch(l.utxo) && WellFormed(env, l, EMPTY_SCRATCH, t)
    ensures Propose(env, l, EMPTY_SCRATCH, t, []).Some?
    ensures var txs := Propose(env, l, EMPTY_SCRATCH, t, []).value.emitted;
      && |txs| == 1 && WhatAmI(env, txs[0]) == ResponseIn && SumOut(txs[0].outputs) == 6
      && Commit(env, l, txs[0], true).Some?
      && Total(l.utxo) == 3 && Total(Commit(env, l, txs[0], true).value.utxo) == 0
  {
    env := Env(1, h => if h == 5 then 1 else 2, (i, o, h) => 1, (k, i, h) => true, t => true);
    var i, out := InTx(5, 0, 0), OutTx(3, 0, 9);
    var k := Outpoint(5, 0);
    l := Ledger(map[k := out], map[]);
    t := Transaction(NIL, 7, [i, i], [], None);
    TotalOfOne(k, out);
    SumOfTwo(out, out);
    NoValue();
    assert i in [i, i] && Key(i) in Keys([i, i]);
    assert Keys([i, i]) == {k};
    assert Owed(l.utxo, [i, i]) == [out, out];
    assert Known(l, EMPTY_SCRATCH) == l.utxo;
    assert l.utxo - {k} == map[];
    hide Total, SumOut, Spent;
  }
}
