/**
  Where outpoints may be: in one committee's ledger, or with one response on its way to another.
  What a batch mints is new, what it takes in was on its way, what it hands on it has spent.
 */
module Outpoints {
  import opened Sequences
  import opened LedgerTypes
  import opened Ledger
  import opened Proposal
  import opened Simulation
  import opened Conservation

  lemma FlowSnoc(env: Env, txs: seq<Transaction>, t: Transaction)
    ensures Produced(env, txs + [t]) ==
      Produced(env, txs) + if WhatAmI(env, t) == ResponseIn then multiset{t} else multiset{}
    ensures Consumed(env, txs + [t]) ==
      Consumed(env, txs) + if WhatAmI(env, t) == ResponseOut then multiset{Bare(t)} else multiset{}
  {
    assert (txs + [t])[..|txs|] == txs;
  }

  lemma {:induction false} FlowAppend(env: Env, a: seq<Transaction>, b: seq<Transaction>)
    ensures Produced(env, a + b) == Produced(env, a) + Produced(env, b)
    ensures Consumed(env, a + b) == Consumed(env, a) + Consumed(env, b)
  {
    if b == [] {
      assert a + b == a;
    } else {
      hide *;
      var j := |b| - 1;
      assert b == b[..j] + [b[j]];
      assert a + b == (a + b[..j]) + [b[j]];
      FlowAppend(env, a, b[..j]);
      FlowSnoc(env, a + b[..j], b[j]);
      FlowSnoc(env, b[..j], b[j]);
    }
  }

  lemma {:induction false} NoFlow(env: Env, txs: seq<Transaction>)
    requires forall t | t in txs :: WhatAmI(env, t) != ResponseIn && WhatAmI(env, t) != ResponseOut
    ensures Produced(env, txs) == multiset{} && Consumed(env, txs) == multiset{}
  {
    if txs != [] {
      NoFlow(env, txs[..|txs| - 1]);
    }
  }

  lemma OneFlow(env: Env, t: Transaction)
    ensures Produced(env, [t]) == if WhatAmI(env, t) == ResponseIn then multiset{t} else multiset{}
    ensures Consumed(env, [t]) == if WhatAmI(env, t) == ResponseOut then multiset{Bare(t)} else multiset{}
  {
    assert [t][..0] == [];
  }

  /** Outpoints that transactions of the list are the first to use. */
  ghost function Minted(env: Env, txs: seq<Transaction>): set<Outpoint> {
    if txs == [] then {}
    else
      var t := txs[|txs| - 1];
      Minted(env, txs[..|txs| - 1]) +
        match WhatAmI(env, t)
        case Normal => OutMap(t.hash, t.outputs).Keys
        case Final => OutMap(t.origTxHash, t.outputs).Keys
        case _ => {}
  }

  lemma MintedSnoc(env: Env, txs: seq<Transaction>, t: Transaction)
    ensures Minted(env, txs + [t]) == Minted(env, txs) + Minted(env, [t])
  {
    hide WhatAmI, OutMap;
    assert (txs + [t])[..|txs|] == txs && [t][..0] == [];
  }

  lemma {:induction false} MintedAppend(env: Env, a: seq<Transaction>, b: seq<Transaction>)
    ensures Minted(env, a + b) == Minted(env, a) + Minted(env, b)
  {
    if b == [] {
      assert a + b == a;
    } else {
      var j := |b| - 1;
      assert b == b[..j] + [b[j]] && a + b == (a + b[..j]) + [b[j]];
      MintedAppend(env, a, b[..j]);
      MintedSnoc(env, a + b[..j], b[j]);
      MintedSnoc(env, b[..j], b[j]);
    }
  }

  lemma {:induction false} MintsNothing(env: Env, txs: seq<Transaction>)
    requires forall t | t in txs :: WhatAmI(env, t) != Normal && WhatAmI(env, t) != Final
    ensures Minted(env, txs) == {}
  {
    if txs != [] {
      MintsNothing(env, txs[..|txs| - 1]);
    }
  }

  /** The outpoints responses carry along. */
  ghost function Carried(m: multiset<Transaction>): (ks: set<Outpoint>)
    ensures forall t | t in m :: Keys(t.inputs) <= ks
  {
    set t, k | t in m && k in Keys(t.inputs) :: k
  }

  /** No outpoint is carried by two responses, nor twice by the same one. */
  ghost predicate Apart(m: multiset<Transaction>) {
    forall t | t in m :: Keys(t.inputs) !! Carried(m - multiset{t})
  }

  lemma CarriedUnion(a: multiset<Transaction>, b: multiset<Transaction>)
    ensures Carried(a + b) == Carried(a) + Carried(b)
  {
  }

  lemma CarriedOne(t: Transaction)
    ensures Carried(multiset{t}) == Keys(t.inputs)
  {
  }

  /** What is carried besides one of a's responses. */
  lemma CarriedBeside(a: multiset<Transaction>, b: multiset<Transaction>, t: Transaction)
    requires t in a
    ensures Carried(a + b - multiset{t}) == Carried(a - multiset{t}) + Carried(b)
    ensures Carried(b + a - multiset{t}) == Carried(a - multiset{t}) + Carried(b)
  {
    hide Carried;
    assert a + b - multiset{t} == (a - multiset{t}) + b && b + a == a + b;
    CarriedUnion(a - multiset{t}, b);
  }

  lemma CarriedApart(a: multiset<Transaction>, ks: set<Outpoint>)
    requires forall t | t in a :: Keys(t.inputs) !! ks
    ensures Carried(a) !! ks
  {
    hide Keys;
  }

  lemma ApartSplit(a: multiset<Transaction>, b: multiset<Transaction>)
    requires Apart(a + b)
    ensures Apart(a) && Apart(b) && Carried(a) !! Carried(b)
  {
    hide Carried, Keys;
    forall t | t in a ensures Keys(t.inputs) !! Carried(a - multiset{t}) + Carried(b) {
      assert t in a + b;
      CarriedBeside(a, b, t);
    }
    forall t | t in b ensures Keys(t.inputs) !! Carried(b - multiset{t}) {
      assert t in a + b;
      CarriedBeside(b, a, t);
    }
    CarriedApart(a, Carried(b));
  }

  lemma ApartUnion(a: multiset<Transaction>, b: multiset<Transaction>)
    requires Apart(a) && Apart(b) && Carried(a) !! Carried(b)
    ensures Apart(a + b)
  {
    hide Carried, Keys;
    forall t | t in a + b ensures Keys(t.inputs) !! Carried(a + b - multiset{t}) {
      if t in a {
        CarriedBeside(a, b, t);
      } else {
        CarriedBeside(b, a, t);
      }
    }
  }

  /**
    The outpoints of a batch that has emitted `txs`: added ones were minted or brought along, spent ones
    besides may come from the ledger, and what is handed on was the ledger's own and is spent here.
   */
  ghost predicate Flowing(env: Env, l: Ledger, s: Scratch, txs: seq<Transaction>) {
    && s.added.Keys <= Minted(env, txs) + Carried(Consumed(env, txs))
    && s.spent.Keys <= l.utxo.Keys + Minted(env, txs) + Carried(Consumed(env, txs))
    && Carried(Produced(env, txs)) <= l.utxo.Keys * s.spent.Keys
    && Apart(Produced(env, txs))
  }

  /** One step's share of the flow. */
  ghost predicate Moves(l: Ledger, s: Scratch, s': Scratch, minted: set<Outpoint>, brought: set<Outpoint>, handed: multiset<Transaction>) {
    && s'.added.Keys <= s.added.Keys + minted + brought
    && s.spent.Keys <= s'.spent.Keys <= s.spent.Keys + l.utxo.Keys + s.added.Keys + minted + brought
    && Carried(handed) <= l.utxo.Keys * s'.spent.Keys
    && Carried(handed) !! s.spent.Keys
    && Apart(handed)
  }

  lemma FlowsOn(env: Env, l: Ledger, s: Scratch, txs: seq<Transaction>, s': Scratch, more: seq<Transaction>)
    requires Flowing(env, l, s, txs)
    requires Moves(l, s, s', Minted(env, more), Carried(Consumed(env, more)), Produced(env, more))
    ensures Flowing(env, l, s', txs + more)
  {
    hide Minted, Consumed, Produced, Carried, Apart;
    MintedAppend(env, txs, more);
    FlowAppend(env, txs, more);
    CarriedUnion(Consumed(env, txs), Consumed(env, more));
    CarriedUnion(Produced(env, txs), Produced(env, more));
    ApartUnion(Produced(env, txs), Produced(env, more));
  }

  lemma NothingApart()
    ensures Apart(multiset{}) && Carried(multiset{}) == {}
  {
  }

  lemma OneApart(t: Transaction)
    ensures Apart(multiset{t}) && Carried(multiset{t}) == Keys(t.inputs)
  {
    NothingApart();
    assert multiset{t} - multiset{t} == multiset{};
  }

  lemma OneMints(env: Env, t: Transaction)
    ensures WhatAmI(env, t) == Normal ==> Minted(env, [t]) == OutMap(t.hash, t.outputs).Keys
    ensures WhatAmI(env, t) == Final ==> Minted(env, [t]) == OutMap(t.origTxHash, t.outputs).Keys
    ensures WhatAmI(env, t) != Normal && WhatAmI(env, t) != Final ==> Minted(env, [t]) == {}
  {
    assert [t][..0] == [];
  }

  /** The response a step adds is among those it consumes. */
  lemma ResponseIsConsumed(env: Env, l: Ledger, s: Scratch, t: Transaction)
    requires Shaped(env, l, s, t) && t.origTxHash != NIL && t.hash != NIL && ProposeResponse(env, l, s, t).Some?
    ensures var st, o := ProposeResponse(env, l, s, t).value, Pending(l, s)[t.origTxHash];
      && Consumed(env, st.emitted) == multiset{Bare(t)} && (PaysItsInputs(Bare(t)) <==> PaysItsInputs(t))
      && Produced(env, st.emitted) == multiset{}
      && (|st.emitted| > 1 ==> Minted(env, st.emitted) == OutMap(o.origTxHash, o.outputs).Keys)
  {
    hide OutMap, ResponseMap, Known, Spent;
    var st := ProposeResponse(env, l, s, t).value;
    OneFlow(env, t);
    OneMints(env, t);
    if |st.emitted| == 1 {
      assert st.emitted == [t];
    } else {
      var f := st.emitted[1];
      assert st.emitted == [t] + [f];
      OneFlow(env, f);
      OneMints(env, f);
      FlowAppend(env, [t], [f]);
      MintedAppend(env, [t], [f]);
    }
  }

  lemma ResponseMoves(env: Env, l: Ledger, s: Scratch, t: Transaction)
    requires Shaped(env, l, s, t) && t.origTxHash != NIL && t.hash != NIL && ProposeResponse(env, l, s, t).Some?
    requires PaysItsInputs(t)
    ensures var st := ProposeResponse(env, l, s, t).value;
      Moves(l, s, st.scratch, Minted(env, st.emitted), Carried(Consumed(env, st.emitted)), Produced(env, st.emitted))
  {
    hide Minted, Consumed, Produced, Carried, Apart, Shaped, OutMap, ResponseMap;
    ResponseIsConsumed(env, l, s, t);
    CarriedOne(Bare(t));
    ResponseMapTotal(t.inputs, t.outputs);
    NothingApart();
  }

  lemma NormalMoves(env: Env, l: Ledger, s: Scratch, t: Transaction)
    requires t.origTxHash == NIL && t.hash != NIL && ProposeNormal(env, l, s, t).Some?
    ensures var st := ProposeNormal(env, l, s, t).value;
      Moves(l, s, st.scratch, Minted(env, st.emitted), Carried(Consumed(env, st.emitted)), Produced(env, st.emitted))
  {
    hide Minted, Consumed, Produced, Carried, Apart, OutMap, Owed, WrapSum;
    NothingApart();
    OneFlow(env, t);
    OneMints(env, t);
    ValidKeys(env, l, s, t.inputs, Id(t));
  }

  lemma UnknownMoves(env: Env, l: Ledger, s: Scratch, t: Transaction, order: seq<Hash>)
    requires t.origTxHash == NIL && t.hash != NIL && t.outputs != [] && ProposeUnknown(env, l, s, t, order).Some?
    ensures var st := ProposeUnknown(env, l, s, t, order).value;
      Moves(l, s, st.scratch, Minted(env, st.emitted), Carried(Consumed(env, st.emitted)), Produced(env, st.emitted))
  {
    hide Minted, Consumed, Produced, Carried, Apart, InputsOf;
    var txs := ProposeUnknown(env, l, s, t, order).value.emitted;
    forall x | x in txs ensures WhatAmI(env, x) == Original || WhatAmI(env, x) == CrossTx {}
    NothingApart();
    NoFlow(env, txs);
    MintsNothing(env, txs);
  }

  lemma IncomingMoves(env: Env, l: Ledger, s: Scratch, t: Transaction)
    requires Shaped(env, l, s, t) && t.origTxHash != NIL && t.hash == NIL && ProposeIncoming(env, l, s, t).Some?
    ensures var st := ProposeIncoming(env, l, s, t).value;
      Moves(l, s, st.scratch, Minted(env, st.emitted), Carried(Consumed(env, st.emitted)), Produced(env, st.emitted))
  {
    hide Minted, Consumed, Produced, Carried, Apart, OutMap, Owed, Seen;
    var r := ProposeIncoming(env, l, s, t).value.emitted[0];
    NothingApart();
    OneFlow(env, r);
    OneMints(env, r);
    OneApart(r);
    ValidKeys(env, l, s, t.inputs, t.origTxHash);
  }

  lemma StepMoves(env: Env, l: Ledger, s: Scratch, e: Entry)
    requires Shaped(env, l, s, e.tx) && Propose(env, l, s, e.tx, e.order).Some?
    requires AllPay(Consumed(env, Propose(env, l, s, e.tx, e.order).value.emitted))
    ensures var st := Propose(env, l, s, e.tx, e.order).value;
      Moves(l, s, st.scratch, Minted(env, st.emitted), Carried(Consumed(env, st.emitted)), Produced(env, st.emitted))
  {
    hide Minted, Consumed, Produced, Carried, Moves, PaysItsInputs, ProposeNormal, ProposeUnknown, ProposeIncoming, ProposeResponse;
    var t := e.tx;
    if t.origTxHash == NIL && t.hash != NIL {
      if AllMine(env, t) {
        NormalMoves(env, l, s, t);
      } else {
        UnknownMoves(env, l, s, t, e.order);
      }
    } else if t.origTxHash != NIL && t.hash == NIL {
      IncomingMoves(env, l, s, t);
    } else {
      ResponseIsConsumed(env, l, s, t);
      ResponseMoves(env, l, s, t);
    }
  }

  /** A response that was on its way, and was not carried by another, brings what nobody here has seen. */
  lemma ArrivalIsFresh(env: Env, l: Ledger, s: Scratch, txs: seq<Transaction>, t: Transaction, m: multiset<Transaction>)
    requires Flowing(env, l, s, txs) && Apart(m) && Carried(m) !! l.utxo.Keys && Carried(m) !! Minted(env, txs)
    requires Consumed(env, txs) + multiset{Bare(t)} <= m && PaysItsInputs(t)
    ensures ArrivesFresh(l, s, t)
  {
    hide Minted, Consumed, Produced, Apart, Carried, ResponseMap;
    var here := Consumed(env, txs) + multiset{Bare(t)};
    assert m == here + (m - here);
    ApartSplit(here, m - here);
    ApartSplit(Consumed(env, txs), multiset{Bare(t)});
    CarriedOne(Bare(t));
    CarriedUnion(here, m - here);
    CarriedUnion(Consumed(env, txs), multiset{Bare(t)});
    ResponseMapTotal(t.inputs, t.outputs);
  }

  /** What the committee may take in: responses that pay, each with outpoints of its own, and none the ledger has. */
  ghost predicate Arriving(l: Ledger, m: multiset<Transaction>) {
    AllPay(m) && Apart(m) && Carried(m) !! l.utxo.Keys
  }

  /** So a batch that takes its responses from those on their way is well formed, and its outpoints flow. */
  lemma {:induction false} BatchFlows(env: Env, l: Ledger, batch: seq<Entry>, m: multiset<Transaction>)
    requires ShapedBatch(env, l, batch) && ProposeAll(env, l, batch).Some? && Arriving(l, m)
    requires var txs := ProposeAll(env, l, batch).value.emitted;
      Consumed(env, txs) <= m && Minted(env, txs) !! Carried(m)
    ensures WellFormedBatch(env, l, batch)
    ensures var st := ProposeAll(env, l, batch).value; Flowing(env, l, st.scratch, st.emitted)
  {
    if batch == [] {
      NothingApart();
    } else {
      hide Propose, Shaped, ArrivesFresh, OrderOk, Flowing, Minted, Consumed, Produced, Arriving, Carried;
      var front, e := batch[..|batch| - 1], batch[|batch| - 1];
      var st := ProposeAll(env, l, front).value;
      var step := Propose(env, l, st.scratch, e.tx, e.order).value;
      FlowAppend(env, st.emitted, step.emitted);
      MintedAppend(env, st.emitted, step.emitted);
      BatchFlows(env, l, front, m);
      StepFlows(env, l, st, e, m);
    }
  }

  lemma StepFlows(env: Env, l: Ledger, st: Step, e: Entry, m: multiset<Transaction>)
    requires Flowing(env, l, st.scratch, st.emitted) && Arriving(l, m)
    requires Shaped(env, l, st.scratch, e.tx) && Propose(env, l, st.scratch, e.tx, e.order).Some?
    requires var more := Propose(env, l, st.scratch, e.tx, e.order).value.emitted;
      && Consumed(env, st.emitted) + Consumed(env, more) <= m
      && Minted(env, st.emitted) !! Carried(m)
    ensures var step := Propose(env, l, st.scratch, e.tx, e.order).value;
      && ArrivesFresh(l, st.scratch, e.tx)
      && Flowing(env, l, step.scratch, st.emitted + step.emitted)
  {
    hide Flowing, Minted, Consumed, Produced, Carried, Moves, Shaped, ProposeResponse, ProposeNormal, ProposeUnknown, ProposeIncoming, PaysItsInputs, Apart;
    var step := Propose(env, l, st.scratch, e.tx, e.order).value;
    StepMoves(env, l, st.scratch, e);
    FlowsOn(env, l, st.scratch, st.emitted, step.scratch, step.emitted);
    if e.tx.origTxHash != NIL && e.tx.hash != NIL {
      ResponseIsConsumed(env, l, st.scratch, e.tx);
      assert Bare(e.tx) in m;
      ArrivalIsFresh(env, l, st.scratch, st.emitted, e.tx, m);
    }
  }
}
