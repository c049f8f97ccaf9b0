/** Conservation of value over every run of all committees. */
module ConservationRuns {
  import opened Sequences
  import opened LedgerTypes
  import opened Ledger
  import opened Proposal
  import opened Simulation
  import opened Conservation
  import opened Outpoints

  lemma CommitOne(env: Env, c: Ledger, t: Transaction)
    ensures CommitAll(env, c, [t], true) == Commit(env, c, t, true)
  {
    CommitSnoc(env, c, [], t, true);
    assert [] + [t] == [t];
  }

  /** Value held plus value sent away equals value held before plus value received. */
  ghost predicate Balances(env: Env, c: Ledger, txs: seq<Transaction>, c': Ledger) {
    Total(c'.utxo) + TransitValue(Produced(env, txs)) == Total(c.utxo) + TransitValue(Consumed(env, txs))
  }

  lemma NormalBalances(env: Env, l: Ledger, s: Scratch, c: Ledger, t: Transaction)
    requires Simulates(l, s, c) && AllMine(env, t) && t.origTxHash == NIL && t.hash != NIL
    requires WellFormed(env, l, s, t) && ValueSafe(env, l, s, t) && Total(c.utxo) < TWO_64
    requires ProposeNormal(env, l, s, t).Some?
    ensures Commit(env, c, t, true).Some? && Balances(env, c, [t], Commit(env, c, t, true).value)
  {
    NormalSimulates(env, l, s, c, t);
    NormalKeepsValueIff(env, c, t);
    OneFlow(env, t);
  }

  lemma IncomingBalances(env: Env, l: Ledger, s: Scratch, c: Ledger, t: Transaction)
    requires Simulates(l, s, c) && t.origTxHash != NIL && t.hash == NIL
    requires WellFormed(env, l, s, t) && ValueSafe(env, l, s, t)
    requires ProposeIncoming(env, l, s, t).Some?
    ensures var r := ProposeIncoming(env, l, s, t).value.emitted[0];
      Commit(env, c, r, true).Some? && Balances(env, c, [r], Commit(env, c, r, true).value)
  {
    var r := ProposeIncoming(env, l, s, t).value.emitted[0];
    IncomingSimulates(env, l, s, c, t);
    ValidKeys(env, l, s, t.inputs, t.origTxHash);
    SameOwed(l.utxo, c.utxo, t.inputs);
    ResponseInMovesValueIff(env, c, r);
    OneFlow(env, r);
    TransitOne(r);
  }

  lemma ResponseBalances(env: Env, l: Ledger, s: Scratch, c: Ledger, t: Transaction)
    requires Simulates(l, s, c) && t.origTxHash != NIL && t.hash != NIL
    requires WellFormed(env, l, s, t) && ValueSafe(env, l, s, t) && PaysItsInputs(t)
    requires ProposeResponse(env, l, s, t).Some?
    ensures var st := ProposeResponse(env, l, s, t).value;
      && CommitAll(env, c, st.emitted, true).Some?
      && Balances(env, c, st.emitted, CommitAll(env, c, st.emitted, true).value)
  {
    var st := ProposeResponse(env, l, s, t).value;
    ResponseSimulates(env, l, s, c, t);
    var out := ResponseMap(t.inputs, t.outputs);
    var s1, c1 := s.(added := s.added + out), c.(utxo := c.utxo + out);
    AddSimulates(l, s, c, out);
    ReceivedBalances(env, l, s, c, t);
    var o := Pending(l, s)[t.origTxHash];
    CompleteBalances(env, l, s1, c1, o);
    var done := Complete(env, l, s1, o).value;
    AppendBalances(env, c, [t], c1, done.emitted, CommitAll(env, c1, done.emitted, true).value);
  }

  lemma CompleteBalances(env: Env, l: Ledger, s: Scratch, c: Ledger, o: Transaction)
    requires Simulates(l, s, c) && Complete(env, l, s, o).Some?
    requires o.origTxHash != NIL && o.origTxHash in Pending(l, s) && Pending(l, s)[o.origTxHash] == o
    requires env.closest(o.origTxHash) == env.self && FinalOf(env, o).hash != NIL
    requires Covered(l, s, o.inputs) ==>
      && OutMap(o.origTxHash, o.outputs).Keys !! Seen(l, s) && DistinctNonces(o.outputs)
      && Keys(o.inputs) <= Known(l, s).Keys
      && SumOut(o.outputs) == SumOut(Owed(Known(l, s), o.inputs))
    ensures var st := Complete(env, l, s, o).value;
      && CommitAll(env, c, st.emitted, true).Some?
      && Balances(env, c, st.emitted, CommitAll(env, c, st.emitted, true).value)
  {
    if Covered(l, s, o.inputs) {
      FinalCommits(env, l, s, c, o);
      FinalBalances(env, l, s, c, o);
      CommitOne(env, c, FinalOf(env, o));
    }
  }

  /** Adding the outputs of a response receives its value. */
  lemma ReceivedBalances(env: Env, l: Ledger, s: Scratch, c: Ledger, t: Transaction)
    requires Simulates(l, s, c) && WhatAmI(env, t) == ResponseOut && PaysItsInputs(t)
    requires ResponseMap(t.inputs, t.outputs).Keys !! Seen(l, s)
    ensures var c1 := c.(utxo := c.utxo + ResponseMap(t.inputs, t.outputs));
      CommitAll(env, c, [t], true) == Some(c1) && Balances(env, c, [t], c1)
  {
    ResponseOutValue(env, c, t);
    OneFlow(env, t);
    TransitOne(Bare(t));
    CommitOne(env, c, t);
  }

  lemma AppendBalances(env: Env, c: Ledger, a: seq<Transaction>, c1: Ledger, b: seq<Transaction>, c2: Ledger)
    requires CommitAll(env, c, a, true) == Some(c1) && Balances(env, c, a, c1)
    requires CommitAll(env, c1, b, true) == Some(c2) && Balances(env, c1, b, c2)
    ensures CommitAll(env, c, a + b, true) == Some(c2) && Balances(env, c, a + b, c2)
  {
    hide WhatAmI, Commit;
    CommitAppend(env, c, a, b, true);
    FlowAppend(env, a, b);
    TransitUnion(Produced(env, a), Produced(env, b));
    TransitUnion(Consumed(env, a), Consumed(env, b));
  }

  lemma FinalBalances(env: Env, l: Ledger, s: Scratch, c: Ledger, o: Transaction)
    requires Simulates(l, s, c) && Covered(l, s, o.inputs) && Distinct(o.inputs)
    requires WhatAmI(env, FinalOf(env, o)) == Final && Commit(env, c, FinalOf(env, o), true).Some?
    requires OutMap(o.origTxHash, o.outputs).Keys !! Seen(l, s) && DistinctNonces(o.outputs)
    requires Keys(o.inputs) <= Known(l, s).Keys
    requires SumOut(o.outputs) == SumOut(Owed(Known(l, s), o.inputs))
    ensures Balances(env, c, [FinalOf(env, o)], Commit(env, c, FinalOf(env, o), true).value)
  {
    var f := FinalOf(env, o);
    SameOwed(Known(l, s), c.utxo, o.inputs);
    FinalKeepsValueIff(env, c, f);
    OneFlow(env, f);
  }

  lemma UnknownBalances(env: Env, l: Ledger, s: Scratch, c: Ledger, t: Transaction, order: seq<Hash>)
    requires Simulates(l, s, c) && !AllMine(env, t) && t.origTxHash == NIL && t.hash != NIL
    requires WellFormed(env, l, s, t) && ProposeUnknown(env, l, s, t, order).Some?
    ensures var st := ProposeUnknown(env, l, s, t, order).value;
      && CommitAll(env, c, st.emitted, true).Some?
      && Balances(env, c, st.emitted, CommitAll(env, c, st.emitted, true).value)
  {
    var st := ProposeUnknown(env, l, s, t, order).value;
    UnknownSimulates(env, l, s, c, t, order);
    var c' := CommitAll(env, c, st.emitted, true).value;
    assert c'.utxo == c.utxo;
    forall x | x in st.emitted ensures WhatAmI(env, x) != ResponseIn && WhatAmI(env, x) != ResponseOut {
    }
    NoFlow(env, st.emitted);
  }

  lemma StepBalances(env: Env, l: Ledger, s: Scratch, c: Ledger, e: Entry)
    requires Simulates(l, s, c) && WellFormed(env, l, s, e.tx) && ValueSafe(env, l, s, e.tx)
    requires Propose(env, l, s, e.tx, e.order).Some? && Total(c.utxo) < TWO_64
    requires AllPay(Consumed(env, Propose(env, l, s, e.tx, e.order).value.emitted))
    ensures var st := Propose(env, l, s, e.tx, e.order).value;
      && CommitAll(env, c, st.emitted, true).Some?
      && Balances(env, c, st.emitted, CommitAll(env, c, st.emitted, true).value)
  {
    var t := e.tx;
    if t.origTxHash == NIL && t.hash != NIL {
      if AllMine(env, t) {
        NormalBalances(env, l, s, c, t);
        CommitOne(env, c, t);
      } else {
        UnknownBalances(env, l, s, c, t, e.order);
      }
    } else if t.origTxHash != NIL && t.hash == NIL {
      IncomingBalances(env, l, s, c, t);
      CommitOne(env, c, ProposeIncoming(env, l, s, t).value.emitted[0]);
    } else {
      ResponseIsConsumed(env, l, s, t);
      ResponseBalances(env, l, s, c, t);
    }
  }

  /** Every response a step of the leader produces pays its inputs. */
  lemma StepProducesPaying(env: Env, l: Ledger, s: Scratch, e: Entry)
    requires NoncesMatch(l.utxo) && WellFormed(env, l, s, e.tx) && ValueSafe(env, l, s, e.tx)
    requires Propose(env, l, s, e.tx, e.order).Some?
    ensures AllPay(Produced(env, Propose(env, l, s, e.tx, e.order).value.emitted))
  {
    var t := e.tx;
    var txs := Propose(env, l, s, t, e.order).value.emitted;
    if t.origTxHash == NIL && t.hash != NIL {
      forall x | x in txs ensures WhatAmI(env, x) != ResponseIn && WhatAmI(env, x) != ResponseOut {}
      NoFlow(env, txs);
    } else if t.origTxHash != NIL && t.hash == NIL {
      var r := txs[0];
      assert txs == [r];
      OneFlow(env, r);
      forall i | 0 <= i < |r.inputs| ensures r.outputs[i].n == r.inputs[i].n {
        assert Key(r.inputs[i]) in Keys(r.inputs);
      }
    } else {
      ResponseIsConsumed(env, l, s, t);
    }
  }

  /** So every response a batch produces pays its inputs: whoever takes it in later can rely on that. */
  lemma {:induction false} ProducedPay(env: Env, l: Ledger, batch: seq<Entry>)
    requires NoncesMatch(l.utxo) && WellFormedBatch(env, l, batch) && ValueSafeBatch(env, l, batch)
    requires ProposeAll(env, l, batch).Some?
    ensures AllPay(Produced(env, ProposeAll(env, l, batch).value.emitted))
  {
    if batch != [] {
      hide Propose, WellFormed, ValueSafe, WhatAmI, PaysItsInputs, OrderOk;
      var front, e := batch[..|batch| - 1], batch[|batch| - 1];
      var st := ProposeAll(env, l, front).value;
      ProducedPay(env, l, front);
      StepProducesPaying(env, l, st.scratch, e);
      FlowAppend(env, st.emitted, Propose(env, l, st.scratch, e.tx, e.order).value.emitted);
    }
  }

  /** Over a whole batch, a committee's value changes by what it receives and sends away. */
  lemma {:induction false} BatchBalances(env: Env, l: Ledger, batch: seq<Entry>)
    requires NoncesMatch(l.utxo) && OriginalsOk(l.originals)
    requires WellFormedBatch(env, l, batch) && ValueSafeBatch(env, l, batch)
    requires ProposeAll(env, l, batch).Some?
    requires AllPay(Consumed(env, ProposeAll(env, l, batch).value.emitted))
    requires Total(l.utxo) + TransitValue(Consumed(env, ProposeAll(env, l, batch).value.emitted)) < TWO_64
    ensures var st := ProposeAll(env, l, batch).value;
      && CommitAll(env, l, st.emitted, true).Some?
      && Balances(env, l, st.emitted, CommitAll(env, l, st.emitted, true).value)
  {
    if batch != [] {
      var front, e := batch[..|batch| - 1], batch[|batch| - 1];
      var st := ProposeAll(env, l, front).value;
      var more := Propose(env, l, st.scratch, e.tx, e.order).value.emitted;
      FlowAppend(env, st.emitted, more);
      TransitUnion(Consumed(env, st.emitted), Consumed(env, more));
      TransitUnion(Produced(env, st.emitted), Produced(env, more));
      BatchBalances(env, l, front);
      ProposalSimulatesCommit(env, l, front);
      var c := CommitAll(env, l, st.emitted, true).value;
      StepBalances(env, l, st.scratch, c, e);
      CommitAppend(env, l, st.emitted, more, true);
    }
  }

  ghost function LedgersTotal(m: map<Hash, Ledger>): nat {
    if m == map[] then 0
    else
      var c :| c in m;
      Total(m[c].utxo) + LedgersTotal(m - {c})
  }

  lemma {:induction false} LedgersSplit(m: map<Hash, Ledger>, c: Hash)
    requires c in m
    ensures LedgersTotal(m) == Total(m[c].utxo) + LedgersTotal(m - {c})
    decreases |m|
  {
    var d :| d in m && LedgersTotal(m) == Total(m[d].utxo) + LedgersTotal(m - {d});
    if d != c {
      LedgersSplit(m - {d}, c);
      LedgersSplit(m - {c}, d);
      assert m - {d} - {c} == m - {c} - {d};
    }
  }

  /** All value there is: held by some committee, or travelling. */
  ghost function WorldTotal(w: World): nat {
    LedgersTotal(w.ledgers) + TransitValue(w.transit)
  }

  ghost predicate LedgerOk(l: Ledger) {
    NoncesMatch(l.utxo) && OriginalsOk(l.originals)
  }

  /** No outpoint is in two places: it is in one ledger, or with one travelling response. */
  ghost predicate NoTwice(w: World) {
    && (forall c, d | c in w.ledgers && d in w.ledgers && c != d :: w.ledgers[c].utxo.Keys !! w.ledgers[d].utxo.Keys)
    && (forall c | c in w.ledgers :: w.ledgers[c].utxo.Keys !! Carried(w.transit))
    && Apart(w.transit)
  }

  /** Every outpoint there is. */
  ghost function Everywhere(w: World): (ks: set<Outpoint>)
    ensures forall c | c in w.ledgers :: w.ledgers[c].utxo.Keys <= ks
  {
    Carried(w.transit) + set c, k | c in w.ledgers && k in w.ledgers[c].utxo :: k
  }

  /**
    All ledgers are in order, every travelling response pays its inputs, and no outpoint is in two
    places; a genesis has none travelling.
   */
  ghost predicate WorldOk(w: World) {
    && (forall c | c in w.ledgers :: LedgerOk(w.ledgers[c]))
    && AllPay(w.transit)
    && NoTwice(w)
  }

  /**
    One round of committee `c`: its leader proposes for a well-shaped, value-safe batch whose
    responses are travelling ones, and the committee commits what the leader emitted. What it mints
    is new everywhere.
   */
  ghost predicate Round(net: Net, w: World, c: Hash, batch: seq<Entry>, w': World) {
    && c in w.ledgers
    && var env, l := EnvOf(net, c), w.ledgers[c];
    && ShapedBatch(env, l, batch) && ValueSafeBatch(env, l, batch)
    && ProposeAll(env, l, batch).Some?
    && var txs := ProposeAll(env, l, batch).value.emitted;
    && Consumed(env, txs) <= w.transit
    && Minted(env, txs) !! Everywhere(w)
    && CommitAll(env, l, txs, true).Some?
    && w' == World(w.ledgers[c := CommitAll(env, l, txs, true).value],
                   w.transit - Consumed(env, txs) + Produced(env, txs))
  }

  /** That its responses bring nothing seen before is not assumed: the world as it is sees to it. */
  lemma RoundFlows(net: Net, w: World, c: Hash, batch: seq<Entry>, w': World)
    requires WorldOk(w) && Round(net, w, c, batch, w')
    ensures var env, l := EnvOf(net, c), w.ledgers[c];
      && WellFormedBatch(env, l, batch)
      && var st := ProposeAll(env, l, batch).value; Flowing(env, l, st.scratch, st.emitted)
  {
    hide LedgerOk, CommitAll, ProposeAll, ShapedBatch, WellFormedBatch, ValueSafeBatch, Produced, Consumed, Minted, Carried, EnvOf, Flowing, Apart;
    BatchFlows(EnvOf(net, c), w.ledgers[c], batch, w.transit);
  }

  lemma RoundKeepsOk(net: Net, w: World, c: Hash, batch: seq<Entry>, w': World)
    requires WorldOk(w) && Round(net, w, c, batch, w')
    ensures WorldOk(w')
  {
    hide LedgerOk, AllPay, NoTwice, Everywhere, CommitAll, ProposeAll, ShapedBatch, WellFormedBatch, ValueSafeBatch, Produced, Consumed, Minted, EnvOf, Flowing;
    var env, l := EnvOf(net, c), w.ledgers[c];
    var txs := ProposeAll(env, l, batch).value.emitted;
    RoundFlows(net, w, c, batch, w');
    LedgerIsOk(l);
    LedgerStaysOk(env, l, batch);
    ProducedPay(env, l, batch);
    TransitPays(w.transit, Consumed(env, txs), Produced(env, txs));
    OutpointsMove(net, w, c, batch, w');
  }

  /** The round moves outpoints from place to place. */
  lemma OutpointsMove(net: Net, w: World, c: Hash, batch: seq<Entry>, w': World)
    requires WorldOk(w) && Round(net, w, c, batch, w')
    ensures NoTwice(w')
  {
    hide LedgerOk, AllPay, NoTwice, Everywhere, CommitAll, ProposeAll, ShapedBatch, WellFormedBatch, ValueSafeBatch, Produced, Consumed, Minted, Carried, Apart, EnvOf, Simulates;
    var env, l := EnvOf(net, c), w.ledgers[c];
    var st := ProposeAll(env, l, batch).value;
    RoundFlows(net, w, c, batch, w');
    LedgerIsOk(l);
    ProposalSimulatesCommit(env, l, batch);
    StaysApart(w, c, w'.ledgers[c], Consumed(env, st.emitted), Produced(env, st.emitted), Minted(env, st.emitted), st.scratch.spent.Keys);
  }

  lemma StaysApart(w: World, c: Hash, l': Ledger, used: multiset<Transaction>, made: multiset<Transaction>, minted: set<Outpoint>, spent: set<Outpoint>)
    requires NoTwice(w) && c in w.ledgers && used <= w.transit && minted !! Everywhere(w)
    requires l'.utxo.Keys <= w.ledgers[c].utxo.Keys + minted + Carried(used) - spent
    requires Carried(made) <= w.ledgers[c].utxo.Keys * spent && Apart(made)
    ensures NoTwice(World(w.ledgers[c := l'], w.transit - used + made))
  {
    hide Carried, Apart;
    var rest := w.transit - used;
    assert w.transit == rest + used;
    ApartSplit(rest, used);
    CarriedUnion(rest, used);
    ApartUnion(rest, made);
    CarriedUnion(rest, made);
    assert Carried(w.transit) <= Everywhere(w);
    var w' := World(w.ledgers[c := l'], rest + made);
    forall d | d in w'.ledgers && d != c
      ensures w'.ledgers[d].utxo.Keys !! l'.utxo.Keys && w'.ledgers[d].utxo.Keys !! Carried(w'.transit)
    {
      assert w.ledgers[d].utxo.Keys !! w.ledgers[c].utxo.Keys;
    }
  }

  lemma LedgerStaysOk(env: Env, l: Ledger, batch: seq<Entry>)
    requires LedgerOk(l) && WellFormedBatch(env, l, batch) && ProposeAll(env, l, batch).Some?
    ensures var c := CommitAll(env, l, ProposeAll(env, l, batch).value.emitted, true);
      c.Some? && LedgerOk(c.value)
  {
    var st := ProposeAll(env, l, batch).value;
    ProposalSimulatesCommit(env, l, batch);
    CommitKeepsNonces(env, l, st.emitted, true);
    hide ProposeAll, CommitAll, WellFormedBatch, View;
    var l' := CommitAll(env, l, st.emitted, true).value;
    forall k | k in l'.originals ensures l'.originals[k].origTxHash == k && l'.originals[k].inputs != [] {
      assert Tracked(st.scratch, l', k, Pending(l, st.scratch)[k]);
    }
  }

  lemma TransitPays(m: multiset<Transaction>, used: multiset<Transaction>, made: multiset<Transaction>)
    requires AllPay(m) && AllPay(made)
    ensures AllPay(m - used + made)
    ensures used <= m ==> AllPay(used)
  {
    hide PaysItsInputs;
  }

  lemma LedgerIsOk(l: Ledger)
    requires LedgerOk(l)
    ensures NoncesMatch(l.utxo) && OriginalsOk(l.originals)
  {
  }

  lemma RoundKeepsValue(net: Net, w: World, c: Hash, batch: seq<Entry>, w': World)
    requires WorldOk(w) && WorldTotal(w) < TWO_64 && Round(net, w, c, batch, w')
    ensures WorldTotal(w') == WorldTotal(w)
  {
    hide LedgersTotal, TransitValue, Produced, Consumed, Minted, CommitAll, ShapedBatch, WellFormedBatch, ValueSafeBatch, LedgerOk, ProposeAll, EnvOf, PaysItsInputs, NoTwice, Everywhere, Flowing;
    var env, l := EnvOf(net, c), w.ledgers[c];
    RoundFlows(net, w, c, batch, w');
    LedgerIsOk(l);
    var txs := ProposeAll(env, l, batch).value.emitted;
    var used, made := Consumed(env, txs), Produced(env, txs);
    assert w.transit == (w.transit - used) + used;
    TransitUnion(w.transit - used, used);
    TransitUnion(w.transit - used, made);
    LedgersSplit(w.ledgers, c);
    LedgersSplit(w'.ledgers, c);
    assert w'.ledgers - {c} == w.ledgers - {c};
    TransitPays(w.transit, used, multiset{});
    BatchBalances(env, l, batch);
  }

  ghost predicate SomeRound(net: Net, w: World, w': World) {
    exists c, batch :: Round(net, w, c, batch, w')
  }

  /** Value is conserved over every run of all committees, and no outpoint is ever in two places. */
  lemma {:induction false} ValueIsConserved(net: Net, run: seq<World>)
    requires run != [] && WorldOk(run[0]) && WorldTotal(run[0]) < TWO_64
    requires forall i | 0 <= i < |run| - 1 :: SomeRound(net, run[i], run[i + 1])
    ensures forall i | 0 <= i < |run| :: WorldTotal(run[i]) == WorldTotal(run[0]) && WorldOk(run[i])
  {
    hide WorldOk, WorldTotal, Round;
    if |run| > 1 {
      var front := run[..|run| - 1];
      ValueIsConserved(net, front);
      var w, w' := run[|run| - 2], run[|run| - 1];
      assert SomeRound(net, run[|run| - 2], run[|run| - 2 + 1]);
      var c, batch :| Round(net, w, c, batch, w');
      assert front[|front| - 1] == w;
      RoundKeepsOk(net, w, c, batch, w');
      RoundKeepsValue(net, w, c, batch, w');
      forall i | 0 <= i < |run| ensures WorldTotal(run[i]) == WorldTotal(run[0]) && WorldOk(run[i]) {
        if i < |front| { assert front[i] == run[i]; }
      }
    }
  }
}
