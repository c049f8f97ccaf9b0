/**
  Value is neither made nor lost across committees: outputs a committee gives up in a
  cross-transaction response travel, and are added once, where the original waits.
 */
module Conservation {
  import opened Sequences
  import opened LedgerTypes
  import opened Ledger
  import opened Proposal
  import opened Simulation

  /** What the committees share; a committee's own view adds its id. */
  datatype Net = Net(
    closest: Hash -> Hash,
    bodyHash: (seq<InTx>, seq<OutTx>, Hash) -> Hash,
    verify: (nat, InTx, Hash) -> bool,
    proofOk: Transaction -> bool)

  function EnvOf(net: Net, c: Hash): Env {
    Env(c, net.closest, net.bodyHash, net.verify, net.proofOk)
  }

  /** All committees, and the responses committed where they spend but not where they pay. */
  datatype World = World(ledgers: map<Hash, Ledger>, transit: multiset<Transaction>)

  /** A response as it was committed by the spending committee, before its proof was attached. */
  function Bare(t: Transaction): Transaction {
    t.(proof := None)
  }

  ghost function Produced(env: Env, txs: seq<Transaction>): multiset<Transaction> {
    if txs == [] then multiset{}
    else
      var t := txs[|txs| - 1];
      Produced(env, txs[..|txs| - 1]) + if WhatAmI(env, t) == ResponseIn then multiset{t} else multiset{}
  }

  ghost function Consumed(env: Env, txs: seq<Transaction>): multiset<Transaction> {
    if txs == [] then multiset{}
    else
      var t := txs[|txs| - 1];
      Consumed(env, txs[..|txs| - 1]) + if WhatAmI(env, t) == ResponseOut then multiset{Bare(t)} else multiset{}
  }

  ghost function TransitValue(m: multiset<Transaction>): nat
    decreases |m|
  {
    if m == multiset{} then 0
    else
      var t :| t in m;
      SumOut(t.outputs) + TransitValue(m - multiset{t})
  }

  lemma {:induction false} TransitSplit(m: multiset<Transaction>, t: Transaction)
    requires t in m
    ensures TransitValue(m) == SumOut(t.outputs) + TransitValue(m - multiset{t})
    decreases |m|
  {
    var u :| u in m && TransitValue(m) == SumOut(u.outputs) + TransitValue(m - multiset{u});
    if u != t {
      TransitSplit(m - multiset{u}, t);
      TransitSplit(m - multiset{t}, u);
      assert m - multiset{u} - multiset{t} == m - multiset{t} - multiset{u};
    }
  }

  lemma {:induction false} TransitUnion(a: multiset<Transaction>, b: multiset<Transaction>)
    ensures TransitValue(a + b) == TransitValue(a) + TransitValue(b)
    decreases |b|
  {
    if b == multiset{} {
      assert a + b == a;
    } else {
      var t :| t in b;
      TransitUnion(a, b - multiset{t});
      TransitSplit(b, t);
      TransitSplit(a + b, t);
      assert a + b - multiset{t} == a + (b - multiset{t});
    }
  }

  lemma TransitOne(t: Transaction)
    ensures TransitValue(multiset{t}) == SumOut(t.outputs)
  {
    TransitSplit(multiset{t}, t);
    assert multiset{t} - multiset{t} == multiset{};
  }

  /** A response pays, under distinct outpoints, one output for each of its inputs. */
  predicate PaysItsInputs(t: Transaction) {
    && Distinct(t.inputs)
    && |t.inputs| == |t.outputs|
    && forall i | 0 <= i < |t.inputs| :: t.outputs[i].n == t.inputs[i].n
  }

  ghost predicate AllPay(m: multiset<Transaction>) {
    forall t | t in m :: PaysItsInputs(t)
  }

  /**
    The value conditions on a pool transaction: a normal one's outputs have distinct nonces
    and do not overflow 64 bits, an incoming one spends nothing twice, and an original that a
    response completes has outputs of distinct nonces that pay exactly what its inputs hold.
   */
  predicate ValueSafe(env: Env, l: Ledger, s: Scratch, t: Transaction) {
    if t.origTxHash == NIL && t.hash != NIL then
      AllMine(env, t) ==> DistinctNonces(t.outputs) && SumOut(t.outputs) < TWO_64
    else if t.origTxHash != NIL && t.hash == NIL then
      Distinct(t.inputs)
    else
      |t.inputs| == |t.outputs| && Answered(l, s, t).Some? ==>
        var o := Answered(l, s, t).value;
        var s1 := s.(added := s.added + ResponseMap(t.inputs, t.outputs));
        Covered(l, s1, o.inputs) ==>
          && DistinctNonces(o.outputs)
          && Keys(o.inputs) <= Known(l, s1).Keys
          && SumOut(o.outputs) == SumOut(Owed(Known(l, s1), o.inputs))
  }

  predicate ValueSafeBatch(env: Env, l: Ledger, batch: seq<Entry>) {
    batch == [] ||
    var front, e := batch[..|batch| - 1], batch[|batch| - 1];
    && ValueSafeBatch(env, l, front)
    && (ProposeAll(env, l, front).Some? ==>
          ValueSafe(env, l, ProposeAll(env, l, front).value.scratch, e.tx))
  }

  /** Adding outputs under new outpoints adds their value. */
  lemma AddValue(u: Utxo, out: Utxo)
    requires u.Keys !! out.Keys
    ensures Total(u + out) == Total(u) + Total(out)
  {
    TotalUnion(u, out);
  }

  /** What `u` holds under `ks`. */
  ghost function Under(u: Utxo, ks: set<Outpoint>): Utxo {
    map k | k in u && k in ks :: u[k]
  }

  /** Removing outpoints and filing outputs: what was removed or filed over is gone, what was filed is there. */
  lemma Replaced(u: Utxo, ks: set<Outpoint>, out: Utxo)
    ensures Total(u - ks + out) + Total(Under(u, ks + out.Keys)) == Total(u) + Total(out)
  {
    hide Total;
    var gone := ks + out.Keys;
    assert u - ks + out == (u - gone) + out;
    TotalUnion(u - gone, out);
    assert u == (u - gone) + Under(u, gone);
    TotalUnion(u - gone, Under(u, gone));
  }

  lemma SpentIsUnder(u: Utxo, ins: seq<InTx>, out: Utxo)
    requires Spendable(u, ins) && out.Keys !! u.Keys
    ensures Total(Under(u, Keys(ins) + out.Keys)) == SumOut(Owed(u, ins))
  {
    hide Total, SumOut, Owed, Keys;
    SpentTotal(u, ins);
    assert Under(u, Keys(ins) + out.Keys) == Spent(u, ins);
  }

  /**
    A normal transaction the replicas accept keeps their value exactly when it files as much as it
    spends or files over; at new outpoints, exactly when it files what its inputs were worth. The
    replicas compare 64-bit sums: with a total that fits and outputs of distinct nonces besides, that
    is when the outputs do not overflow.
   */
  lemma NormalKeepsValueIff(env: Env, c: Ledger, t: Transaction)
    requires WhatAmI(env, t) == Normal && Commit(env, c, t, true).Some?
    ensures var out := OutMap(t.hash, t.outputs);
      Total(Commit(env, c, t, true).value.utxo) == Total(c.utxo)
      <==> Total(out) == Total(Under(c.utxo, Keys(t.inputs) + out.Keys))
    ensures Spendable(c.utxo, t.inputs)
    ensures OutMap(t.hash, t.outputs).Keys !! c.utxo.Keys ==>
      (Total(Commit(env, c, t, true).value.utxo) == Total(c.utxo)
       <==> Total(OutMap(t.hash, t.outputs)) == SumOut(Owed(c.utxo, t.inputs)))
    ensures
      && OutMap(t.hash, t.outputs).Keys !! c.utxo.Keys && DistinctNonces(t.outputs) && Total(c.utxo) < TWO_64 ==>
        (Total(Commit(env, c, t, true).value.utxo) == Total(c.utxo) <==> SumOut(t.outputs) < TWO_64)
  {
    hide Total, SumOut, OutMap, Owed, DistinctNonces, Keys, Under, Distinct;
    var out := OutMap(t.hash, t.outputs);
    Replaced(c.utxo, Keys(t.inputs), out);
    TotalSpend(c.utxo, t.inputs);
    if out.Keys !! c.utxo.Keys {
      SpentIsUnder(c.utxo, t.inputs, out);
      if DistinctNonces(t.outputs) && Total(c.utxo) < TWO_64 {
        OutMapTotal(t.hash, t.outputs);
        SameWrap(SumOut(Owed(c.utxo, t.inputs)), SumOut(t.outputs));
      }
    }
  }

  lemma SameWrap(paid: nat, made: nat)
    requires paid < TWO_64 && paid % TWO_64 == made % TWO_64
    ensures paid == made <==> made < TWO_64
  {
  }

  /**
    A final transaction the replicas accept keeps their value exactly when it files as much as it
    removes or files over; with inputs all there and outputs at new outpoints, exactly when its
    original was balanced: nobody checks it.
   */
  lemma FinalKeepsValueIff(env: Env, c: Ledger, t: Transaction)
    requires WhatAmI(env, t) == Final && Commit(env, c, t, true).Some?
    ensures var out := OutMap(t.origTxHash, t.outputs);
      Total(Commit(env, c, t, true).value.utxo) == Total(c.utxo)
      <==> Total(out) == Total(Under(c.utxo, Keys(t.inputs) + out.Keys))
    ensures
      && Spendable(c.utxo, t.inputs) && DistinctNonces(t.outputs)
      && OutMap(t.origTxHash, t.outputs).Keys !! c.utxo.Keys ==>
        (Total(Commit(env, c, t, true).value.utxo) == Total(c.utxo)
         <==> SumOut(t.outputs) == SumOut(Owed(c.utxo, t.inputs)))
  {
    hide Total, SumOut, OutMap, Owed, DistinctNonces, Keys, Under, Distinct;
    var out := OutMap(t.origTxHash, t.outputs);
    Replaced(c.utxo, Keys(t.inputs), out);
    if Spendable(c.utxo, t.inputs) && DistinctNonces(t.outputs) && out.Keys !! c.utxo.Keys {
      SpentIsUnder(c.utxo, t.inputs, out);
      OutMapTotal(t.origTxHash, t.outputs);
    }
  }

  /** A response included at its origin takes out what is there under its inputs. */
  lemma ResponseInValue(env: Env, c: Ledger, t: Transaction)
    requires WhatAmI(env, t) == ResponseIn
    ensures Total(Commit(env, c, t, true).value.utxo) + Total(Under(c.utxo, Keys(t.inputs))) == Total(c.utxo)
  {
    hide Total, Under;
    var ks: set<Outpoint>, none: Utxo := Keys(t.inputs), map[];
    Replaced(c.utxo, ks, none);
    assert c.utxo - ks + none == c.utxo - ks && ks + none.Keys == ks;
    NoValue();
  }

  lemma NoValue()
    ensures Total(map[]) == 0
  {
  }

  /** Inputs named again are worth nothing. */
  predicate WorthOnce(u: Utxo, ins: seq<InTx>)
    requires Keys(ins) <= u.Keys
  {
    forall a, b | 0 <= a < b < |ins| && Key(ins[a]) == Key(ins[b]) ::
      Key(ins[b]) in Keys(ins) && u[Key(ins[b])].value == 0
  }

  /** It moves exactly that value into the outputs handed on when no input named again is worth anything. */
  lemma ResponseInMovesValueIff(env: Env, c: Ledger, t: Transaction)
    requires WhatAmI(env, t) == ResponseIn
    requires Keys(t.inputs) <= c.utxo.Keys && t.outputs == Owed(c.utxo, t.inputs)
    ensures Total(Commit(env, c, t, true).value.utxo) + SumOut(t.outputs) == Total(c.utxo) <==> WorthOnce(c.utxo, t.inputs)
    ensures Total(Commit(env, c, t, true).value.utxo) + SumOut(t.outputs) >= Total(c.utxo)
  {
    ResponseInValue(env, c, t);
    OwedAgainstSpent(c.utxo, t.inputs);
    hide Total, SumOut, Owed, Keys, WorthOnce;
    assert Under(c.utxo, Keys(t.inputs)) == Spent(c.utxo, t.inputs);
  }

  lemma {:induction false} OwedAgainstSpent(u: Utxo, ins: seq<InTx>)
    requires Keys(ins) <= u.Keys
    ensures SumOut(Owed(u, ins)) >= Total(Spent(u, ins))
    ensures SumOut(Owed(u, ins)) == Total(Spent(u, ins)) <==> WorthOnce(u, ins)
  {
    if ins == [] {
      NoValue();
      assert Spent(u, ins) == map[];
    } else {
      var j := |ins| - 1;
      var front, k := ins[..j], Key(ins[j]);
      KeysSnoc(ins);
      OwedAgainstSpent(u, front);
      OwedNext(u, ins);
      if k in Keys(front) {
        assert Keys(ins) == Keys(front) && Spent(u, ins) == Spent(u, front);
        var a :| 0 <= a < j && Key(front[a]) == k;
        assert Key(ins[a]) == k;
      } else {
        TotalAdd(Spent(u, front), k, u[k]);
        assert Spent(u, ins) == Spent(u, front)[k := u[k]];
      }
      WorthNext(u, ins);
    }
  }

  lemma OwedNext(u: Utxo, ins: seq<InTx>)
    requires ins != [] && Keys(ins) <= u.Keys && Keys(ins[..|ins| - 1]) <= u.Keys
    ensures Key(ins[|ins| - 1]) in u
    ensures SumOut(Owed(u, ins)) == SumOut(Owed(u, ins[..|ins| - 1])) + u[Key(ins[|ins| - 1])].value
  {
    var j := |ins| - 1;
    assert Key(ins[j]) in Keys(ins);
    assert Owed(u, ins)[..j] == Owed(u, ins[..j]);
  }

  lemma WorthNext(u: Utxo, ins: seq<InTx>)
    requires ins != [] && Keys(ins) <= u.Keys && Keys(ins[..|ins| - 1]) <= u.Keys && Key(ins[|ins| - 1]) in u
    ensures var j := |ins| - 1;
      WorthOnce(u, ins) <==>
        WorthOnce(u, ins[..j]) && (Key(ins[j]) in Keys(ins[..j]) ==> u[Key(ins[j])].value == 0)
  {
    var j := |ins| - 1;
    var front, k := ins[..j], Key(ins[j]);
    assert forall a | 0 <= a < j :: front[a] == ins[a] && Key(front[a]) in Keys(front);
    assert k in Keys(ins);
    if WorthOnce(u, ins) {
      assert WorthOnce(u, front) by {
        forall a, b | 0 <= a < b < j && Key(front[a]) == Key(front[b]) ensures u[Key(front[b])].value == 0 {
          assert Key(ins[a]) == Key(ins[b]);
        }
      }
      if k in Keys(front) {
        var a :| 0 <= a < j && Key(front[a]) == k;
        assert Key(ins[a]) == Key(ins[j]);
      }
    }
  }

  /** A response arriving brings what it files, less what it files over. */
  lemma ResponseOutValue(env: Env, c: Ledger, t: Transaction)
    requires WhatAmI(env, t) == ResponseOut && Commit(env, c, t, true).Some?
    ensures var out := ResponseMap(t.inputs, t.outputs);
      && Total(Commit(env, c, t, true).value.utxo) + Total(Under(c.utxo, out.Keys)) == Total(c.utxo) + Total(out)
      && (PaysItsInputs(t) && out.Keys !! c.utxo.Keys ==>
            Total(Commit(env, c, t, true).value.utxo) == Total(c.utxo) + SumOut(t.outputs))
  {
    hide Total, ResponseMap, SumOut, Distinct;
    var out := ResponseMap(t.inputs, t.outputs);
    Replaced(c.utxo, {}, out);
    assert c.utxo - {} + out == c.utxo + out && {} + out.Keys == out.Keys;
    if PaysItsInputs(t) && out.Keys !! c.utxo.Keys {
      ResponseMapTotal(t.inputs, t.outputs);
      assert Under(c.utxo, out.Keys) == map[];
      NoValue();
    }
  }

  lemma {:induction false} ResponseMapTotal(ins: seq<InTx>, outs: seq<OutTx>)
    requires |ins| == |outs| && Distinct(ins)
    requires forall i | 0 <= i < |ins| :: outs[i].n == ins[i].n
    ensures Total(ResponseMap(ins, outs)) == SumOut(outs)
    ensures ResponseMap(ins, outs).Keys == Keys(ins)
  {
    if ins != [] {
      var j := |ins| - 1;
      ResponseMapTotal(ins[..j], outs[..j]);
      KeysSnoc(ins);
      var m, k := ResponseMap(ins[..j], outs[..j]), Key(ins[j]);
      TotalSplit(m[k := outs[j]], k);
      assert m[k := outs[j]] - {k} == m;
    }
  }
}
