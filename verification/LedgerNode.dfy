/**
  A committee member that owns the ledger state and changes it in place, by the loops of
  the program; each method is tied to the function that says what it does.
 */
module LedgerNode {
  import opened Sequences
  import opened LedgerTypes
  import opened UtxoSets
  import opened Ledger
  import opened Proposal

  /** Takes every input out, adding up the wrapped value; stops at the first one missing. */
  method SpendAll(u: UtxoSet, ins: seq<InTx>) returns (tot: Uint64, ok: bool)
    requires u.Valid()
    modifies u
    ensures u.Valid()
    ensures ok <==> Spendable(old(u.contents), ins)
    ensures ok ==> u.contents == old(u.contents) - Keys(ins) && tot == WrapSum(Owed(old(u.contents), ins))
  {
    tot := 0;
    hide *;
    ghost var v := u.contents;
    var i := 0;
    SpendStart(v, ins);
    while i < |ins|
      invariant 0 <= i <= |ins| && u.Valid()
      invariant SpentSoFar(v, ins[..i], u.contents, tot)
    {
      ghost var before := u.contents;
      var out := u.GetAndRemove(ins[i].txHash, ins[i].n);
      if out.None? {
        CannotSpend(v, ins, i, before, tot);
        return tot, false;
      }
      CanSpend(v, ins, i, before, tot);
      tot := WrapAdd(tot, out.value.value);
      i := i + 1;
    }
    assert ins[..i] == ins;
    SpentAll(v, ins, u.contents, tot);
    return tot, true;
  }

  /** `ins` were spendable in `v`; taking them out left `u` and came to `tot`. */
  ghost predicate SpentSoFar(v: Utxo, ins: seq<InTx>, u: Utxo, tot: Uint64) {
    Spendable(v, ins) && u == v - Keys(ins) && tot == WrapSum(Owed(v, ins))
  }

  lemma SpendStart(v: Utxo, ins: seq<InTx>)
    ensures SpentSoFar(v, ins[..0], v, 0)
  {
    assert Keys(ins[..0]) == {} && Owed(v, ins[..0]) == [];
  }

  lemma CannotSpend(v: Utxo, ins: seq<InTx>, i: nat, u: Utxo, tot: Uint64)
    requires i < |ins| && SpentSoFar(v, ins[..i], u, tot) && Outpoint(ins[i].txHash, ins[i].n) !in u
    ensures !Spendable(v, ins)
  {
    assert Key(ins[i]) in Keys(ins);
    if Key(ins[i]) in v {
      var x :| x in ins[..i] && Key(x) == Key(ins[i]);
    }
  }

  lemma CanSpend(v: Utxo, ins: seq<InTx>, i: nat, u: Utxo, tot: Uint64)
    requires i < |ins| && SpentSoFar(v, ins[..i], u, tot) && Outpoint(ins[i].txHash, ins[i].n) in u
    ensures var k := Outpoint(ins[i].txHash, ins[i].n);
      SpentSoFar(v, ins[..i + 1], u - {k}, WrapAdd(tot, u[k].value))
  {
    var more := ins[..i + 1];
    assert more[..i] == ins[..i];
    KeysSnoc(more);
    forall a | 0 <= a < i ensures Key(ins[a]) != Key(ins[i]) {
      assert ins[a] in ins[..i];
    }
    assert Owed(v, more)[..i] == Owed(v, ins[..i]);
  }

  lemma SpentAll(v: Utxo, ins: seq<InTx>, u: Utxo, tot: Uint64)
    requires SpentSoFar(v, ins, u, tot)
    ensures Spendable(v, ins) && u == v - Keys(ins)
    ensures Keys(ins) <= v.Keys && tot == WrapSum(Owed(v, ins))
  {
  }

  lemma RemoveStart(v: Utxo, ins: seq<InTx>)
    ensures v - Keys(ins[..0]) == v
  {
  }

  lemma RemoveNext(v: Utxo, ins: seq<InTx>, i: nat)
    requires i < |ins|
    ensures v - Keys(ins[..i + 1]) == v - Keys(ins[..i]) - {Outpoint(ins[i].txHash, ins[i].n)}
  {
    assert ins[..i + 1][..i] == ins[..i];
    KeysSnoc(ins[..i + 1]);
  }

  method RemoveAll(u: UtxoSet, ins: seq<InTx>)
    requires u.Valid()
    modifies u
    ensures u.Valid() && u.contents == old(u.contents) - Keys(ins)
  {
    hide *;
    ghost var v := u.contents;
    var i := 0;
    RemoveStart(v, ins);
    while i < |ins|
      invariant 0 <= i <= |ins| && u.Valid()
      invariant u.contents == v - Keys(ins[..i])
    {
      RemoveNext(v, ins, i);
      u.RemoveOutput(ins[i].txHash, ins[i].n);
      i := i + 1;
    }
    assert ins[..i] == ins;
  }

  method AddAll(u: UtxoSet, h: Hash, outs: seq<OutTx>) returns (tot: Uint64)
    requires u.Valid()
    modifies u
    ensures u.Valid() && u.contents == old(u.contents) + OutMap(h, outs)
    ensures tot == WrapSum(outs)
  {
    tot := 0;
    hide *;
    ghost var v := u.contents;
    var i := 0;
    AddStart(v, h, outs);
    while i < |outs|
      invariant 0 <= i <= |outs| && u.Valid()
      invariant u.contents == v + OutMap(h, outs[..i]) && tot == WrapSum(outs[..i])
    {
      AddNext(v, h, outs, i);
      u.Add(h, outs[i]);
      tot := WrapAdd(tot, outs[i].value);
      i := i + 1;
    }
    assert outs[..i] == outs;
  }

  method AddResponses(u: UtxoSet, ins: seq<InTx>, outs: seq<OutTx>)
    requires u.Valid() && |ins| == |outs|
    modifies u
    ensures u.Valid() && u.contents == old(u.contents) + ResponseMap(ins, outs)
  {
    hide *;
    ghost var v := u.contents;
    var i := 0;
    RespondStart(v, ins, outs);
    while i < |outs|
      invariant 0 <= i <= |outs| && u.Valid()
      invariant u.contents == v + ResponseMap(ins[..i], outs[..i])
    {
      RespondNext(v, ins, outs, i);
      u.Add(ins[i].txHash, outs[i]);
      i := i + 1;
    }
    assert outs[..i] == outs && ins[..i] == ins;
  }

  lemma AddStart(v: Utxo, h: Hash, outs: seq<OutTx>)
    ensures v + OutMap(h, outs[..0]) == v && WrapSum(outs[..0]) == 0
  {
  }

  lemma RespondStart(v: Utxo, ins: seq<InTx>, outs: seq<OutTx>)
    requires |ins| == |outs|
    ensures v + ResponseMap(ins[..0], outs[..0]) == v
  {
  }

  lemma AddNext(v: Utxo, h: Hash, outs: seq<OutTx>, i: nat)
    requires i < |outs|
    ensures v + OutMap(h, outs[..i + 1]) == (v + OutMap(h, outs[..i]))[Outpoint(h, outs[i].n) := outs[i]]
    ensures WrapSum(outs[..i + 1]) == WrapAdd(WrapSum(outs[..i]), outs[i].value)
  {
    assert outs[..i + 1][..i] == outs[..i];
  }

  lemma RespondNext(v: Utxo, ins: seq<InTx>, outs: seq<OutTx>, i: nat)
    requires |ins| == |outs| && i < |outs|
    ensures v + ResponseMap(ins[..i + 1], outs[..i + 1]) ==
      (v + ResponseMap(ins[..i], outs[..i]))[Outpoint(ins[i].txHash, outs[i].n) := outs[i]]
  {
    assert outs[..i + 1][..i] == outs[..i] && ins[..i + 1][..i] == ins[..i];
  }

  /** Transactions a block settles leave the pool under both of their hashes. */
  function Settled(txs: seq<Transaction>): set<Hash> {
    if txs == [] then {}
    else Settled(txs[..|txs| - 1]) + {txs[|txs| - 1].origTxHash, txs[|txs| - 1].hash}
  }

  /** Exactly the transactions known by a hash of the block's leave. */
  lemma {:induction false} SettledAre(txs: seq<Transaction>, h: Hash)
    ensures h in Settled(txs) <==> exists t :: t in txs && (h == t.hash || h == t.origTxHash)
  {
    if txs != [] {
      var front, last := txs[..|txs| - 1], txs[|txs| - 1];
      SettledAre(front, h);
      assert txs == front + [last];
      if h == last.hash || h == last.origTxHash {
        assert last in txs;
      }
    }
  }

  class Node {
    const env: Env
    const utxo: UtxoSet
    var originals: map<Hash, Transaction>
    var pool: map<Hash, Transaction>

    constructor (env: Env)
      ensures Valid() && fresh(utxo) && this.env == env
      ensures Value() == Ledger(map[], map[]) && pool == map[]
    {
      this.env := env;
      utxo := new UtxoSet();
      originals := map[];
      pool := map[];
    }

    ghost predicate Valid()
      reads this, utxo
    {
      utxo.Valid()
    }

    /** The replicated state this node holds. */
    ghost function Value(): Ledger
      reads this, utxo
    {
      Ledger(utxo.contents, originals)
    }

    /** One transaction of a block, checks included. */
    method ProcessOne(t: Transaction, signed: bool) returns (ok: bool)
      requires Valid()
      modifies this`originals, utxo
      ensures Valid()
      ensures ok <==> Commit(env, old(Value()), t, signed).Some?
      ensures ok ==> Value() == Commit(env, old(Value()), t, signed).value
    {
      match WhatAmI(env, t) {
        case Normal =>
          var tot, spent := SpendAll(utxo, t.inputs);
          if !spent { return false; }
          var totOut := AddAll(utxo, t.hash, t.outputs);
          return !signed || tot == totOut;
        case CrossTx =>
          return true;
        case Original =>
          originals := originals[t.origTxHash := t];
          return true;
        case ResponseIn =>
          RemoveAll(utxo, t.inputs);
          return true;
        case ResponseOut =>
          if |t.inputs| != |t.outputs| { return false; }
          AddResponses(utxo, t.inputs, t.outputs);
          return true;
        case Final =>
          if t.origTxHash !in originals || !OutputsWithin(t, originals[t.origTxHash]) { return false; }
          RemoveAll(utxo, t.inputs);
          if originals[t.origTxHash].origTxHash != t.origTxHash { return false; }
          var totOut := AddAll(utxo, t.origTxHash, t.outputs);
          originals := originals - {t.origTxHash};
          return true;
        case Unknown =>
          return false;
      }
    }

    /** A committed block: the ledger follows it, and its transactions leave the pool. */
    method ProcessBlock(txs: seq<Transaction>, signed: bool) returns (ok: bool)
      requires Valid()
      modifies this, utxo
      ensures Valid()
      ensures ok <==> CommitAll(env, old(Value()), txs, signed).Some?
      ensures ok ==> Value() == CommitAll(env, old(Value()), txs, signed).value
      ensures ok ==> pool == old(pool) - Settled(txs)
    {
      hide Commit, CommitAll, Settled, UtxoSet.Valid;
      ghost var l := Value();
      var i := 0;
      CommitNothing(env, l, signed);
      assert txs[..0] == [];
      while i < |txs|
        invariant 0 <= i <= |txs| && Valid() && pool == old(pool)
        invariant CommitAll(env, l, txs[..i], signed) == Some(Value())
      {
        assert txs[..i + 1] == txs[..i] + [txs[i]];
        CommitSnoc(env, l, txs[..i], txs[i], signed);
        var done := ProcessOne(txs[i], signed);
        if !done {
          CommitStops(env, l, txs, i + 1, signed);
          return false;
        }
        i := i + 1;
      }
      assert txs[..i] == txs;
      ClearPool(txs);
      return true;
    }

    method ClearPool(txs: seq<Transaction>)
      modifies this`pool
      ensures pool == old(pool) - Settled(txs)
    {
      var i := 0;
      while i < |txs|
        invariant 0 <= i <= |txs| && pool == old(pool) - Settled(txs[..i])
      {
        pool := pool - {txs[i].origTxHash};
        pool := pool - {txs[i].hash};
        assert txs[..i + 1][..i] == txs[..i];
        i := i + 1;
      }
      assert txs[..i] == txs;
    }

    method ForceOne(t: Transaction) returns (ok: bool)
      requires Valid()
      modifies this`originals, utxo
      ensures Valid()
      ensures ok <==> Force(env, old(Value()), t).Some?
      ensures ok ==> Value() == Force(env, old(Value()), t).value
    {
      match WhatAmI(env, t) {
        case Normal =>
          RemoveAll(utxo, t.inputs);
          var tot := AddAll(utxo, t.hash, t.outputs);
          return true;
        case CrossTx =>
          return true;
        case Original =>
          originals := originals[t.origTxHash := t];
          return true;
        case ResponseIn =>
          RemoveAll(utxo, t.inputs);
          return true;
        case ResponseOut =>
          if |t.inputs| != |t.outputs| { return false; }
          AddResponses(utxo, t.inputs, t.outputs);
          return true;
        case Final =>
          RemoveAll(utxo, t.inputs);
          var tot := AddAll(utxo, t.origTxHash, t.outputs);
          originals := originals - {t.origTxHash};
          return true;
        case Unknown =>
          return false;
      }
    }

    /** The catch-up path. */
    method ForceProcessBlock(txs: seq<Transaction>) returns (ok: bool)
      requires Valid()
      modifies this, utxo
      ensures Valid()
      ensures ok <==> ForceAll(env, old(Value()), txs).Some?
      ensures ok ==> Value() == ForceAll(env, old(Value()), txs).value
      ensures ok ==> pool == old(pool) - Settled(txs)
    {
      hide Force, Settled, UtxoSet.Valid;
      ghost var l := Value();
      var i := 0;
      while i < |txs|
        invariant 0 <= i <= |txs| && Valid() && pool == old(pool)
        invariant ForceAll(env, l, txs[..i]) == Some(Value())
      {
        assert txs[..i + 1][..i] == txs[..i];
        var done := ForceOne(txs[i]);
        if !done {
          ForceStops(env, l, txs, i + 1);
          return false;
        }
        i := i + 1;
      }
      assert txs[..i] == txs;
      ClearPool(txs);
      return true;
    }
  }

  lemma {:induction false} CommitStops(env: Env, l: Ledger, txs: seq<Transaction>, i: nat, signed: bool)
    requires i <= |txs| && CommitAll(env, l, txs[..i], signed).None?
    ensures CommitAll(env, l, txs, signed).None?
    decreases |txs|
  {
    if i < |txs| {
      assert txs[..|txs| - 1][..i] == txs[..i];
      CommitStops(env, l, txs[..|txs| - 1], i, signed);
    } else {
      assert txs[..i] == txs;
    }
  }

  lemma {:induction false} ForceStops(env: Env, l: Ledger, txs: seq<Transaction>, i: nat)
    requires i <= |txs| && ForceAll(env, l, txs[..i]).None?
    ensures ForceAll(env, l, txs).None?
    decreases |txs|
  {
    if i < |txs| {
      assert txs[..|txs| - 1][..i] == txs[..i];
      ForceStops(env, l, txs[..|txs| - 1], i);
    } else {
      assert txs[..i] == txs;
    }
  }
}
