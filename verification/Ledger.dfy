/**
  What a committed block does to a committee's ledger, transaction by transaction.
  A missing result stands for the program stopping: a fatal error or a nil dereference.
 */
module Ledger {
  import opened Sequences
  import opened LedgerTypes

  /**
    The node's surroundings: its committee, the closest committee of a hash, the hash of
    a transaction body, signature verification of an input against a public key and a
    transaction id, and the whole proof-of-consensus check of a response.
   */
  datatype Env = Env(
    self: Hash,
    closest: Hash -> Hash,
    bodyHash: (seq<InTx>, seq<OutTx>, Hash) -> Hash,
    verify: (nat, InTx, Hash) -> bool,
    proofOk: Transaction -> bool)

  /** The replicated part of a node: unspent outputs and the originals awaiting responses. */
  datatype Ledger = Ledger(utxo: Utxo, originals: map<Hash, Transaction>)

  datatype Kind = Normal | CrossTx | Original | ResponseIn | ResponseOut | Final | Unknown

  function WhatAmI(env: Env, t: Transaction): Kind {
    if t.hash != NIL && t.origTxHash == NIL then Normal
    else if t.hash == NIL && t.origTxHash != NIL && t.outputs == [] then CrossTx
    else if t.hash == NIL && t.origTxHash != NIL && t.outputs != [] then Original
    else if t.hash != NIL && t.origTxHash != NIL && env.closest(t.origTxHash) != env.self then ResponseIn
    else if t.hash != NIL && t.origTxHash != NIL && t.proof.Some? then ResponseOut
    else if t.hash != NIL && t.origTxHash != NIL && env.closest(t.origTxHash) == env.self then Final
    else Unknown
  }

  function Id(t: Transaction): Hash {
    if t.hash != NIL then t.hash else t.origTxHash
  }

  /** Every output of `t` is among the outputs of `original`. */
  predicate OutputsWithin(t: Transaction, original: Transaction) {
    forall o | o in t.outputs :: o in original.outputs
  }

  /** Inputs can be taken out one after the other: each present, none twice. */
  predicate Spendable(u: Utxo, ins: seq<InTx>) {
    Keys(ins) <= u.Keys && Distinct(ins)
  }

  /** The effect of one committed transaction; `signed` is false for the genesis block only. */
  function Commit(env: Env, l: Ledger, t: Transaction, signed: bool): Option<Ledger> {
    match WhatAmI(env, t)
    case Normal =>
      if Spendable(l.utxo, t.inputs)
         && (signed ==> WrapSum(Owed(l.utxo, t.inputs)) == WrapSum(t.outputs))
      then Some(l.(utxo := l.utxo - Keys(t.inputs) + OutMap(t.hash, t.outputs)))
      else None
    case CrossTx => Some(l)
    case Original => Some(l.(originals := l.originals[t.origTxHash := t]))
    case ResponseIn => Some(l.(utxo := l.utxo - Keys(t.inputs)))
    case ResponseOut =>
      if |t.inputs| == |t.outputs|
      then Some(l.(utxo := l.utxo + ResponseMap(t.inputs, t.outputs)))
      else None
    case Final =>
      if t.origTxHash in l.originals
         && OutputsWithin(t, l.originals[t.origTxHash])
         && l.originals[t.origTxHash].origTxHash == t.origTxHash
      then Some(Ledger(l.utxo - Keys(t.inputs) + OutMap(t.origTxHash, t.outputs),
                       l.originals - {t.origTxHash}))
      else None
    case Unknown => None
  }

  /** The effect of a committed list, in order. */
  function CommitAll(env: Env, l: Ledger, txs: seq<Transaction>, signed: bool): Option<Ledger> {
    if txs == [] then Some(l)
    else
      match CommitAll(env, l, txs[..|txs| - 1], signed)
      case None => None
      case Some(l') => Commit(env, l', txs[|txs| - 1], signed)
  }

  /** The catch-up path: the same effects with none of the checks. */
  function Force(env: Env, l: Ledger, t: Transaction): Option<Ledger> {
    match WhatAmI(env, t)
    case Normal => Some(l.(utxo := l.utxo - Keys(t.inputs) + OutMap(t.hash, t.outputs)))
    case CrossTx => Some(l)
    case Original => Some(l.(originals := l.originals[t.origTxHash := t]))
    case ResponseIn => Some(l.(utxo := l.utxo - Keys(t.inputs)))
    case ResponseOut =>
      if |t.inputs| == |t.outputs|
      then Some(l.(utxo := l.utxo + ResponseMap(t.inputs, t.outputs)))
      else None
    case Final =>
      Some(Ledger(l.utxo - Keys(t.inputs) + OutMap(t.origTxHash, t.outputs),
                  l.originals - {t.origTxHash}))
    case Unknown => None
  }

  function ForceAll(env: Env, l: Ledger, txs: seq<Transaction>): Option<Ledger> {
    if txs == [] then Some(l)
    else
      match ForceAll(env, l, txs[..|txs| - 1])
      case None => None
      case Some(l') => Force(env, l', txs[|txs| - 1])
  }

  /** Wherever the checked path succeeds, the forced path reaches the very same ledger. */
  lemma {:induction false} ForceAgrees(env: Env, l: Ledger, txs: seq<Transaction>, signed: bool)
    requires CommitAll(env, l, txs, signed).Some?
    ensures ForceAll(env, l, txs) == CommitAll(env, l, txs, signed)
  {
    if txs != [] {
      ForceAgrees(env, l, txs[..|txs| - 1], signed);
    }
  }

  lemma CommitNothing(env: Env, l: Ledger, signed: bool)
    ensures CommitAll(env, l, [], signed) == Some(l)
  {
  }

  lemma CommitSnoc(env: Env, l: Ledger, txs: seq<Transaction>, t: Transaction, signed: bool)
    ensures CommitAll(env, l, txs + [t], signed) ==
      match CommitAll(env, l, txs, signed)
      case None => None
      case Some(l') => Commit(env, l', t, signed)
  {
    assert (txs + [t])[..|txs|] == txs;
  }

  lemma {:induction false} CommitAppend(env: Env, l: Ledger, a: seq<Transaction>, b: seq<Transaction>, signed: bool)
    requires CommitAll(env, l, a, signed).Some?
    ensures CommitAll(env, l, a + b, signed) == CommitAll(env, CommitAll(env, l, a, signed).value, b, signed)
  {
    hide Commit;
    if b == [] {
      assert a + b == a;
    } else {
      var j := |b| - 1;
      CommitAppend(env, l, a, b[..j], signed);
      assert a + b == (a + b[..j]) + [b[j]];
      CommitSnoc(env, l, a + b[..j], b[j], signed);
    }
  }

  /** Outputs always sit under their own nonce, whatever is committed. */
  lemma {:induction false} CommitKeepsNonces(env: Env, l: Ledger, txs: seq<Transaction>, signed: bool)
    requires NoncesMatch(l.utxo) && CommitAll(env, l, txs, signed).Some?
    ensures NoncesMatch(CommitAll(env, l, txs, signed).value.utxo)
  {
    hide Commit, NoncesMatch;
    if txs != [] {
      var front := txs[..|txs| - 1];
      CommitKeepsNonces(env, l, front, signed);
      OneKeepsNonces(env, CommitAll(env, l, front, signed).value, txs[|txs| - 1], signed);
    }
  }

  lemma OneKeepsNonces(env: Env, l: Ledger, t: Transaction, signed: bool)
    requires NoncesMatch(l.utxo) && Commit(env, l, t, signed).Some?
    ensures NoncesMatch(Commit(env, l, t, signed).value.utxo)
  {
    hide WhatAmI, Spendable, WrapSum, OutputsWithin;
  }
}
