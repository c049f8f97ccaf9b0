/**
  What the leader does with a pool batch: it speculates over the ledger plus three
  scratch sets and emits the list the committee will commit.
  A missing result stands for a fatal error.
 */
module Proposal {
  import opened Sequences
  import opened LedgerTypes
  import opened Ledger

  /** Outputs spent and added by the batch so far, and the originals it introduced. */
  datatype Scratch = Scratch(spent: Utxo, added: Utxo, originals: map<Hash, Transaction>)

  const EMPTY_SCRATCH := Scratch(map[], map[], map[])

  datatype Step = Step(scratch: Scratch, emitted: seq<Transaction>)

  /** What the leader can look up: its UTXO set first, then the outputs the batch added. */
  function Known(l: Ledger, s: Scratch): Utxo {
    s.added + l.utxo
  }

  /** The ledger the batch has reached so far, as the leader sees it. */
  function View(l: Ledger, s: Scratch): Utxo {
    Known(l, s) - s.spent.Keys
  }

  /** An input is found, not spent by the batch, and signed over transaction `id`. */
  predicate ValidInput(env: Env, l: Ledger, s: Scratch, i: InTx, id: Hash) {
    && Key(i) !in s.spent
    && Key(i) in Known(l, s)
    && env.verify(Known(l, s)[Key(i)].pubKey, i, id)
  }

  predicate AllMine(env: Env, t: Transaction) {
    forall i | i in t.inputs :: env.closest(i.txHash) == env.self
  }

  /** Inputs the UTXO set does not have leave the added set one by one, so none may repeat. */
  predicate DistinctOutside(u: Utxo, ins: seq<InTx>) {
    forall a, b | 0 <= a < b < |ins| && Key(ins[a]) !in u :: Key(ins[a]) != Key(ins[b])
  }

  lemma ValidKeys(env: Env, l: Ledger, s: Scratch, ins: seq<InTx>, id: Hash)
    requires forall i | i in ins :: ValidInput(env, l, s, i, id)
    ensures Keys(ins) <= Known(l, s).Keys && Keys(ins) !! s.spent.Keys
  {
  }

  function ProposeNormal(env: Env, l: Ledger, s: Scratch, t: Transaction): Option<Step> {
    if forall i | i in t.inputs :: ValidInput(env, l, s, i, Id(t)) then
      ValidKeys(env, l, s, t.inputs, Id(t));
      if && WrapSum(t.outputs) == WrapSum(Owed(Known(l, s), t.inputs))
         && DistinctOutside(l.utxo, t.inputs)
      then
        Some(Step(
          Scratch(
            s.spent + Spent(Known(l, s), t.inputs),
            s.added - (Keys(t.inputs) - l.utxo.Keys) + OutMap(t.hash, t.outputs),
            s.originals),
          [t]))
      else None
    else None
  }

  /** The inputs of `t` that belong to committee `c`, in order. */
  function InputsOf(env: Env, ins: seq<InTx>, c: Hash): seq<InTx> {
    if ins == [] then []
    else
      var j := |ins| - 1;
      InputsOf(env, ins[..j], c) + if env.closest(ins[j].txHash) == c then [ins[j]] else []
  }

  function Foreign(env: Env, t: Transaction): set<Hash> {
    set i | i in t.inputs && env.closest(i.txHash) != env.self :: env.closest(i.txHash)
  }

  /** `order` lists the foreign committees, each once: one order the input map can be walked in. */
  predicate IsOrder(env: Env, t: Transaction, order: seq<Hash>) {
    && (forall a, b | 0 <= a < b < |order| :: order[a] != order[b])
    && (set c | c in order) == Foreign(env, t)
  }

  /** One cross-transaction per foreign committee, carrying that committee's inputs. */
  function CrossTxs(env: Env, t: Transaction, order: seq<Hash>): (txs: seq<Transaction>)
    ensures |txs| == |order|
  {
    seq(|order|, j requires 0 <= j < |order| =>
      Transaction(NIL, t.hash, InputsOf(env, t.inputs, order[j]), [], None))
  }

  function ProposeUnknown(env: Env, l: Ledger, s: Scratch, t: Transaction, order: seq<Hash>): Option<Step> {
    if forall i | i in t.inputs && env.closest(i.txHash) == env.self :: ValidInput(env, l, s, i, Id(t)) then
      var original := t.(hash := NIL, origTxHash := t.hash);
      Some(Step(s.(originals := s.originals[t.hash := original]), [original] + CrossTxs(env, t, order)))
    else None
  }

  function ProposeIncoming(env: Env, l: Ledger, s: Scratch, t: Transaction): Option<Step> {
    if && t.outputs == [] && t.inputs != []
       && env.closest(t.inputs[0].txHash) == env.self
       && (forall i | i in t.inputs :: ValidInput(env, l, s, i, t.origTxHash))
       && Keys(t.inputs) <= l.utxo.Keys
    then
      var outs := Owed(l.utxo, t.inputs);
      Some(Step(
        s.(spent := s.spent + Spent(l.utxo, t.inputs)),
        [t.(outputs := outs, hash := env.bodyHash(t.inputs, outs, t.origTxHash))]))
    else None
  }

  function Pending(l: Ledger, s: Scratch): map<Hash, Transaction> {
    s.originals + l.originals
  }

  predicate Covered(l: Ledger, s: Scratch, ins: seq<InTx>) {
    forall i | i in ins :: Key(i) in Known(l, s) && Key(i) !in s.spent
  }

  function FinalOf(env: Env, o: Transaction): Transaction {
    Transaction(env.bodyHash(o.inputs, o.outputs, o.origTxHash), o.origTxHash, o.inputs, o.outputs, None)
  }

  /** An answered original `o`: once all its inputs are known, the final transaction spends them. */
  function Complete(env: Env, l: Ledger, s: Scratch, o: Transaction): Option<Step> {
    if !Covered(l, s, o.inputs) then Some(Step(s, []))
    else if !Distinct(o.inputs) then None
    else
      assert Keys(o.inputs) <= Known(l, s).Keys;
      Some(Step(
        s.(spent := s.spent + Spent(Known(l, s), o.inputs),
           added := s.added + OutMap(o.origTxHash, o.outputs)),
        [FinalOf(env, o)]))
  }

  /** A response adds its outputs; the one that covers the original also emits the final transaction. */
  function ProposeResponse(env: Env, l: Ledger, s: Scratch, t: Transaction): Option<Step> {
    if && t.proof.Some? && env.proofOk(t)
       && |t.inputs| == |t.outputs|
       && t.origTxHash in Pending(l, s)
       && Pending(l, s)[t.origTxHash].origTxHash == t.origTxHash
    then
      var s1 := s.(added := s.added + ResponseMap(t.inputs, t.outputs));
      match Complete(env, l, s1, Pending(l, s)[t.origTxHash])
      case None => None
      case Some(st) => Some(Step(st.scratch, [t] + st.emitted))
    else None
  }

  /** One pool transaction; `order` is only looked at when it has foreign inputs. */
  function Propose(env: Env, l: Ledger, s: Scratch, t: Transaction, order: seq<Hash>): Option<Step> {
    if t.origTxHash == NIL && t.hash != NIL then
      if AllMine(env, t) then ProposeNormal(env, l, s, t) else ProposeUnknown(env, l, s, t, order)
    else if t.origTxHash != NIL && t.hash == NIL then ProposeIncoming(env, l, s, t)
    else if t.origTxHash != NIL && t.hash != NIL then ProposeResponse(env, l, s, t)
    else None
  }

  /** A batch with, per transaction, the order its foreign committees were walked in. */
  datatype Entry = Entry(tx: Transaction, order: seq<Hash>)

  predicate OrderOk(env: Env, e: Entry) {
    e.tx.origTxHash == NIL && e.tx.hash != NIL && !AllMine(env, e.tx) ==> IsOrder(env, e.tx, e.order)
  }

  /** The whole batch, in pool order. */
  function ProposeAll(env: Env, l: Ledger, batch: seq<Entry>): Option<Step> {
    if batch == [] then Some(Step(EMPTY_SCRATCH, []))
    else
      var e := batch[|batch| - 1];
      match ProposeAll(env, l, batch[..|batch| - 1])
      case None => None
      case Some(st) =>
        match Propose(env, l, st.scratch, e.tx, e.order)
        case None => None
        case Some(st') => Some(Step(st'.scratch, st.emitted + st'.emitted))
  }
}
