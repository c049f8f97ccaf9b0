/**
  What a leader lets through, told by the outputs there are and their owners' signatures, and what it
  asks of other committees.
 */
module LedgerRules {
  import opened Sequences
  import opened LedgerTypes
  import opened Ledger
  import opened Proposal

  /** Input `i` names an output of the ledger, or else of the batch, not spent by the batch; its owner signed `id`. */
  predicate OwnerSigned(env: Env, l: Ledger, s: Scratch, i: InTx, id: Hash) {
    && Key(i) !in s.spent
    && (if Key(i) in l.utxo then env.verify(l.utxo[Key(i)].pubKey, i, id)
        else Key(i) in s.added && env.verify(s.added[Key(i)].pubKey, i, id))
  }

  lemma SignedAreKnown(env: Env, l: Ledger, s: Scratch, ins: seq<InTx>, id: Hash)
    ensures (forall i | i in ins :: OwnerSigned(env, l, s, i, id)) <==> (forall i | i in ins :: ValidInput(env, l, s, i, id))
    ensures (forall i | i in ins :: OwnerSigned(env, l, s, i, id)) ==> Keys(ins) <= (s.added + l.utxo).Keys
  {
    assert forall i | i in ins :: OwnerSigned(env, l, s, i, id) <==> ValidInput(env, l, s, i, id);
  }

  /** What the inputs are worth, in 64 bits, is what the outputs are. */
  predicate SumsAgree(known: Utxo, t: Transaction) {
    Keys(t.inputs) <= known.Keys && SumOut(Owed(known, t.inputs)) % TWO_64 == SumOut(t.outputs) % TWO_64
  }

  /** A transaction with all its inputs here is accepted exactly when it is signed, spends once and adds up. */
  lemma NormalAcceptedIff(env: Env, l: Ledger, s: Scratch, t: Transaction, order: seq<Hash>)
    requires t.origTxHash == NIL && t.hash != NIL && forall i | i in t.inputs :: env.closest(i.txHash) == env.self
    ensures Propose(env, l, s, t, order).Some? <==>
      && (forall i | i in t.inputs :: OwnerSigned(env, l, s, i, t.hash))
      && SumsAgree(s.added + l.utxo, t)
      && (forall a, b | 0 <= a < b < |t.inputs| && Key(t.inputs[a]) !in l.utxo :: Key(t.inputs[a]) != Key(t.inputs[b]))
    ensures Propose(env, l, s, t, order).Some? ==> Propose(env, l, s, t, order).value.emitted == [t]
  {
    SignedAreKnown(env, l, s, t.inputs, t.hash);
    hide OwnerSigned, ValidInput, Owed, SumOut;
  }

  /** A request is answered exactly when it is addressed here and its inputs are the ledger's own, unspent and signed. */
  lemma RequestAnsweredIff(env: Env, l: Ledger, s: Scratch, t: Transaction, order: seq<Hash>)
    requires t.origTxHash != NIL && t.hash == NIL
    ensures Propose(env, l, s, t, order).Some? <==>
      && t.outputs == [] && t.inputs != [] && env.closest(t.inputs[0].txHash) == env.self
      && forall i | i in t.inputs ::
           Key(i) in l.utxo && Key(i) !in s.spent && env.verify(l.utxo[Key(i)].pubKey, i, t.origTxHash)
    ensures Propose(env, l, s, t, order).Some? ==>
      var r := Propose(env, l, s, t, order).value.emitted;
      && |r| == 1 && r[0].inputs == t.inputs && r[0].origTxHash == t.origTxHash
      && |r[0].outputs| == |t.inputs|
      && (forall j | 0 <= j < |t.inputs| :: Key(t.inputs[j]) in l.utxo && r[0].outputs[j] == l.utxo[Key(t.inputs[j])])
      && r[0].hash == env.bodyHash(t.inputs, r[0].outputs, t.origTxHash)
  {
    forall j | 0 <= j < |t.inputs| ensures t.inputs[j] in t.inputs && Key(t.inputs[j]) in Keys(t.inputs) {}
  }

  /** A transaction with foreign inputs is split exactly when its own inputs are signed and unspent. */
  lemma SplitAcceptedIff(env: Env, l: Ledger, s: Scratch, t: Transaction, order: seq<Hash>)
    requires t.origTxHash == NIL && t.hash != NIL && exists i :: i in t.inputs && env.closest(i.txHash) != env.self
    ensures Propose(env, l, s, t, order).Some? <==>
      forall i | i in t.inputs && env.closest(i.txHash) == env.self :: OwnerSigned(env, l, s, i, t.hash)
  {
    assert forall i | i in t.inputs :: OwnerSigned(env, l, s, i, t.hash) <==> ValidInput(env, l, s, i, t.hash);
  }

  /** `part` is what `ins` holds for committee c, in order: the inputs at the positions `at`. */
  ghost predicate IsPartOf(env: Env, ins: seq<InTx>, c: Hash, part: seq<InTx>, at: seq<nat>) {
    && |at| == |part|
    && (forall a, b | 0 <= a < b < |at| :: at[a] < at[b])
    && (forall a | 0 <= a < |at| :: at[a] < |ins| && part[a] == ins[at[a]])
    && (forall p: nat | p < |ins| :: p in at <==> env.closest(ins[p].txHash) == c)
  }

  /** A request for committee c, under the transaction's own id: it names exactly the inputs of that committee. */
  ghost predicate IsRequest(env: Env, t: Transaction, c: Hash, x: Transaction) {
    && x.hash == NIL && x.origTxHash == t.hash && x.outputs == [] && x.proof.None?
    && exists at :: IsPartOf(env, t.inputs, c, x.inputs, at)
  }

  lemma PartGrows(env: Env, ins: seq<InTx>, c: Hash, part: seq<InTx>, at: seq<nat>)
    requires ins != [] && IsPartOf(env, ins[..|ins| - 1], c, part, at)
    ensures var j := |ins| - 1;
      if env.closest(ins[j].txHash) == c then IsPartOf(env, ins, c, part + [ins[j]], at + [j]) else IsPartOf(env, ins, c, part, at)
  {
    var j := |ins| - 1;
    var more := if env.closest(ins[j].txHash) == c then at + [j] else at;
    assert forall a | 0 <= a < |at| :: at[a] < j && more[a] == at[a];
    forall p: nat | p < |ins| ensures p in more <==> env.closest(ins[p].txHash) == c {
      assert p in more <==> p in at || (p == j && env.closest(ins[j].txHash) == c);
      if p < j {
        assert ins[..j][p] == ins[p];
      } else {
        assert p !in at;
      }
    }
  }

  lemma {:induction false} InputsOfAre(env: Env, ins: seq<InTx>, c: Hash) returns (at: seq<nat>)
    ensures IsPartOf(env, ins, c, InputsOf(env, ins, c), at)
  {
    if ins == [] {
      at := [];
    } else {
      hide IsPartOf;
      var j := |ins| - 1;
      at := InputsOfAre(env, ins[..j], c);
      PartGrows(env, ins, c, InputsOf(env, ins[..j], c), at);
      assert InputsOf(env, ins[..j], c) + [] == InputsOf(env, ins[..j], c);
      if env.closest(ins[j].txHash) == c {
        at := at + [j];
      }
    }
  }

  lemma {:induction false} InputsOfCount(env: Env, ins: seq<InTx>, c: Hash, i: InTx)
    ensures multiset(InputsOf(env, ins, c))[i] == if env.closest(i.txHash) == c then multiset(ins)[i] else 0
  {
    if ins != [] {
      var j := |ins| - 1;
      InputsOfCount(env, ins[..j], c, i);
      assert ins == ins[..j] + [ins[j]];
    }
  }

  /** All inputs the transactions name, one after the other. */
  function AllInputs(txs: seq<Transaction>): seq<InTx> {
    if txs == [] then [] else AllInputs(txs[..|txs| - 1]) + txs[|txs| - 1].inputs
  }

  lemma {:induction false} RequestedCount(env: Env, t: Transaction, order: seq<Hash>, i: InTx)
    requires forall a, b | 0 <= a < b < |order| :: order[a] != order[b]
    ensures multiset(AllInputs(CrossTxs(env, t, order)))[i] ==
      if env.closest(i.txHash) in order then multiset(t.inputs)[i] else 0
  {
    if order != [] {
      var j := |order| - 1;
      RequestedCount(env, t, order[..j], i);
      InputsOfCount(env, t.inputs, order[j], i);
      assert CrossTxs(env, t, order)[..j] == CrossTxs(env, t, order[..j]);
      assert order == order[..j] + [order[j]];
    }
  }

  /** Every input goes one way, as often as it is there. */
  lemma InputsGoOneWay(env: Env, t: Transaction, order: seq<Hash>)
    requires IsOrder(env, t, order)
    ensures multiset(AllInputs(CrossTxs(env, t, order)) + InputsOf(env, t.inputs, env.self)) == multiset(t.inputs)
  {
    hide InputsOf, AllInputs;
    var requested, own := AllInputs(CrossTxs(env, t, order)), InputsOf(env, t.inputs, env.self);
    hide CrossTxs;
    forall i ensures multiset(requested + own)[i] == multiset(t.inputs)[i] {
      RequestedCount(env, t, order, i);
      InputsOfCount(env, t.inputs, env.self, i);
      OrderIs(env, t, order, env.closest(i.txHash));
      assert multiset(t.inputs)[i] > 0 ==> i in t.inputs;
    }
    assert multiset(requested + own) == multiset(t.inputs);
  }

  lemma OrderIs(env: Env, t: Transaction, order: seq<Hash>, c: Hash)
    requires IsOrder(env, t, order)
    ensures c in order <==> c != env.self && exists i :: i in t.inputs && env.closest(i.txHash) == c
  {
    var listed := set d | d in order;
    assert listed == Foreign(env, t) && (c in order <==> c in listed);
    if c in listed {
      var i :| i in t.inputs && env.closest(i.txHash) != env.self && c == env.closest(i.txHash);
    }
  }

  lemma RequestIs(env: Env, t: Transaction, order: seq<Hash>, j: nat)
    requires j < |order|
    ensures IsRequest(env, t, order[j], CrossTxs(env, t, order)[j])
  {
    var at := InputsOfAre(env, t.inputs, order[j]);
    assert IsPartOf(env, t.inputs, order[j], CrossTxs(env, t, order)[j].inputs, at);
  }

  /**
    What a transaction with foreign inputs is split into: the original, waiting under its id, and one
    request for each foreign committee and no other. Every input goes one way, as often as it is there.
   */
  lemma SplitIsComplete(env: Env, l: Ledger, s: Scratch, t: Transaction, order: seq<Hash>)
    requires t.origTxHash == NIL && t.hash != NIL && !AllMine(env, t) && IsOrder(env, t, order)
    requires Propose(env, l, s, t, order).Some?
    ensures var txs := Propose(env, l, s, t, order).value.emitted;
      && |txs| == |order| + 1
      && txs[0] == Transaction(NIL, t.hash, t.inputs, t.outputs, t.proof)
      && (forall j | 0 <= j < |order| :: IsRequest(env, t, order[j], txs[j + 1]))
      && (forall c :: c in order <==> c != env.self && exists i :: i in t.inputs && env.closest(i.txHash) == c)
      && NoRepeats(order)
      && multiset(AllInputs(txs[1..]) + InputsOf(env, t.inputs, env.self)) == multiset(t.inputs)
  {
    hide IsRequest, CrossTxs, InputsOf, AllInputs, ValidInput, IsOrder;
    var txs, requests := Propose(env, l, s, t, order).value.emitted, CrossTxs(env, t, order);
    assert txs == [txs[0]] + requests;
    assert txs[1..] == requests && forall j | 0 <= j < |order| :: txs[j + 1] == requests[j];
    InputsGoOneWay(env, t, order);
    OrderOnce(env, t, order);
    forall j | 0 <= j < |order| ensures IsRequest(env, t, order[j], txs[j + 1]) {
      RequestIs(env, t, order, j);
    }
    forall c ensures c in order <==> c != env.self && exists i :: i in t.inputs && env.closest(i.txHash) == c {
      OrderIs(env, t, order, c);
    }
  }

  lemma OrderOnce(env: Env, t: Transaction, order: seq<Hash>)
    requires IsOrder(env, t, order)
    ensures NoRepeats(order)
  {
  }

  /** The owner of `out`, at outpoint `k`, signed it away in a transaction of the batch. */
  ghost predicate SignedAway(env: Env, batch: seq<Entry>, k: Outpoint, out: OutTx) {
    exists e, i :: e in batch && i in e.tx.inputs && Key(i) == k && env.verify(out.pubKey, i, Id(e.tx))
  }

  /** An original that waited in the ledger, or came with the batch, names it: completing one asks for no signatures again. */
  ghost predicate OfOriginal(env: Env, l: Ledger, batch: seq<Entry>, k: Outpoint) {
    || (exists h :: h in l.originals && k in Keys(l.originals[h].inputs))
    || (exists e :: e in batch && IsSplit(env, e.tx) && k in Keys(e.tx.inputs))
  }

  predicate IsSplit(env: Env, t: Transaction) {
    t.origTxHash == NIL && t.hash != NIL && !AllMine(env, t)
  }

  ghost predicate SpendsRightly(env: Env, l: Ledger, s: Scratch, batch: seq<Entry>) {
    && (forall k | k in s.spent :: SignedAway(env, batch, k, s.spent[k]) || OfOriginal(env, l, batch, k))
    && (forall h | h in s.originals :: exists e :: e in batch && IsSplit(env, e.tx) && s.originals[h].inputs == e.tx.inputs)
  }

  lemma RightlyStill(env: Env, l: Ledger, s: Scratch, batch: seq<Entry>, e: Entry)
    requires SpendsRightly(env, l, s, batch)
    ensures SpendsRightly(env, l, s, batch + [e])
  {
    forall k | k in s.spent ensures SignedAway(env, batch + [e], k, s.spent[k]) || OfOriginal(env, l, batch + [e], k) {
      if SignedAway(env, batch, k, s.spent[k]) {
        var d, i :| d in batch && i in d.tx.inputs && Key(i) == k && env.verify(s.spent[k].pubKey, i, Id(d.tx));
        assert d in batch + [e];
      } else if d :| d in batch && IsSplit(env, d.tx) && k in Keys(d.tx.inputs) {
        assert d in batch + [e];
      }
    }
    forall h | h in s.originals
      ensures exists d :: d in batch + [e] && IsSplit(env, d.tx) && s.originals[h].inputs == d.tx.inputs
    {
      var d :| d in batch && IsSplit(env, d.tx) && s.originals[h].inputs == d.tx.inputs;
      assert d in batch + [e];
    }
  }

  /** A step spends outputs whose owners signed its transaction, or the inputs of a waiting original. */
  lemma StepSpends(env: Env, l: Ledger, s: Scratch, e: Entry)
    requires Propose(env, l, s, e.tx, e.order).Some?
    ensures var s' := Propose(env, l, s, e.tx, e.order).value.scratch;
      && (forall k | k in s'.spent ::
            || (k in s.spent && s'.spent[k] == s.spent[k])
            || (exists i :: i in e.tx.inputs && Key(i) == k && env.verify(s'.spent[k].pubKey, i, Id(e.tx)))
            || (exists h :: h in Pending(l, s) && k in Keys(Pending(l, s)[h].inputs)))
      && (forall h | h in s'.originals ::
            || (h in s.originals && s'.originals[h] == s.originals[h])
            || (IsSplit(env, e.tx) && s'.originals[h].inputs == e.tx.inputs))
  {
    hide OutMap, ResponseMap, Owed, WrapSum, CrossTxs, FinalOf;
  }

  /**
    No output leaves without its owner: everything a batch spends was signed away in one of its
    transactions by the key it was paid to, or belongs to an original that its responses completed.
   */
  lemma {:induction false} SpentIsSigned(env: Env, l: Ledger, batch: seq<Entry>)
    requires ProposeAll(env, l, batch).Some?
    ensures SpendsRightly(env, l, ProposeAll(env, l, batch).value.scratch, batch)
  {
    if batch != [] {
      hide Propose, SpendsRightly;
      var front, e := batch[..|batch| - 1], batch[|batch| - 1];
      SpentIsSigned(env, l, front);
      var s := ProposeAll(env, l, front).value.scratch;
      RightlyStill(env, l, s, front, e);
      assert batch == front + [e];
      StepSpends(env, l, s, e);
      RightlyNext(env, l, s, batch, e);
    } else {
      NothingSpent(env, l);
    }
  }

  lemma NothingSpent(env: Env, l: Ledger)
    ensures SpendsRightly(env, l, EMPTY_SCRATCH, [])
  {
  }

  lemma RightlyNext(env: Env, l: Ledger, s: Scratch, batch: seq<Entry>, e: Entry)
    requires SpendsRightly(env, l, s, batch) && e in batch && Propose(env, l, s, e.tx, e.order).Some?
    ensures SpendsRightly(env, l, Propose(env, l, s, e.tx, e.order).value.scratch, batch)
  {
    StepSpends(env, l, s, e);
    var s' := Propose(env, l, s, e.tx, e.order).value.scratch;
    hide Propose, Keys;
    forall k | k in s'.spent ensures SignedAway(env, batch, k, s'.spent[k]) || OfOriginal(env, l, batch, k) {
      if k in s.spent && s'.spent[k] == s.spent[k] {
        assert SignedAway(env, batch, k, s.spent[k]) || OfOriginal(env, l, batch, k);
      } else if !(exists i :: i in e.tx.inputs && Key(i) == k && env.verify(s'.spent[k].pubKey, i, Id(e.tx))) {
        var h :| h in Pending(l, s) && k in Keys(Pending(l, s)[h].inputs);
        if h in l.originals {
          assert Pending(l, s)[h] == l.originals[h];
        } else {
          var d :| d in batch && IsSplit(env, d.tx) && s.originals[h].inputs == d.tx.inputs;
        }
      }
    }
  }

  /** Replicas take a normal transaction exactly when its inputs are there, none twice, and, in a signed block, it adds up. */
  lemma NormalCommittedIff(env: Env, l: Ledger, t: Transaction, signed: bool)
    requires t.hash != NIL && t.origTxHash == NIL
    ensures Commit(env, l, t, signed).Some? <==>
      && (forall i | i in t.inputs :: Key(i) in l.utxo)
      && (forall a, b | 0 <= a < b < |t.inputs| :: Key(t.inputs[a]) != Key(t.inputs[b]))
      && (signed ==> SumsAgree(l.utxo, t))
  {
    hide Owed, SumOut;
    assert Keys(t.inputs) <= l.utxo.Keys <==> forall i | i in t.inputs :: Key(i) in l.utxo;
  }

  /** And a final one exactly when an original waits under its id that has every one of its outputs; the original then waits no more. */
  lemma FinalCommittedIff(env: Env, l: Ledger, t: Transaction, signed: bool)
    requires t.hash != NIL && t.origTxHash != NIL && t.proof.None? && env.closest(t.origTxHash) == env.self
    ensures Commit(env, l, t, signed).Some? <==>
      && t.origTxHash in l.originals && l.originals[t.origTxHash].origTxHash == t.origTxHash
      && forall out | out in t.outputs :: out in l.originals[t.origTxHash].outputs
    ensures Commit(env, l, t, signed).Some? ==>
      forall h :: h in Commit(env, l, t, signed).value.originals <==> h in l.originals && h != t.origTxHash
  {
    hide OutMap;
  }
}
