/** What the ledger can rely on when its check of a response's proof is the program's. */
module ResponseProofs {
  import opened Sequences
  import opened Bytes
  import opened LedgerTypes
  import opened Ledger
  import opened Proposal
  import opened Conservation
  import PoC = ProofsOfConsensus

  /** The strings that the ledger's hashes and proof tokens stand for. */
  datatype Reading = Reading(bytes: Hash -> Bytes, proof: nat -> PoC.Poc)

  function View(r: Reading, t: Transaction): PoC.Tx {
    PoC.Tx(r.bytes(t.hash), r.bytes(t.origTxHash),
           seq(|t.inputs|, i requires 0 <= i < |t.inputs| => r.bytes(t.inputs[i].txHash)), t.outputs)
  }

  /** The node's check of responses is the check of the proof of consensus; only NIL reads as zeros. */
  ghost predicate ChecksProofs(env: Env, s: PoC.Setting, r: Reading) {
    && s.Proper()
    && (forall h :: r.bytes(h) == PoC.ZeroHash() <==> h == NIL)
    && forall t :: env.proofOk(t) <==> t.proof.Some? && PoC.Accepted(s, View(r, t), Some(r.proof(t.proof.value)))
  }

  /** The same outpoints, other values and owners. */
  predicate SameNonces(a: seq<OutTx>, b: seq<OutTx>) {
    |a| == |b| && forall i | 0 <= i < |a| :: a[i].n == b[i].n
  }

  lemma ProofStillOk(env: Env, s: PoC.Setting, r: Reading, t: Transaction, outs: seq<OutTx>)
    requires ChecksProofs(env, s, r) && t.origTxHash != NIL
    ensures env.proofOk(t.(outputs := outs)) <==> env.proofOk(t)
  {
    hide PoC.Accepted;
    var v := t.(outputs := outs);
    if t.proof.Some? {
      PoC.OutputsAreNotChecked(s, View(r, t), Some(r.proof(t.proof.value)), outs, r.bytes(t.hash));
      assert View(r, v) == View(r, t).(outputs := outs, hash := r.bytes(t.hash));
    }
  }

  lemma {:induction false} SameOutpoints(ins: seq<InTx>, a: seq<OutTx>, b: seq<OutTx>)
    requires |ins| == |a| && SameNonces(a, b)
    ensures ResponseMap(ins, a).Keys == ResponseMap(ins, b).Keys
  {
    if a != [] {
      var j := |a| - 1;
      SameOutpoints(ins[..j], a[..j], b[..j]);
    }
  }

  /**
    A response whose outputs were altered on the way, values and owners alike, passes the leader
    exactly when the unaltered one does.
   */
  lemma AlteredResponsePasses(env: Env, s: PoC.Setting, r: Reading, l: Ledger, sc: Scratch, t: Transaction, outs: seq<OutTx>)
    requires ChecksProofs(env, s, r) && t.origTxHash != NIL && t.hash != NIL
    requires |t.inputs| == |t.outputs| && SameNonces(t.outputs, outs)
    ensures ProposeResponse(env, l, sc, t.(outputs := outs)).Some? <==> ProposeResponse(env, l, sc, t).Some?
  {
    ProofStillOk(env, s, r, t, outs);
    SameOutpoints(t.inputs, t.outputs, outs);
    hide PoC.Accepted, ResponseMap, ChecksProofs, OutMap, Spent, FinalOf;
    var v := t.(outputs := outs);
    if t.origTxHash in Pending(l, sc) {
      var o := Pending(l, sc)[t.origTxHash];
      var s1 := sc.(added := sc.added + ResponseMap(t.inputs, t.outputs));
      var s2 := sc.(added := sc.added + ResponseMap(t.inputs, outs));
      assert Known(l, s1).Keys == Known(l, s2).Keys;
      assert Covered(l, s1, o.inputs) <==> Covered(l, s2, o.inputs);
    }
  }

  /**
    And the replicas gain what the altered outputs say: the same value exactly when the sums agree. So
    conservation rests on responses arriving as they were sent.
   */
  lemma AlteredResponseValue(env: Env, c: Ledger, t: Transaction, outs: seq<OutTx>)
    requires WhatAmI(env, t) == ResponseOut && PaysItsInputs(t) && SameNonces(t.outputs, outs)
    requires ResponseMap(t.inputs, t.outputs).Keys !! c.utxo.Keys
    ensures var v := t.(outputs := outs);
      && Commit(env, c, t, true).Some? && Commit(env, c, v, true).Some?
      && Total(Commit(env, c, v, true).value.utxo) + SumOut(t.outputs)
         == Total(Commit(env, c, t, true).value.utxo) + SumOut(outs)
  {
    SameOutpoints(t.inputs, t.outputs, outs);
    hide Total, SumOut, ResponseMap;
    ResponseOutValue(env, c, t);
    ResponseOutValue(env, c, t.(outputs := outs));
  }
}
