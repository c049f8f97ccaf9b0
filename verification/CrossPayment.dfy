/** A payment from several committees, from its split at one leader to its completion there. */
module CrossPayments {
  import opened Sequences
  import opened LedgerTypes
  import opened Ledger
  import opened Proposal
  import opened Simulation
  import opened Conservation
  import opened LedgerRules

  /** With response `t` in, every input of `o` is there and not spent. */
  predicate AllThere(l: Ledger, s: Scratch, t: Transaction, o: Transaction)
    requires |t.inputs| == |t.outputs|
  {
    forall i | i in o.inputs ::
      Key(i) !in s.spent && (Key(i) in l.utxo || Key(i) in s.added || Key(i) in ResponseMap(t.inputs, t.outputs))
  }

  /**
    A response is accepted exactly when its proof is good, it has one output for each input and an
    original waits under its id, which, if it can be completed now, names no input twice. It is followed
    by the final transaction exactly when the original can be completed.
   */
  lemma ResponseAcceptedIff(env: Env, l: Ledger, s: Scratch, t: Transaction, order: seq<Hash>)
    requires t.origTxHash != NIL && t.hash != NIL
    ensures var id := t.origTxHash;
      Propose(env, l, s, t, order).Some? <==>
        && t.proof.Some? && env.proofOk(t) && |t.inputs| == |t.outputs|
        && id in s.originals + l.originals && (s.originals + l.originals)[id].origTxHash == id
        && var o := (s.originals + l.originals)[id]; (AllThere(l, s, t, o) ==> Distinct(o.inputs))
    ensures Propose(env, l, s, t, order).Some? ==>
      var o := (s.originals + l.originals)[t.origTxHash];
      Propose(env, l, s, t, order).value.emitted ==
        [t] + if AllThere(l, s, t, o)
              then [Transaction(env.bodyHash(o.inputs, o.outputs, t.origTxHash), t.origTxHash, o.inputs, o.outputs, None)]
              else []
  {
    if |t.inputs| == |t.outputs| && t.origTxHash in Pending(l, s) {
      var o := Pending(l, s)[t.origTxHash];
      var s1 := s.(added := s.added + ResponseMap(t.inputs, t.outputs));
      assert AllThere(l, s, t, o) <==> Covered(l, s1, o.inputs);
    }
  }

  /** Responses for original `o` that nothing else has answered: each brings an input nobody has yet. */
  ghost predicate AreAnswers(env: Env, l: Ledger, o: Transaction, rs: seq<Transaction>) {
    && (forall r | r in rs ::
          && r.origTxHash == o.origTxHash && r.hash != NIL && r.proof.Some? && env.proofOk(r)
          && PaysItsInputs(r) && Keys(r.inputs) !! l.utxo.Keys)
    && (forall j | 0 <= j < |rs| :: rs[j].inputs != [] && Keys(rs[j].inputs) <= Keys(o.inputs))
    && (forall j, k | 0 <= j < k < |rs| :: Keys(rs[j].inputs) !! Keys(rs[k].inputs))
  }

  /** The outpoints the first responses bring. */
  function Brought(rs: seq<Transaction>): set<Outpoint> {
    if rs == [] then {} else Brought(rs[..|rs| - 1]) + Keys(rs[|rs| - 1].inputs)
  }

  lemma {:induction false} BroughtApart(rs: seq<Transaction>, ks: set<Outpoint>)
    requires forall r | r in rs :: Keys(r.inputs) !! ks
    ensures Brought(rs) !! ks
  {
    if rs != [] {
      BroughtApart(rs[..|rs| - 1], ks);
    }
  }

  function BatchOf(rs: seq<Transaction>): seq<Entry> {
    seq(|rs|, j requires 0 <= j < |rs| => Entry(rs[j], []))
  }

  /** Where a batch of answers has got to that have completed nothing yet. */
  ghost predicate Adding(rs: seq<Transaction>, st: Option<Step>) {
    && st.Some? && st.value.emitted == rs
    && st.value.scratch.spent == map[] && st.value.scratch.originals == map[]
    && st.value.scratch.added.Keys == Brought(rs)
  }

  ghost predicate Waits(l: Ledger, o: Transaction) {
    o.origTxHash != NIL && o.origTxHash in l.originals && l.originals[o.origTxHash] == o
  }

  /** All answers but the last are just added. */
  lemma {:induction false} StillWaiting(env: Env, l: Ledger, o: Transaction, rs: seq<Transaction>, missing: Outpoint)
    requires Waits(l, o) && AreAnswers(env, l, o, rs)
    requires missing in Keys(o.inputs) && missing !in l.utxo && missing !in Brought(rs)
    ensures Adding(rs, ProposeAll(env, l, BatchOf(rs)))
  {
    if rs == [] {
      assert BatchOf(rs) == [];
    } else {
      FrontAnswers(env, l, o, rs);
      hide *;
      BroughtNext(rs);
      StillWaiting(env, l, o, rs[..|rs| - 1], missing);
      AnswerAdds(env, l, o, rs, missing);
    }
  }

  lemma FrontAnswers(env: Env, l: Ledger, o: Transaction, rs: seq<Transaction>)
    requires rs != [] && AreAnswers(env, l, o, rs)
    ensures AreAnswers(env, l, o, rs[..|rs| - 1])
  {
    hide PaysItsInputs;
  }

  lemma BroughtNext(rs: seq<Transaction>)
    requires rs != []
    ensures Brought(rs) == Brought(rs[..|rs| - 1]) + Keys(rs[|rs| - 1].inputs)
  {
  }

  lemma AnswerAdds(env: Env, l: Ledger, o: Transaction, rs: seq<Transaction>, missing: Outpoint)
    requires rs != [] && Waits(l, o) && AreAnswers(env, l, o, rs)
    requires missing in Keys(o.inputs) && missing !in l.utxo && missing !in Brought(rs)
    requires Adding(rs[..|rs| - 1], ProposeAll(env, l, BatchOf(rs[..|rs| - 1])))
    ensures Adding(rs, ProposeAll(env, l, BatchOf(rs)))
  {
    hide ProposeAll, AreAnswers, Distinct, Propose, ResponseMap, BatchOf;
    var n := |rs| - 1;
    var r, s := rs[n], ProposeAll(env, l, BatchOf(rs[..n])).value.scratch;
    OneAnswer(env, l, s, o, rs, n);
    ResponseMapTotal(r.inputs, r.outputs);
    MissingOne(l, s, r, o, missing);
    ResponseAcceptedIff(env, l, s, r, []);
    AddsOnly(env, l, s, r, o);
    UnfoldBatch(env, l, rs);
    assert rs == rs[..n] + [r];
  }

  lemma MissingOne(l: Ledger, s: Scratch, t: Transaction, o: Transaction, missing: Outpoint)
    requires |t.inputs| == |t.outputs| && missing in Keys(o.inputs)
    requires missing !in l.utxo && missing !in s.added && missing !in ResponseMap(t.inputs, t.outputs)
    ensures !AllThere(l, s, t, o)
  {
  }

  lemma OneAnswer(env: Env, l: Ledger, s: Scratch, o: Transaction, rs: seq<Transaction>, n: nat)
    requires AreAnswers(env, l, o, rs) && n < |rs|
    ensures var r := rs[n];
      && r.origTxHash == o.origTxHash && r.hash != NIL && r.proof.Some? && env.proofOk(r)
      && PaysItsInputs(r) && Keys(r.inputs) !! l.utxo.Keys
  {
    assert rs[n] in rs;
  }

  lemma AddsOnly(env: Env, l: Ledger, s: Scratch, r: Transaction, o: Transaction)
    requires r.origTxHash != NIL && r.hash != NIL && Propose(env, l, s, r, []).Some?
    requires o == (s.originals + l.originals)[r.origTxHash] && !AllThere(l, s, r, o)
    ensures Propose(env, l, s, r, []).value ==
      Step(s.(added := s.added + ResponseMap(r.inputs, r.outputs)), [r])
  {
  }

  lemma UnfoldBatch(env: Env, l: Ledger, rs: seq<Transaction>)
    requires rs != [] && ProposeAll(env, l, BatchOf(rs[..|rs| - 1])).Some?
    ensures var st := ProposeAll(env, l, BatchOf(rs[..|rs| - 1])).value;
      ProposeAll(env, l, BatchOf(rs)) ==
        match Propose(env, l, st.scratch, rs[|rs| - 1], [])
        case None => None
        case Some(st') => Some(Step(st'.scratch, st.emitted + st'.emitted))
  {
    hide Propose, ProposeAll, BatchOf;
    var n := |rs| - 1;
    LastInBatch(rs);
    ProposeSnoc(env, l, BatchOf(rs[..n]), Entry(rs[n], []));
  }

  lemma LastInBatch(rs: seq<Transaction>)
    requires rs != []
    ensures BatchOf(rs) == BatchOf(rs[..|rs| - 1]) + [Entry(rs[|rs| - 1], [])]
  {
  }

  lemma ProposeSnoc(env: Env, l: Ledger, batch: seq<Entry>, e: Entry)
    requires ProposeAll(env, l, batch).Some?
    ensures var st := ProposeAll(env, l, batch).value;
      ProposeAll(env, l, batch + [e]) ==
        match Propose(env, l, st.scratch, e.tx, e.order)
        case None => None
        case Some(st') => Some(Step(st'.scratch, st.emitted + st'.emitted))
  {
    hide Propose;
    var more := batch + [e];
    assert more[..|more| - 1] == batch && more[|more| - 1] == e;
  }

  function FinalFor(env: Env, o: Transaction): Transaction {
    Transaction(env.bodyHash(o.inputs, o.outputs, o.origTxHash), o.origTxHash, o.inputs, o.outputs, None)
  }

  /** With the last answer in, the original is completed: its inputs are spent and its outputs paid under its id. */
  lemma AnswersComplete(env: Env, l: Ledger, o: Transaction, rs: seq<Transaction>)
    requires Waits(l, o) && AreAnswers(env, l, o, rs) && rs != []
    requires Distinct(o.inputs) && Keys(o.inputs) <= l.utxo.Keys + Brought(rs)
    ensures var st := ProposeAll(env, l, BatchOf(rs));
      && st.Some? && st.value.emitted == rs + [FinalFor(env, o)]
      && st.value.scratch.spent.Keys == Keys(o.inputs)
      && st.value.scratch.added.Keys == Brought(rs) + OutMap(o.origTxHash, o.outputs).Keys
  {
    hide ProposeAll, AreAnswers, Distinct, Propose, ResponseMap, BatchOf, Keys, OutMap;
    var n := |rs| - 1;
    var r := rs[n];
    var missing := LastMissing(env, l, o, rs);
    FrontAnswers(env, l, o, rs);
    StillWaiting(env, l, o, rs[..n], missing);
    var s := ProposeAll(env, l, BatchOf(rs[..n])).value.scratch;
    OneAnswer(env, l, s, o, rs, n);
    ResponseMapTotal(r.inputs, r.outputs);
    NowThere(l, s, r, o, rs);
    ResponseAcceptedIff(env, l, s, r, []);
    Completes(env, l, s, r, o);
    UnfoldBatch(env, l, rs);
    assert rs == rs[..n] + [r];
  }

  lemma LastMissing(env: Env, l: Ledger, o: Transaction, rs: seq<Transaction>) returns (missing: Outpoint)
    requires rs != [] && AreAnswers(env, l, o, rs)
    ensures missing in Keys(o.inputs) && missing !in l.utxo && missing !in Brought(rs[..|rs| - 1])
  {
    var n := |rs| - 1;
    missing := Key(rs[n].inputs[0]);
    assert rs[n].inputs[0] in rs[n].inputs && rs[n] in rs && missing in Keys(rs[n].inputs);
    hide Keys, PaysItsInputs;
    BroughtApart(rs[..n], Keys(rs[n].inputs));
  }

  lemma NowThere(l: Ledger, s: Scratch, t: Transaction, o: Transaction, rs: seq<Transaction>)
    requires rs != [] && t == rs[|rs| - 1] && |t.inputs| == |t.outputs| && ResponseMap(t.inputs, t.outputs).Keys == Keys(t.inputs)
    requires Keys(o.inputs) <= l.utxo.Keys + Brought(rs)
    requires s.spent == map[] && s.added.Keys == Brought(rs[..|rs| - 1])
    ensures AllThere(l, s, t, o)
  {
    hide ResponseMap;
    forall i | i in o.inputs ensures Key(i) in Keys(o.inputs) {}
  }

  lemma Completes(env: Env, l: Ledger, s: Scratch, r: Transaction, o: Transaction)
    requires r.origTxHash != NIL && r.hash != NIL && Propose(env, l, s, r, []).Some? && s.spent == map[]
    requires o == (s.originals + l.originals)[r.origTxHash] && AllThere(l, s, r, o) && o.origTxHash == r.origTxHash
    ensures var s' := Propose(env, l, s, r, []).value.scratch;
      && s'.spent.Keys == Keys(o.inputs)
      && s'.added.Keys == s.added.Keys + ResponseMap(r.inputs, r.outputs).Keys + OutMap(o.origTxHash, o.outputs).Keys
  {
    hide OutMap, ResponseMap;
    var s1 := s.(added := s.added + ResponseMap(r.inputs, r.outputs));
    assert Covered(l, s1, o.inputs);
  }

  /** In committee c the inputs of `t` that are its own are there, unspent, and signed over its id. */
  ghost predicate Payable(net: Net, c: Hash, l: Ledger, s: Scratch, t: Transaction) {
    && NoncesMatch(l.utxo)
    && forall i | i in t.inputs && net.closest(i.txHash) == c ::
         Key(i) in l.utxo && Key(i) !in s.spent && net.verify(l.utxo[Key(i)].pubKey, i, t.hash)
  }

  /** What committee c makes of a request; one it does not answer stays as it is. */
  function AnswerOf(net: Net, c: Hash, l: Ledger, s: Scratch, request: Transaction): Transaction {
    var st := Propose(EnvOf(net, c), l, s, request, []);
    if st.Some? && st.value.emitted != [] then st.value.emitted[0] else request
  }

  lemma {:induction false} PartDistinct(env: Env, ins: seq<InTx>, c: Hash)
    requires Distinct(ins)
    ensures Distinct(InputsOf(env, ins, c)) && forall i :: i in InputsOf(env, ins, c) <==> i in ins && env.closest(i.txHash) == c
  {
    if ins != [] {
      var j := |ins| - 1;
      PartDistinct(env, ins[..j], c);
      var front := InputsOf(env, ins[..j], c);
      assert ins == ins[..j] + [ins[j]];
      assert InputsOf(env, ins, c) == front + if env.closest(ins[j].txHash) == c then [ins[j]] else [];
      forall a | 0 <= a < |front| ensures Key(front[a]) != Key(ins[j]) {
        assert front[a] in front && front[a] in ins[..j];
        var b :| 0 <= b < j && ins[b] == front[a];
      }
    }
  }

  /** A request that names this committee's outputs, unspent and signed, is answered, and the answer pays its inputs. */
  lemma AnswerPays(net: Net, c: Hash, l: Ledger, s: Scratch, x: Transaction)
    requires x.origTxHash != NIL && x.hash == NIL && x.outputs == [] && x.inputs != [] && Distinct(x.inputs) && NoncesMatch(l.utxo)
    requires forall i | i in x.inputs ::
      net.closest(i.txHash) == c && Key(i) in l.utxo && Key(i) !in s.spent && net.verify(l.utxo[Key(i)].pubKey, i, x.origTxHash)
    ensures Propose(EnvOf(net, c), l, s, x, []).Some?
    ensures var r := AnswerOf(net, c, l, s, x);
      && r.inputs == x.inputs && r.origTxHash == x.origTxHash && PaysItsInputs(r)
      && r.hash == net.bodyHash(r.inputs, r.outputs, x.origTxHash)
  {
    hide Propose, Distinct;
    assert x.inputs[0] in x.inputs;
    RequestAnsweredIff(EnvOf(net, c), l, s, x, []);
  }

  /** So a request is answered by the committee it is for. */
  lemma RequestIsAnswered(net: Net, env: Env, t: Transaction, order: seq<Hash>, j: nat, l: Ledger, s: Scratch)
    requires env == EnvOf(net, env.self) && t.hash != NIL && IsOrder(env, t, order) && j < |order|
    requires Distinct(t.inputs) && Payable(net, order[j], l, s, t)
    ensures var c, x := order[j], CrossTxs(env, t, order)[j];
      && Propose(EnvOf(net, c), l, s, x, []).Some?
      && var r := AnswerOf(net, c, l, s, x);
      && r.inputs == x.inputs == InputsOf(env, t.inputs, c) && r.inputs != [] && r.origTxHash == t.hash
      && PaysItsInputs(r)
      && r.hash == net.bodyHash(r.inputs, r.outputs, t.hash)
  {
    hide InputsOf, IsOrder, Propose, Distinct, PaysItsInputs, AnswerOf, NoncesMatch;
    var c, x := order[j], CrossTxs(env, t, order)[j];
    PartDistinct(env, t.inputs, c);
    NotNobody(env, t, order, j);
    AnswerPays(net, c, l, s, x);
  }

  lemma NotNobody(env: Env, t: Transaction, order: seq<Hash>, j: nat)
    requires IsOrder(env, t, order) && j < |order|
    ensures InputsOf(env, t.inputs, order[j]) != []
  {
    OrderIs(env, t, order, order[j]);
    var i :| i in t.inputs && env.closest(i.txHash) == order[j];
    InputsOfCount(env, t.inputs, order[j], i);
  }

  /** The answers to the requests, each with the proof it came back with. */
  ghost predicate AreReturned(net: Net, order: seq<Hash>, requests: seq<Transaction>, ledgers: seq<Ledger>, scratches: seq<Scratch>, rs: seq<Transaction>) {
    && |rs| == |order| == |requests| == |ledgers| == |scratches|
    && forall j | 0 <= j < |rs| ::
         && rs[j].proof.Some? && net.proofOk(rs[j])
         && Bare(rs[j]) == Bare(AnswerOf(net, order[j], ledgers[j], scratches[j], requests[j]))
  }

  /** `r` answers for committee c: it pays exactly the inputs of `t` that belong there. */
  ghost predicate AnswersFor(env: Env, t: Transaction, c: Hash, r: Transaction) {
    && r.origTxHash == t.hash && r.hash != NIL && r.proof.Some? && env.proofOk(r) && PaysItsInputs(r) && r.inputs != []
    && (forall i :: i in r.inputs <==> i in t.inputs && env.closest(i.txHash) == c)
  }

  lemma ReturnedIs(net: Net, env: Env, t: Transaction, order: seq<Hash>, ledgers: seq<Ledger>, scratches: seq<Scratch>, rs: seq<Transaction>, j: nat)
    requires env == EnvOf(net, env.self) && t.hash != NIL && IsOrder(env, t, order) && Distinct(t.inputs)
    requires AreReturned(net, order, CrossTxs(env, t, order), ledgers, scratches, rs) && j < |order|
    requires Payable(net, order[j], ledgers[j], scratches[j], t)
    requires forall ins, outs :: net.bodyHash(ins, outs, t.hash) != NIL
    ensures AnswersFor(env, t, order[j], rs[j])
  {
    RequestIsAnswered(net, env, t, order, j, ledgers[j], scratches[j]);
    PartDistinct(env, t.inputs, order[j]);
  }

  lemma {:induction false} BroughtHas(rs: seq<Transaction>, j: nat)
    requires j < |rs|
    ensures Keys(rs[j].inputs) <= Brought(rs)
  {
    if j < |rs| - 1 {
      BroughtHas(rs[..|rs| - 1], j);
    }
  }

  /** At home the inputs of `t` from elsewhere are not there yet, and its own are. */
  predicate OwnInputsOnly(env: Env, l: Ledger, t: Transaction) {
    forall i | i in t.inputs :: Key(i) in l.utxo <==> env.closest(i.txHash) == env.self
  }

  lemma TwoAnswers(env: Env, t: Transaction, c: Hash, r: Transaction, d: Hash, r': Transaction)
    requires AnswersFor(env, t, c, r) && AnswersFor(env, t, d, r') && c != d
    ensures Keys(r.inputs) !! Keys(r'.inputs)
  {
    hide PaysItsInputs;
    forall i, i' | i in r.inputs && i' in r'.inputs ensures Key(i) != Key(i') {
      assert env.closest(i.txHash) == c && env.closest(i'.txHash) == d;
    }
  }

  lemma OneForeign(env: Env, t: Transaction, c: Hash, r: Transaction, l: Ledger)
    requires AnswersFor(env, t, c, r) && c != env.self && OwnInputsOnly(env, l, t)
    ensures Keys(r.inputs) !! l.utxo.Keys && Keys(r.inputs) <= Keys(t.inputs)
  {
    hide PaysItsInputs;
  }

  lemma AnswersAre(env: Env, t: Transaction, order: seq<Hash>, rs: seq<Transaction>, l: Ledger)
    requires IsOrder(env, t, order) && |rs| == |order| && OwnInputsOnly(env, l, t)
    requires forall j | 0 <= j < |order| :: AnswersFor(env, t, order[j], rs[j])
    ensures AreAnswers(env, l, t.(hash := NIL, origTxHash := t.hash), rs)
  {
    OrderOnce(env, t, order);
    forall j | 0 <= j < |order| ensures order[j] != env.self {
      OrderIs(env, t, order, order[j]);
    }
    hide PaysItsInputs, Keys, IsOrder, OwnInputsOnly;
    forall j | 0 <= j < |rs| ensures Keys(rs[j].inputs) !! l.utxo.Keys && Keys(rs[j].inputs) <= Keys(t.inputs) {
      OneForeign(env, t, order[j], rs[j], l);
    }
    forall j, k | 0 <= j < k < |rs| ensures Keys(rs[j].inputs) !! Keys(rs[k].inputs) {
      TwoAnswers(env, t, order[j], rs[j], order[k], rs[k]);
    }
  }

  lemma AllBrought(env: Env, t: Transaction, order: seq<Hash>, rs: seq<Transaction>, l: Ledger)
    requires IsOrder(env, t, order) && |rs| == |order| && OwnInputsOnly(env, l, t)
    requires forall j | 0 <= j < |order| :: AnswersFor(env, t, order[j], rs[j])
    ensures Keys(t.inputs) <= l.utxo.Keys + Brought(rs)
  {
    hide PaysItsInputs, IsOrder;
    forall i | i in t.inputs && Key(i) !in l.utxo ensures Key(i) in Brought(rs) {
      OrderIs(env, t, order, env.closest(i.txHash));
      var j: nat :| j < |order| && order[j] == env.closest(i.txHash);
      assert AnswersFor(env, t, order[j], rs[j]);
      BroughtHas(rs, j);
    }
  }

  /**
    A payment from several committees completes. Its leader splits it; every foreign committee has the
    inputs asked of it, unspent and signed; its answers come back with good proofs; at home the original
    waits, with its own inputs there. Then the batch of the answers goes through, and the last of them is
    followed by the final transaction, which spends the payment's inputs and pays its outputs under its id.
   */
  lemma PaymentCompletes(
    net: Net, env: Env, l0: Ledger, s0: Scratch, t: Transaction, order: seq<Hash>,
    ledgers: seq<Ledger>, scratches: seq<Scratch>, rs: seq<Transaction>, l: Ledger)
    requires env == EnvOf(net, env.self) && IsSplit(env, t) && t.hash != NIL && Distinct(t.inputs) && IsOrder(env, t, order)
    requires Propose(env, l0, s0, t, order).Some?
    requires |rs| == |ledgers| == |scratches| == |order|
    requires forall j | 0 <= j < |order| :: Payable(net, order[j], ledgers[j], scratches[j], t)
    requires forall ins, outs :: net.bodyHash(ins, outs, t.hash) != NIL
    requires AreReturned(net, order, Propose(env, l0, s0, t, order).value.emitted[1..], ledgers, scratches, rs)
    requires Waits(l, Propose(env, l0, s0, t, order).value.emitted[0]) && OwnInputsOnly(env, l, t)
    ensures var st := ProposeAll(env, l, BatchOf(rs));
      && st.Some?
      && st.value.emitted ==
           rs + [Transaction(env.bodyHash(t.inputs, t.outputs, t.hash), t.hash, t.inputs, t.outputs, None)]
      && st.value.scratch.spent.Keys == Keys(t.inputs)
      && OutMap(t.hash, t.outputs).Keys <= st.value.scratch.added.Keys
  {
    hide AreReturned, Payable, PaysItsInputs, Distinct, Brought, AreAnswers, AnswersFor, OwnInputsOnly, Waits, OutMap, ProposeAll, IsOrder;
    var o := t.(hash := NIL, origTxHash := t.hash);
    SplitInTwo(env, l0, s0, t, order);
    forall j | 0 <= j < |order| ensures AnswersFor(env, t, order[j], rs[j]) {
      ReturnedIs(net, env, t, order, ledgers, scratches, rs, j);
    }
    SomeForeign(env, t, order);
    AnswersAre(env, t, order, rs, l);
    AllBrought(env, t, order, rs, l);
    AnswersComplete(env, l, o, rs);
  }

  /** A split spends nothing; its original waits, with the leader at once and on every ledger that commits the list. */
  lemma SplitIsFiled(env: Env, l: Ledger, s: Scratch, t: Transaction, order: seq<Hash>, c: Ledger)
    requires IsSplit(env, t) && t.hash != NIL && t.outputs != [] && Propose(env, l, s, t, order).Some?
    ensures var st := Propose(env, l, s, t, order).value;
      && st.scratch.spent == s.spent && st.scratch.added == s.added
      && t.hash in st.scratch.originals && st.emitted != [] && st.scratch.originals[t.hash] == st.emitted[0]
      && CommitAll(env, c, st.emitted, true).Some?
      && var c' := CommitAll(env, c, st.emitted, true).value;
      && Waits(c', st.emitted[0]) && c'.utxo == c.utxo
      && forall h | h in c.originals && h != t.hash :: h in c'.originals && c'.originals[h] == c.originals[h]
  {
    var o := t.(hash := NIL, origTxHash := t.hash);
    SplitInTwo(env, l, s, t, order);
    var txs := Propose(env, l, s, t, order).value.emitted;
    hide CrossTxs;
    assert txs == [o] + CrossTxs(env, t, order);
    CommitOneOriginal(env, c, o);
    RequestsCommit(env, c.(originals := c.originals[t.hash := o]), t, order);
    CommitAppend(env, c, [o], CrossTxs(env, t, order), true);
  }

  lemma CommitOneOriginal(env: Env, c: Ledger, o: Transaction)
    requires o.hash == NIL && o.origTxHash != NIL && o.outputs != []
    ensures CommitAll(env, c, [o], true) == Some(c.(originals := c.originals[o.origTxHash := o]))
  {
    CommitSnoc(env, c, [], o, true);
    assert [] + [o] == [o];
  }

  lemma RequestsCommit(env: Env, c: Ledger, t: Transaction, order: seq<Hash>)
    requires t.hash != NIL
    ensures CommitAll(env, c, CrossTxs(env, t, order), true) == Some(c)
  {
    CrossTxsCommit(env, c, CrossTxs(env, t, order));
  }

  lemma SplitInTwo(env: Env, l: Ledger, s: Scratch, t: Transaction, order: seq<Hash>)
    requires IsSplit(env, t) && t.hash != NIL && Propose(env, l, s, t, order).Some?
    ensures var txs := Propose(env, l, s, t, order).value.emitted;
      txs != [] && txs[0] == t.(hash := NIL, origTxHash := t.hash) && txs[1..] == CrossTxs(env, t, order)
  {
    var txs := Propose(env, l, s, t, order).value.emitted;
    hide CrossTxs;
    assert txs == [txs[0]] + CrossTxs(env, t, order);
  }

  lemma SomeForeign(env: Env, t: Transaction, order: seq<Hash>)
    requires IsSplit(env, t) && IsOrder(env, t, order)
    ensures order != []
  {
    var i :| i in t.inputs && env.closest(i.txHash) != env.self;
    OrderIs(env, t, order, env.closest(i.txHash));
  }
}
