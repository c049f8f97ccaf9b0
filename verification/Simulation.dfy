/**
  The leader's speculation is faithful: what it emits for a well-formed batch commits
  on every replica, and leaves exactly the outputs the leader saw.
 */
module Simulation {
  import opened Sequences
  import opened LedgerTypes
  import opened Ledger
  import opened Proposal

  /** Originals are filed under the id they carry and have something to wait for. */
  predicate OriginalsOk(m: map<Hash, Transaction>) {
    forall k | k in m :: m[k].origTxHash == k && m[k].inputs != []
  }

  /** Outpoints the batch has seen: known to the leader, or already spent. */
  function Seen(l: Ledger, s: Scratch): set<Outpoint> {
    Known(l, s).Keys + s.spent.Keys
  }

  /** The original that transaction `t`, a response, answers. */
  function Answered(l: Ledger, s: Scratch, t: Transaction): Option<Transaction> {
    if t.origTxHash in Pending(l, s) then Some(Pending(l, s)[t.origTxHash]) else None
  }

  /**
    What a pool transaction must be for the proposal to be replayable: a normal one names
    no input twice, new outputs get outpoints nobody has seen, an original has outputs and
    an id under which nothing else waits, incoming and answered transactions were routed to
    their closest committee, and fresh hashes are not the all-zero string.
   */
  predicate Shaped(env: Env, l: Ledger, s: Scratch, t: Transaction) {
    if t.origTxHash == NIL && t.hash != NIL then
      if AllMine(env, t)
      then Distinct(t.inputs) && OutMap(t.hash, t.outputs).Keys !! Seen(l, s)
      else
        && t.outputs != []
        && (t.hash in Pending(l, s) ==> Pending(l, s)[t.hash] == t.(hash := NIL, origTxHash := t.hash))
    else if t.origTxHash != NIL && t.hash == NIL then
      && env.closest(t.origTxHash) != env.self
      && (Keys(t.inputs) <= l.utxo.Keys ==>
            env.bodyHash(t.inputs, Owed(l.utxo, t.inputs), t.origTxHash) != NIL)
    else
      && env.closest(t.origTxHash) == env.self
      && (|t.inputs| == |t.outputs| && Answered(l, s, t).Some? ==>
            var o := Answered(l, s, t).value;
            && OutMap(o.origTxHash, o.outputs).Keys !! Seen(l, s) + ResponseMap(t.inputs, t.outputs).Keys
            && FinalOf(env, o).hash != NIL)
  }

  /** A response brings outpoints nobody here has seen. */
  predicate ArrivesFresh(l: Ledger, s: Scratch, t: Transaction) {
    t.origTxHash != NIL && t.hash != NIL && |t.inputs| == |t.outputs| && Answered(l, s, t).Some? ==>
      ResponseMap(t.inputs, t.outputs).Keys !! Seen(l, s)
  }

  predicate WellFormed(env: Env, l: Ledger, s: Scratch, t: Transaction) {
    Shaped(env, l, s, t) && ArrivesFresh(l, s, t)
  }

  predicate ShapedBatch(env: Env, l: Ledger, batch: seq<Entry>) {
    batch == [] ||
    var front, e := batch[..|batch| - 1], batch[|batch| - 1];
    && ShapedBatch(env, l, front)
    && OrderOk(env, e)
    && (ProposeAll(env, l, front).Some? ==>
          Shaped(env, l, ProposeAll(env, l, front).value.scratch, e.tx))
  }

  predicate WellFormedBatch(env: Env, l: Ledger, batch: seq<Entry>) {
    batch == [] ||
    var front, e := batch[..|batch| - 1], batch[|batch| - 1];
    && WellFormedBatch(env, l, front)
    && OrderOk(env, e)
    && (ProposeAll(env, l, front).Some? ==>
          WellFormed(env, l, ProposeAll(env, l, front).value.scratch, e.tx))
  }

  /** An original still waits in the committed ledger, or its inputs are spent. */
  ghost predicate Tracked(s: Scratch, c: Ledger, k: Hash, o: Transaction) {
    && o.origTxHash == k && o.inputs != []
    && (k in c.originals ==> c.originals[k] == o)
    && (k !in c.originals ==> Keys(o.inputs) <= s.spent.Keys)
  }

  /** The scratch sets `s` over the UTXO set `u` stand for the committed UTXO set `cu`. */
  ghost predicate SameOutputs(u: Utxo, s: Scratch, cu: Utxo) {
    && u.Keys !! s.added.Keys
    && NoncesMatch(s.added + u)
    && cu == s.added + u - s.spent.Keys
  }

  /** The leader's scratch state `s` over `l` stands for the committed ledger `c`. */
  ghost predicate Simulates(l: Ledger, s: Scratch, c: Ledger) {
    && SameOutputs(l.utxo, s, c.utxo)
    && (forall k | k in l.originals && k in s.originals :: l.originals[k] == s.originals[k])
    && c.originals.Keys <= Pending(l, s).Keys
    && forall k | k in Pending(l, s) :: Tracked(s, c, k, Pending(l, s)[k])
  }

  lemma SpendOutputs(u: Utxo, s: Scratch, cu: Utxo, ks: set<Outpoint>, more: Utxo, drop: set<Outpoint>)
    requires SameOutputs(u, s, cu) && ks <= (s.added + u).Keys && more.Keys == ks && drop <= ks - u.Keys
    ensures SameOutputs(u, s.(spent := s.spent + more, added := s.added - drop), cu - ks)
  {
    hide NoncesMatch;
    NoncesWithout(s.added, u, drop);
    SpendMaps(s.added, u, s.spent.Keys, ks, drop);
    assert (s.spent + more).Keys == s.spent.Keys + ks;
  }

  lemma NoncesWithout(a: Utxo, u: Utxo, drop: set<Outpoint>)
    requires NoncesMatch(a + u) && u.Keys !! a.Keys
    ensures NoncesMatch(a - drop + u)
  {
  }

  lemma SpendMaps(a: Utxo, u: Utxo, spent: set<Outpoint>, ks: set<Outpoint>, drop: set<Outpoint>)
    requires drop <= ks - u.Keys
    ensures a - drop + u - (spent + ks) == a + u - spent - ks
  {
    var x, y := a - drop + u - (spent + ks), a + u - spent - ks;
    assert forall k :: k in x <==> k in y;
  }

  lemma AddOutputs(u: Utxo, s: Scratch, cu: Utxo, out: Utxo)
    requires SameOutputs(u, s, cu) && NoncesMatch(out)
    requires out.Keys !! (s.added + u).Keys + s.spent.Keys
    ensures SameOutputs(u, s.(added := s.added + out), cu + out)
  {
    hide NoncesMatch;
    NoncesWith(s.added, u, out);
    AddMaps(s.added, u, s.spent.Keys, out);
  }

  lemma NoncesWith(a: Utxo, u: Utxo, out: Utxo)
    requires NoncesMatch(a + u) && NoncesMatch(out) && out.Keys !! (a + u).Keys && u.Keys !! a.Keys
    ensures NoncesMatch(a + out + u)
  {
    assert forall k :: k in a + out + u <==> k in a + u || k in out;
  }

  lemma AddMaps(a: Utxo, u: Utxo, spent: set<Outpoint>, out: Utxo)
    requires out.Keys !! (a + u).Keys + spent
    ensures a + out + u - spent == a + u - spent + out
  {
    var x, y := a + out + u - spent, a + u - spent + out;
    assert forall k :: k in x <==> k in y;
  }

  /** Spending known outputs on both sides, and forgetting spent additions, keeps the two in step. */
  lemma SpendSimulates(l: Ledger, s: Scratch, c: Ledger, ks: set<Outpoint>, more: Utxo, drop: set<Outpoint>)
    requires Simulates(l, s, c) && ks <= Known(l, s).Keys && more.Keys == ks && drop <= ks - l.utxo.Keys
    ensures Simulates(l, s.(spent := s.spent + more, added := s.added - drop), c.(utxo := c.utxo - ks))
  {
    SpendOutputs(l.utxo, s, c.utxo, ks, more, drop);
    forall k | k in Pending(l, s)
      ensures Tracked(s.(spent := s.spent + more, added := s.added - drop), c.(utxo := c.utxo - ks), k, Pending(l, s)[k])
    {
      assert Tracked(s, c, k, Pending(l, s)[k]);
    }
  }

  /** Adding outputs nobody has seen on both sides keeps the two in step. */
  lemma AddSimulates(l: Ledger, s: Scratch, c: Ledger, out: Utxo)
    requires Simulates(l, s, c) && out.Keys !! Seen(l, s) && NoncesMatch(out)
    ensures Simulates(l, s.(added := s.added + out), c.(utxo := c.utxo + out))
  {
    AddOutputs(l.utxo, s, c.utxo, out);
    forall k | k in Pending(l, s)
      ensures Tracked(s.(added := s.added + out), c.(utxo := c.utxo + out), k, Pending(l, s)[k])
    {
      assert Tracked(s, c, k, Pending(l, s)[k]);
    }
  }

  lemma SameOwed(u: Utxo, v: Utxo, ins: seq<InTx>)
    requires Keys(ins) <= u.Keys && Keys(ins) <= v.Keys
    requires forall k | k in Keys(ins) :: u[k] == v[k]
    ensures Owed(u, ins) == Owed(v, ins)
  {
    forall i | 0 <= i < |ins| ensures Owed(u, ins)[i] == Owed(v, ins)[i] {
      assert Key(ins[i]) in Keys(ins);
    }
  }

  lemma NormalSimulates(env: Env, l: Ledger, s: Scratch, c: Ledger, t: Transaction)
    requires Simulates(l, s, c) && AllMine(env, t) && t.origTxHash == NIL && t.hash != NIL
    requires WellFormed(env, l, s, t) && ProposeNormal(env, l, s, t).Some?
    ensures Commit(env, c, t, true).Some?
    ensures Simulates(l, ProposeNormal(env, l, s, t).value.scratch, Commit(env, c, t, true).value)
  {
    hide OutMap, Owed, WrapSum, ValidInput, SumOut;
    ValidKeys(env, l, s, t.inputs, Id(t));
    var ks, more := Keys(t.inputs), Spent(Known(l, s), t.inputs);
    SameOwed(c.utxo, Known(l, s), t.inputs);
    assert Commit(env, c, t, true).Some?;
    SpendSimulates(l, s, c, ks, more, ks - l.utxo.Keys);
    var s1 := s.(spent := s.spent + more, added := s.added - (ks - l.utxo.Keys));
    AddSimulates(l, s1, c.(utxo := c.utxo - ks), OutMap(t.hash, t.outputs));
  }

  /** Well-formed but for a repeated input, the leader's transaction commits exactly when none repeats. */
  lemma NormalCommitsIffDistinct(env: Env, l: Ledger, s: Scratch, c: Ledger, t: Transaction)
    requires Simulates(l, s, c) && AllMine(env, t) && t.origTxHash == NIL && t.hash != NIL
    requires ProposeNormal(env, l, s, t).Some?
    ensures Commit(env, c, t, true).Some? <==> Distinct(t.inputs)
  {
    ValidKeys(env, l, s, t.inputs, Id(t));
    SameOwed(c.utxo, Known(l, s), t.inputs);
  }

  lemma SumOfOne(o: OutTx)
    ensures SumOut([o]) == o.value
  {
    assert [o][..0] == [];
  }

  /** A repeated input passes the leader's checks and stops every replica. */
  lemma RepeatedInputStopsReplay() returns (env: Env, l: Ledger, t: Transaction)
    ensures NoncesMatch(l.utxo) && OriginalsOk(l.originals)
    ensures Propose(env, l, EMPTY_SCRATCH, t, []).Some?
    ensures Propose(env, l, EMPTY_SCRATCH, t, []).value.emitted == [t]
    ensures CommitAll(env, l, [t], true).None?
  {
    env := Env(1, h => 1, (i, o, h) => 1, (k, i, h) => true, t => true);
    var out := OutTx(3, 0, 9);
    l := Ledger(map[Outpoint(5, 0) := out], map[]);
    var i := InTx(5, 0, 0);
    t := Transaction(7, NIL, [i, i], [OutTx(6, 0, 9)], None);
    assert Known(l, EMPTY_SCRATCH) == l.utxo;
    assert Owed(l.utxo, t.inputs) == [out, out];
    assert [out, out][..1] == [out];
    SumOfOne(out);
    assert SumOut([out, out]) == SumOut([out]) + 3;
    SumOfOne(t.outputs[0]);
    assert !Distinct(t.inputs);
    assert [t][..0] == [] && CommitAll(env, l, [], true) == Some(l);
  }

  lemma UnknownSimulates(env: Env, l: Ledger, s: Scratch, c: Ledger, t: Transaction, order: seq<Hash>)
    requires Simulates(l, s, c) && !AllMine(env, t) && t.origTxHash == NIL && t.hash != NIL
    requires WellFormed(env, l, s, t) && ProposeUnknown(env, l, s, t, order).Some?
    ensures var st := ProposeUnknown(env, l, s, t, order).value;
      && CommitAll(env, c, st.emitted, true).Some?
      && Simulates(l, st.scratch, CommitAll(env, c, st.emitted, true).value)
  {
    var st := ProposeUnknown(env, l, s, t, order).value;
    var o := t.(hash := NIL, origTxHash := t.hash);
    var c' := c.(originals := c.originals[t.hash := o]);
    CommitSnoc(env, c, [], o, true);
    assert [] + [o] == [o] && CommitAll(env, c, [o], true) == Some(c');
    CrossTxsCommit(env, c', CrossTxs(env, t, order));
    CommitAppend(env, c, [o], CrossTxs(env, t, order), true);
    var s' := st.scratch;
    assert View(l, s') == View(l, s) && Known(l, s') == Known(l, s);
    assert t.inputs != [];
    forall k | k in Pending(l, s') ensures Tracked(s', c', k, Pending(l, s')[k]) {
      if k != t.hash {
        assert Tracked(s, c, k, Pending(l, s)[k]);
      }
    }
  }

  lemma {:induction false} CrossTxsCommit(env: Env, c: Ledger, txs: seq<Transaction>)
    requires forall t | t in txs :: WhatAmI(env, t) == CrossTx
    ensures CommitAll(env, c, txs, true) == Some(c)
  {
    if txs != [] {
      CrossTxsCommit(env, c, txs[..|txs| - 1]);
    }
  }

  lemma IncomingSimulates(env: Env, l: Ledger, s: Scratch, c: Ledger, t: Transaction)
    requires Simulates(l, s, c) && t.origTxHash != NIL && t.hash == NIL
    requires WellFormed(env, l, s, t) && ProposeIncoming(env, l, s, t).Some?
    ensures var st := ProposeIncoming(env, l, s, t).value;
      && Commit(env, c, st.emitted[0], true).Some?
      && Simulates(l, st.scratch, Commit(env, c, st.emitted[0], true).value)
  {
    var more := Spent(l.utxo, t.inputs);
    SpendSimulates(l, s, c, Keys(t.inputs), more, {});
    assert s.added - {} == s.added;
  }

  lemma ResponseCommits(env: Env, c: Ledger, t: Transaction)
    requires WhatAmI(env, t) == ResponseOut && |t.inputs| == |t.outputs|
    ensures Commit(env, c, t, true) == Some(c.(utxo := c.utxo + ResponseMap(t.inputs, t.outputs)))
    ensures CommitAll(env, c, [t], true) == Commit(env, c, t, true)
  {
    CommitSnoc(env, c, [], t, true);
    assert [] + [t] == [t];
  }

  lemma ResponseSimulates(env: Env, l: Ledger, s: Scratch, c: Ledger, t: Transaction)
    requires Simulates(l, s, c) && t.origTxHash != NIL && t.hash != NIL
    requires WellFormed(env, l, s, t) && ProposeResponse(env, l, s, t).Some?
    ensures var st := ProposeResponse(env, l, s, t).value;
      && CommitAll(env, c, st.emitted, true).Some?
      && Simulates(l, st.scratch, CommitAll(env, c, st.emitted, true).value)
  {
    hide Commit, CommitAll, Simulates, OutMap, ResponseMap, Spent;
    ResponseCommits(env, c, t);
    var st := ProposeResponse(env, l, s, t).value;
    var s1 := s.(added := s.added + ResponseMap(t.inputs, t.outputs));
    var c1 := Commit(env, c, t, true).value;
    AddSimulates(l, s, c, ResponseMap(t.inputs, t.outputs));
    assert CommitAll(env, c, [t], true) == Some(c1);
    var o := Pending(l, s)[t.origTxHash];
    if Covered(l, s1, o.inputs) {
      FinalSimulates(env, l, s1, c1, o);
      CommitSnoc(env, c, [t], FinalOf(env, o), true);
      assert st.emitted == [t] + [FinalOf(env, o)];
    } else {
      assert st.emitted == [t];
    }
  }

  /** The original a final transaction completes is still waiting on the committed side. */
  lemma FinalCommits(env: Env, l: Ledger, s: Scratch, c: Ledger, o: Transaction)
    requires Simulates(l, s, c)
    requires o.origTxHash != NIL && o.origTxHash in Pending(l, s) && Pending(l, s)[o.origTxHash] == o
    requires Covered(l, s, o.inputs)
    requires env.closest(o.origTxHash) == env.self && FinalOf(env, o).hash != NIL
    ensures Commit(env, c, FinalOf(env, o), true) ==
      Some(Ledger(c.utxo - Keys(o.inputs) + OutMap(o.origTxHash, o.outputs), c.originals - {o.origTxHash}))
  {
    assert WhatAmI(env, FinalOf(env, o)) == Final;
    assert Tracked(s, c, o.origTxHash, o);
    assert Key(o.inputs[0]) in Keys(o.inputs) && Key(o.inputs[0]) !in s.spent;
  }

  lemma FinalSimulates(env: Env, l: Ledger, s: Scratch, c: Ledger, o: Transaction)
    requires Simulates(l, s, c)
    requires o.origTxHash != NIL && o.origTxHash in Pending(l, s) && Pending(l, s)[o.origTxHash] == o
    requires Covered(l, s, o.inputs)
    requires env.closest(o.origTxHash) == env.self && FinalOf(env, o).hash != NIL
    requires OutMap(o.origTxHash, o.outputs).Keys !! Seen(l, s)
    ensures Keys(o.inputs) <= Known(l, s).Keys
    ensures var s' := s.(spent := s.spent + Spent(Known(l, s), o.inputs),
                         added := s.added + OutMap(o.origTxHash, o.outputs));
      && Commit(env, c, FinalOf(env, o), true).Some?
      && Simulates(l, s', Commit(env, c, FinalOf(env, o), true).value)
  {
    var id, ks, out := o.origTxHash, Keys(o.inputs), OutMap(o.origTxHash, o.outputs);
    FinalCommits(env, l, s, c, o);
    hide Commit, WhatAmI;
    assert ks <= Known(l, s).Keys;
    var more := Spent(Known(l, s), o.inputs);
    assert s.added - {} == s.added;
    SpendSimulates(l, s, c, ks, more, {});
    var s1, c1 := s.(spent := s.spent + more), c.(utxo := c.utxo - ks);
    AddSimulates(l, s1, c1, out);
    RetireSimulates(l, s1.(added := s1.added + out), c1.(utxo := c1.utxo + out), id);
  }

  /** An original whose inputs are spent may leave the committed ledger. */
  lemma RetireSimulates(l: Ledger, s: Scratch, c: Ledger, id: Hash)
    requires Simulates(l, s, c) && id in Pending(l, s) && Keys(Pending(l, s)[id].inputs) <= s.spent.Keys
    ensures Simulates(l, s, c.(originals := c.originals - {id}))
  {
    forall k | k in Pending(l, s)
      ensures Tracked(s, c.(originals := c.originals - {id}), k, Pending(l, s)[k])
    {
      assert Tracked(s, c, k, Pending(l, s)[k]);
    }
  }

  lemma StepSimulates(env: Env, l: Ledger, s: Scratch, c: Ledger, e: Entry)
    requires Simulates(l, s, c) && WellFormed(env, l, s, e.tx)
    requires Propose(env, l, s, e.tx, e.order).Some?
    ensures var st := Propose(env, l, s, e.tx, e.order).value;
      && CommitAll(env, c, st.emitted, true).Some?
      && Simulates(l, st.scratch, CommitAll(env, c, st.emitted, true).value)
  {
    var t := e.tx;
    if t.origTxHash == NIL && t.hash != NIL {
      if AllMine(env, t) {
        NormalSimulates(env, l, s, c, t);
        CommitSnoc(env, c, [], t, true);
        assert [] + [t] == [t];
      } else {
        UnknownSimulates(env, l, s, c, t, e.order);
      }
    } else if t.origTxHash != NIL && t.hash == NIL {
      IncomingSimulates(env, l, s, c, t);
      var r := ProposeIncoming(env, l, s, t).value.emitted[0];
      CommitSnoc(env, c, [], r, true);
      assert [] + [r] == [r];
    } else {
      ResponseSimulates(env, l, s, c, t);
    }
  }

  /**
    Proposal simulates commit: for every well-formed batch the leader gets through, the
    emitted list commits, and the committed UTXO set is (utxo and added) minus spent.
   */
  lemma {:induction false} ProposalSimulatesCommit(env: Env, l: Ledger, batch: seq<Entry>)
    requires NoncesMatch(l.utxo) && OriginalsOk(l.originals)
    requires WellFormedBatch(env, l, batch) && ProposeAll(env, l, batch).Some?
    ensures var st := ProposeAll(env, l, batch).value;
      && CommitAll(env, l, st.emitted, true).Some?
      && CommitAll(env, l, st.emitted, true).value.utxo == View(l, st.scratch)
      && Simulates(l, st.scratch, CommitAll(env, l, st.emitted, true).value)
  {
    if batch == [] {
      assert View(l, EMPTY_SCRATCH) == l.utxo && Known(l, EMPTY_SCRATCH) == l.utxo;
      assert Pending(l, EMPTY_SCRATCH) == l.originals;
    } else {
      var front, e := batch[..|batch| - 1], batch[|batch| - 1];
      ProposalSimulatesCommit(env, l, front);
      var st := ProposeAll(env, l, front).value;
      var c := CommitAll(env, l, st.emitted, true).value;
      StepSimulates(env, l, st.scratch, c, e);
      CommitAppend(env, l, st.emitted, Propose(env, l, st.scratch, e.tx, e.order).value.emitted, true);
    }
  }
}
