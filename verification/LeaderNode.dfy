/**
  The leader's loops over a pool batch. They read the node, change only the scratch sets,
  and follow module Proposal step by step.
 */
module LeaderNode {
  import opened Sequences
  import opened LedgerTypes
  import opened UtxoSets
  import opened Ledger
  import opened Proposal
  import opened LedgerNode

  /** The scratch sets are sets of their own. */
  ghost predicate Apart(node: Node, spent: UtxoSet, added: UtxoSet)
    reads node, node.utxo, spent, added
  {
    && node.Valid() && spent.Valid() && added.Valid()
    && spent != added && spent != node.utxo && added != node.utxo
  }

  ghost function ScratchOf(spent: UtxoSet, added: UtxoSet, originals: map<Hash, Transaction>): Scratch
    reads spent, added
  {
    Scratch(spent.contents, added.contents, originals)
  }

  /** The output an input refers to: in the UTXO set, or among those the batch added. */
  method Find(node: Node, added: UtxoSet, i: InTx) returns (out: Option<OutTx>)
    requires node.Valid() && added.Valid()
    ensures var known := added.contents + node.utxo.contents;
      out == if Key(i) in known then Some(known[Key(i)]) else None
    ensures out.Some? ==> out.value.n == i.n
  {
    out := node.utxo.Get(i.txHash, i.n);
    if out.None? {
      out := added.Get(i.txHash, i.n);
    }
  }

  method ValidateInput(node: Node, i: InTx, id: Hash, spent: UtxoSet, added: UtxoSet) returns (ok: bool)
    requires Apart(node, spent, added)
    ensures ok <==> ValidInput(node.env, node.Value(), ScratchOf(spent, added, map[]), i, id)
  {
    var gone := spent.Get(i.txHash, i.n);
    if gone.Some? { return false; }
    var out := Find(node, added, i);
    if out.None? { return false; }
    return node.env.verify(out.value.pubKey, i, id);
  }

  /** All inputs valid, with their wrapped total. */
  method ValidateInputs(node: Node, ins: seq<InTx>, id: Hash, spent: UtxoSet, added: UtxoSet)
    returns (ok: bool, tot: Uint64)
    requires Apart(node, spent, added)
    ensures ok <==> AllValid(node.env, node.Value(), ScratchOf(spent, added, map[]), ins, id)
    ensures ok ==> tot == WrapSum(Owed(Known(node.Value(), ScratchOf(spent, added, map[])), ins))
  {
    ghost var env, l, s := node.env, node.Value(), ScratchOf(spent, added, map[]);
    tot := 0;
    ValidStart(env, l, s, ins, id);
    hide *;
    ok := true;
    var i := 0;
    while i < |ins|
      invariant 0 <= i <= |ins|
      invariant ValidSoFar(env, l, s, ins[..i], id, tot)
    {
      ok := ValidateInput(node, ins[i], id, spent, added);
      if !ok {
        InvalidInput(env, l, s, ins, i, id);
        return;
      }
      var out := Find(node, added, ins[i]);
      FindIsKnown(node, added, ins[i], s);
      ValidNext(env, l, s, ins, i, id, tot);
      tot := WrapAdd(tot, out.value.value);
      i := i + 1;
    }
    assert ins[..i] == ins;
    ValidEnd(env, l, s, ins, id, tot);
  }

  lemma FindIsKnown(node: Node, added: UtxoSet, i: InTx, s: Scratch)
    requires s.added == added.contents
    ensures added.contents + node.utxo.contents == Known(node.Value(), s)
  {
  }

  predicate AllValid(env: Env, l: Ledger, s: Scratch, ins: seq<InTx>, id: Hash)
    ensures AllValid(env, l, s, ins, id) ==> Keys(ins) <= Known(l, s).Keys && Keys(ins) !! s.spent.Keys
  {
    forall i | i in ins :: ValidInput(env, l, s, i, id)
  }

  ghost predicate ValidSoFar(env: Env, l: Ledger, s: Scratch, ins: seq<InTx>, id: Hash, tot: Uint64) {
    AllValid(env, l, s, ins, id) && tot == WrapSum(Owed(Known(l, s), ins))
  }

  lemma ValidStart(env: Env, l: Ledger, s: Scratch, ins: seq<InTx>, id: Hash)
    ensures ValidSoFar(env, l, s, ins[..0], id, 0)
  {
    assert Owed(Known(l, s), ins[..0]) == [];
  }

  lemma InvalidInput(env: Env, l: Ledger, s: Scratch, ins: seq<InTx>, i: nat, id: Hash)
    requires i < |ins| && !ValidInput(env, l, s, ins[i], id)
    ensures !AllValid(env, l, s, ins, id)
  {
    assert ins[i] in ins;
  }

  lemma ValidNext(env: Env, l: Ledger, s: Scratch, ins: seq<InTx>, i: nat, id: Hash, tot: Uint64)
    requires i < |ins| && ValidSoFar(env, l, s, ins[..i], id, tot) && ValidInput(env, l, s, ins[i], id)
    ensures Key(ins[i]) in Known(l, s)
    ensures ValidSoFar(env, l, s, ins[..i + 1], id, WrapAdd(tot, Known(l, s)[Key(ins[i])].value))
  {
    var more := ins[..i + 1];
    assert more[..i] == ins[..i] && more == ins[..i] + [ins[i]];
    assert AllValid(env, l, s, more, id);
    assert Owed(Known(l, s), more)[..i] == Owed(Known(l, s), ins[..i]);
  }

  lemma ValidEnd(env: Env, l: Ledger, s: Scratch, ins: seq<InTx>, id: Hash, tot: Uint64)
    requires ValidSoFar(env, l, s, ins, id, tot)
    ensures AllValid(env, l, s, ins, id)
    ensures tot == WrapSum(Owed(Known(l, s), ins))
  {
  }

  /** Outputs `ins` have left: from the added set when the UTXO set does not have them. */
  ghost predicate NormalSpent(u: Utxo, sp0: Utxo, a0: Utxo, ins: seq<InTx>, sp: Utxo, a: Utxo) {
    && Keys(ins) <= (a0 + u).Keys
    && DistinctOutside(u, ins)
    && sp == sp0 + Spent(a0 + u, ins)
    && a == a0 - (Keys(ins) - u.Keys)
  }

  lemma NormalSpendStart(u: Utxo, sp0: Utxo, a0: Utxo, ins: seq<InTx>)
    ensures NormalSpent(u, sp0, a0, ins[..0], sp0, a0)
  {
    assert a0 - (Keys(ins[..0]) - u.Keys) == a0;
    assert sp0 + Spent(a0 + u, ins[..0]) == sp0;
  }

  lemma SpentNext(known: Utxo, sp0: Utxo, ins: seq<InTx>, i: nat)
    requires i < |ins| && Keys(ins) <= known.Keys
    ensures Keys(ins[..i]) <= Keys(ins[..i + 1]) <= known.Keys && Key(ins[i]) in known
    ensures Keys(ins[..i + 1]) == Keys(ins[..i]) + {Key(ins[i])}
    ensures sp0 + Spent(known, ins[..i + 1]) == (sp0 + Spent(known, ins[..i]))[Key(ins[i]) := known[Key(ins[i])]]
  {
    var more := ins[..i + 1];
    assert more[..i] == ins[..i];
    KeysSnoc(more);
    assert Keys(more) <= Keys(ins);
    assert Key(ins[i]) in Keys(more);
  }

  lemma NormalSpendHere(u: Utxo, sp0: Utxo, a0: Utxo, ins: seq<InTx>, i: nat, sp: Utxo, a: Utxo)
    requires i < |ins| && NormalSpent(u, sp0, a0, ins[..i], sp, a) && Keys(ins) <= (a0 + u).Keys
    requires Outpoint(ins[i].txHash, ins[i].n) in u
    ensures var k := Outpoint(ins[i].txHash, ins[i].n);
      NormalSpent(u, sp0, a0, ins[..i + 1], sp[k := u[k]], a)
  {
    hide DistinctOutside, Spent, Keys;
    SpentNext(a0 + u, sp0, ins, i);
    assert Keys(ins[..i + 1]) - u.Keys == Keys(ins[..i]) - u.Keys;
    OutsideNext(u, ins, i);
  }

  lemma NormalSpendAdded(u: Utxo, sp0: Utxo, a0: Utxo, ins: seq<InTx>, i: nat, sp: Utxo, a: Utxo)
    requires i < |ins| && NormalSpent(u, sp0, a0, ins[..i], sp, a) && Keys(ins) <= (a0 + u).Keys
    requires Outpoint(ins[i].txHash, ins[i].n) in a && Outpoint(ins[i].txHash, ins[i].n) !in u
    ensures var k := Outpoint(ins[i].txHash, ins[i].n);
      NormalSpent(u, sp0, a0, ins[..i + 1], sp[k := a[k]], a - {k})
  {
    hide DistinctOutside, Spent, Keys;
    var k := Key(ins[i]);
    SpentNext(a0 + u, sp0, ins, i);
    assert Keys(ins[..i + 1]) - u.Keys == Keys(ins[..i]) - u.Keys + {k};
    MinusMinus(a0, Keys(ins[..i]) - u.Keys, k);
    OutsideNext(u, ins, i);
  }

  lemma MinusMinus(a: Utxo, ks: set<Outpoint>, k: Outpoint)
    ensures a - ks - {k} == a - (ks + {k})
  {
  }

  lemma OutsideNext(u: Utxo, ins: seq<InTx>, i: nat)
    requires i < |ins| && DistinctOutside(u, ins[..i])
    requires Key(ins[i]) in u || Key(ins[i]) !in Keys(ins[..i])
    ensures DistinctOutside(u, ins[..i + 1])
  {
    var more := ins[..i + 1];
    forall x, y | 0 <= x < y < |more| && Key(more[x]) !in u ensures Key(more[x]) != Key(more[y]) {
      if y < i {
        assert ins[..i][x] == more[x] && ins[..i][y] == more[y];
      } else {
        assert ins[..i][x] == more[x] && Key(ins[..i][x]) in Keys(ins[..i]);
      }
    }
  }

  lemma NormalSpendStuck(u: Utxo, sp0: Utxo, a0: Utxo, ins: seq<InTx>, i: nat, sp: Utxo, a: Utxo)
    requires i < |ins| && NormalSpent(u, sp0, a0, ins[..i], sp, a) && Keys(ins) <= (a0 + u).Keys
    requires Outpoint(ins[i].txHash, ins[i].n) !in a && Outpoint(ins[i].txHash, ins[i].n) !in u
    ensures !DistinctOutside(u, ins)
  {
    var k := Key(ins[i]);
    assert k in Keys(ins) && k in a0;
    assert k in Keys(ins[..i]);
    var x :| x in ins[..i] && Key(x) == k;
  }

  lemma NormalSpendEnd(u: Utxo, sp0: Utxo, a0: Utxo, ins: seq<InTx>, sp: Utxo, a: Utxo)
    requires NormalSpent(u, sp0, a0, ins, sp, a)
    ensures DistinctOutside(u, ins)
  {
  }

  /** One input, from the UTXO set or out of the added set. */
  method SpendOne(utxo: UtxoSet, spent: UtxoSet, added: UtxoSet, h: Hash, n: nat) returns (ok: bool)
    requires utxo.Valid() && spent.Valid() && added.Valid() && spent != added && spent != utxo && added != utxo
    modifies spent, added
    ensures spent.Valid() && added.Valid()
    ensures var k, u, sp, a := Outpoint(h, n), utxo.contents, old(spent.contents), old(added.contents);
      && (ok <==> k in u || k in a)
      && (k in u ==> spent.contents == sp[k := u[k]] && added.contents == a)
      && (k !in u && k in a ==> spent.contents == sp[k := a[k]] && added.contents == a - {k})
  {
    var out := utxo.Get(h, n);
    if out.None? {
      out := added.GetAndRemove(h, n);
      if out.None? { return false; }
    }
    spent.Add(h, out.value);
    return true;
  }

  /** Spends a normal transaction's inputs in order. */
  method SpendNormal(node: Node, ins: seq<InTx>, spent: UtxoSet, added: UtxoSet) returns (ok: bool)
    requires Apart(node, spent, added)
    requires Keys(ins) <= (added.contents + node.utxo.contents).Keys
    modifies spent, added
    ensures spent.Valid() && added.Valid()
    ensures ok <==> DistinctOutside(node.utxo.contents, ins)
    ensures ok ==> NormalSpent(node.utxo.contents, old(spent.contents), old(added.contents), ins,
                               spent.contents, added.contents)
  {
    var utxo := node.utxo;
    ghost var u, sp0, a0 := utxo.contents, spent.contents, added.contents;
    NormalSpendStart(u, sp0, a0, ins);
    assert ins[..|ins|] == ins;
    assert utxo.Valid() && spent.Valid() && added.Valid() && spent != added && spent != utxo && added != utxo;
    hide *;
    var i := 0;
    while i < |ins|
      invariant 0 <= i <= |ins| && utxo.Valid() && spent.Valid() && added.Valid()
      invariant utxo.contents == u
      invariant NormalSpent(u, sp0, a0, ins[..i], spent.contents, added.contents)
    {
      NormalSpendStep(u, sp0, a0, ins, i, spent.contents, added.contents);
      ok := SpendOne(utxo, spent, added, ins[i].txHash, ins[i].n);
      if !ok { return; }
      i := i + 1;
    }
    assert i == |ins|;
    NormalSpendEnd(u, sp0, a0, ins, spent.contents, added.contents);
    return true;
  }

  lemma NormalSpendStep(u: Utxo, sp0: Utxo, a0: Utxo, ins: seq<InTx>, i: nat, sp: Utxo, a: Utxo)
    requires i < |ins| && NormalSpent(u, sp0, a0, ins[..i], sp, a) && Keys(ins) <= (a0 + u).Keys
    ensures var k := Outpoint(ins[i].txHash, ins[i].n);
      && (k in u ==> NormalSpent(u, sp0, a0, ins[..i + 1], sp[k := u[k]], a))
      && (k !in u && k in a ==> NormalSpent(u, sp0, a0, ins[..i + 1], sp[k := a[k]], a - {k}))
      && (k !in u && k !in a ==> !DistinctOutside(u, ins))
  {
    hide *;
    var k := Outpoint(ins[i].txHash, ins[i].n);
    if k in u {
      NormalSpendHere(u, sp0, a0, ins, i, sp, a);
    } else if k in a {
      NormalSpendAdded(u, sp0, a0, ins, i, sp, a);
    } else {
      NormalSpendStuck(u, sp0, a0, ins, i, sp, a);
    }
  }

  /** A normal transaction: validate, compare the totals, spend, add the outputs. */
  method ProcessNormal(node: Node, t: Transaction, spent: UtxoSet, added: UtxoSet, ghost originals: map<Hash, Transaction>)
    returns (ok: bool)
    requires Apart(node, spent, added)
    modifies spent, added
    ensures spent.Valid() && added.Valid()
    ensures var st := ProposeNormal(node.env, node.Value(), old(ScratchOf(spent, added, originals)), t);
      && (ok <==> st.Some?)
      && (ok ==> ScratchOf(spent, added, originals) == st.value.scratch)
  {
    var valid, tot := ValidateInputs(node, t.inputs, Id(t), spent, added);
    if !valid { return false; }
    var totOut := TotalOut(t.outputs);
    if totOut != tot { return false; }
    ok := SpendNormal(node, t.inputs, spent, added);
    if ok {
      var sum := AddAll(added, t.hash, t.outputs);
    }
  }

  method TotalOut(outs: seq<OutTx>) returns (tot: Uint64)
    ensures tot == WrapSum(outs)
  {
    tot := 0;
    var i := 0;
    assert outs[..|outs|] == outs;
    while i < |outs|
      invariant 0 <= i <= |outs| && tot == WrapSum(outs[..i])
    {
      assert outs[..i + 1][..i] == outs[..i];
      tot := WrapAdd(tot, outs[i].value);
      i := i + 1;
    }
  }

  /** Spends from the UTXO set alone and hands the outputs on. */
  method SpendToOutputs(utxo: UtxoSet, ins: seq<InTx>, spent: UtxoSet) returns (ok: bool, outs: seq<OutTx>)
    requires utxo.Valid() && spent.Valid() && spent != utxo
    modifies spent
    ensures spent.Valid()
    ensures ok <==> Keys(ins) <= utxo.contents.Keys
    ensures ok ==> outs == Owed(utxo.contents, ins)
    ensures ok ==> spent.contents == old(spent.contents) + Spent(utxo.contents, ins)
  {
    ghost var u, sp0 := utxo.contents, spent.contents;
    HandOnStart(u, sp0, ins);
    assert ins[..|ins|] == ins;
    hide *;
    outs := [];
    var i := 0;
    while i < |ins|
      invariant 0 <= i <= |ins| && spent.Valid()
      invariant HandedOn(u, sp0, ins[..i], spent.contents, outs)
    {
      HandOnNext(u, sp0, ins, i, spent.contents, outs);
      var out := utxo.Get(ins[i].txHash, ins[i].n);
      if out.None? { return false, outs; }
      spent.Add(ins[i].txHash, out.value);
      outs := outs + [out.value];
      i := i + 1;
    }
    HandOnEnd(u, sp0, ins, spent.contents, outs);
    return true, outs;
  }

  ghost predicate HandedOn(u: Utxo, sp0: Utxo, ins: seq<InTx>, sp: Utxo, outs: seq<OutTx>) {
    Keys(ins) <= u.Keys && sp == sp0 + Spent(u, ins) && outs == Owed(u, ins)
  }

  lemma HandOnStart(u: Utxo, sp0: Utxo, ins: seq<InTx>)
    ensures HandedOn(u, sp0, ins[..0], sp0, [])
  {
    assert sp0 + Spent(u, ins[..0]) == sp0;
  }

  lemma HandOnNext(u: Utxo, sp0: Utxo, ins: seq<InTx>, i: nat, sp: Utxo, outs: seq<OutTx>)
    requires i < |ins| && HandedOn(u, sp0, ins[..i], sp, outs)
    ensures var k := Outpoint(ins[i].txHash, ins[i].n);
      && (k in u ==> HandedOn(u, sp0, ins[..i + 1], sp[k := u[k]], outs + [u[k]]))
      && (k !in u ==> !(Keys(ins) <= u.Keys))
  {
    var k, more := Key(ins[i]), ins[..i + 1];
    if k in u {
      assert more[..i] == ins[..i];
      KeysSnoc(more);
      SpentNext(u, sp0, more, i);
      assert more[..i + 1] == more;
      assert Owed(u, more) == Owed(u, ins[..i]) + [u[k]];
    } else {
      assert k in Keys(ins);
    }
  }

  lemma HandOnEnd(u: Utxo, sp0: Utxo, ins: seq<InTx>, sp: Utxo, outs: seq<OutTx>)
    requires HandedOn(u, sp0, ins, sp, outs)
    ensures Keys(ins) <= u.Keys && outs == Owed(u, ins) && sp == sp0 + Spent(u, ins)
  {
  }

  /** An incoming cross-transaction: its inputs become the outputs of a response. */
  method ProcessIncoming(node: Node, t: Transaction, spent: UtxoSet, added: UtxoSet, ghost originals: map<Hash, Transaction>)
    returns (ok: bool, r: Transaction)
    requires Apart(node, spent, added) && t.hash == NIL
    modifies spent
    ensures spent.Valid() && added.Valid()
    ensures var st := ProposeIncoming(node.env, node.Value(), old(ScratchOf(spent, added, originals)), t);
      && (ok <==> st.Some?)
      && (ok ==> ScratchOf(spent, added, originals) == st.value.scratch && [r] == st.value.emitted)
  {
    hide UtxoSet.Valid, Owed, Spent, Keys, WrapSum;
    r := t;
    if t.outputs != [] || t.inputs == [] { return false, r; }
    if node.env.closest(t.inputs[0].txHash) != node.env.self { return false, r; }
    var valid, tot := ValidateInputs(node, t.inputs, t.origTxHash, spent, added);
    if !valid { return false, r; }
    var outs;
    ok, outs := SpendToOutputs(node.utxo, t.inputs, spent);
    if ok {
      r := t.(outputs := outs, hash := node.env.bodyHash(t.inputs, outs, t.origTxHash));
    }
  }

  /** Own inputs were valid so far, foreign ones are grouped by their committee. */
  ghost predicate SplitSoFar(env: Env, l: Ledger, s: Scratch, ins: seq<InTx>, id: Hash, groups: map<Hash, seq<InTx>>) {
    && OwnValid(env, l, s, ins, id)
    && groups.Keys == ForeignOf(env, ins)
    && forall c | c in groups :: groups[c] == InputsOf(env, ins, c)
  }

  ghost predicate OwnValid(env: Env, l: Ledger, s: Scratch, ins: seq<InTx>, id: Hash) {
    forall i | i in ins && env.closest(i.txHash) == env.self :: ValidInput(env, l, s, i, id)
  }

  lemma OwnInvalid(env: Env, l: Ledger, s: Scratch, ins: seq<InTx>, i: nat, id: Hash)
    requires i < |ins| && env.closest(ins[i].txHash) == env.self && !ValidInput(env, l, s, ins[i], id)
    ensures !OwnValid(env, l, s, ins, id)
  {
    assert ins[i] in ins;
  }

  ghost function ForeignOf(env: Env, ins: seq<InTx>): set<Hash> {
    set i | i in ins && env.closest(i.txHash) != env.self :: env.closest(i.txHash)
  }

  lemma {:induction false} NoInputsOf(env: Env, ins: seq<InTx>, c: Hash)
    requires c !in ForeignOf(env, ins) && c != env.self
    ensures InputsOf(env, ins, c) == []
  {
    if ins != [] {
      var j := |ins| - 1;
      assert forall i | i in ins[..j] :: i in ins;
      assert ins[j] in ins;
      NoInputsOf(env, ins[..j], c);
    }
  }

  lemma SplitNext(env: Env, l: Ledger, s: Scratch, ins: seq<InTx>, i: nat, id: Hash, groups: map<Hash, seq<InTx>>)
    requires i < |ins| && SplitSoFar(env, l, s, ins[..i], id, groups)
    ensures var c := env.closest(ins[i].txHash);
      && (c == env.self && ValidInput(env, l, s, ins[i], id) ==> SplitSoFar(env, l, s, ins[..i + 1], id, groups))
      && (c != env.self && c in groups ==>
            SplitSoFar(env, l, s, ins[..i + 1], id, groups[c := groups[c] + [ins[i]]]))
      && (c != env.self && c !in groups ==> SplitSoFar(env, l, s, ins[..i + 1], id, groups[c := [ins[i]]]))
  {
    hide OwnValid, ForeignOf, InputsOf, ValidInput;
    var c := env.closest(ins[i].txHash);
    if c != env.self || ValidInput(env, l, s, ins[i], id) {
      OwnNext(env, l, s, ins, i, id);
    }
    ForeignNext(env, ins, i);
    if c != env.self && c !in groups {
      NoInputsOf(env, ins[..i], c);
    }
  }

  lemma OwnNext(env: Env, l: Ledger, s: Scratch, ins: seq<InTx>, i: nat, id: Hash)
    requires i < |ins| && OwnValid(env, l, s, ins[..i], id)
    requires env.closest(ins[i].txHash) == env.self ==> ValidInput(env, l, s, ins[i], id)
    ensures OwnValid(env, l, s, ins[..i + 1], id)
  {
    hide ValidInput;
    assert ins[..i + 1] == ins[..i] + [ins[i]];
  }

  lemma ForeignNext(env: Env, ins: seq<InTx>, i: nat)
    requires i < |ins|
    ensures var c := env.closest(ins[i].txHash);
      ForeignOf(env, ins[..i + 1]) == ForeignOf(env, ins[..i]) + if c == env.self then {} else {c}
    ensures forall d :: InputsOf(env, ins[..i + 1], d) ==
                        if env.closest(ins[i].txHash) == d then InputsOf(env, ins[..i], d) + [ins[i]]
                        else InputsOf(env, ins[..i], d)
    ensures env.self !in ForeignOf(env, ins[..i])
  {
    assert ins[..i + 1] == ins[..i] + [ins[i]] && ins[..i + 1][..i] == ins[..i];
  }

  /** Groups foreign inputs by committee, validating (not spending) the committee's own. */
  method SplitInputs(node: Node, t: Transaction, spent: UtxoSet, added: UtxoSet)
    returns (ok: bool, groups: map<Hash, seq<InTx>>)
    requires Apart(node, spent, added)
    ensures var env, l, s := node.env, node.Value(), ScratchOf(spent, added, map[]);
      && (ok <==> OwnValid(env, l, s, t.inputs, Id(t)))
      && (ok ==> SplitSoFar(env, l, s, t.inputs, Id(t), groups))
  {
    hide *;
    ghost var env, l, s := node.env, node.Value(), ScratchOf(spent, added, map[]);
    groups := map[];
    var ins, id := t.inputs, Id(t);
    SplitStart(env, l, s, id);
    assert ins[..0] == [] && ins[..|ins|] == ins;
    var i := 0;
    while i < |ins|
      invariant 0 <= i <= |ins| && SplitSoFar(env, l, s, ins[..i], id, groups)
    {
      SplitNext(env, l, s, ins, i, id, groups);
      var c := node.env.closest(ins[i].txHash);
      if c == node.env.self {
        var valid := ValidateInput(node, ins[i], id, spent, added);
        if !valid {
          OwnInvalid(env, l, s, ins, i, id);
          return false, groups;
        }
      } else if c in groups {
        groups := groups[c := groups[c] + [ins[i]]];
      } else {
        groups := groups[c := [ins[i]]];
      }
      i := i + 1;
    }
    SplitEnd(env, l, s, ins, id, groups);
    return true, groups;
  }

  lemma SplitStart(env: Env, l: Ledger, s: Scratch, id: Hash)
    ensures SplitSoFar(env, l, s, [], id, map[])
  {
  }

  lemma SplitEnd(env: Env, l: Ledger, s: Scratch, ins: seq<InTx>, id: Hash, groups: map<Hash, seq<InTx>>)
    requires SplitSoFar(env, l, s, ins, id, groups)
    ensures OwnValid(env, l, s, ins, id)
  {
  }

  /** One cross-transaction per group, in whatever order the map yields its keys. */
  method EmitCrossTxs(id: Hash, groups: map<Hash, seq<InTx>>) returns (txs: seq<Transaction>, order: seq<Hash>)
    ensures |txs| == |order| && (set c | c in order) == groups.Keys
    ensures forall a, b | 0 <= a < b < |order| :: order[a] != order[b]
    ensures forall j | 0 <= j < |txs| :: txs[j] == Transaction(NIL, id, groups[order[j]], [], None)
  {
    txs, order := [], [];
    var left := groups.Keys;
    while left != {}
      invariant left <= groups.Keys && |txs| == |order|
      invariant forall c :: c in order <==> c in groups.Keys - left
      invariant forall a, b | 0 <= a < b < |order| :: order[a] != order[b]
      invariant forall j | 0 <= j < |txs| :: order[j] in groups && txs[j] == Transaction(NIL, id, groups[order[j]], [], None)
      decreases left
    {
      var c :| c in left;
      assert forall a | 0 <= a < |order| :: order[a] in order;
      txs, order := txs + [Transaction(NIL, id, groups[c], [], None)], order + [c];
      left := left - {c};
    }
  }

  /** A transaction with foreign inputs: it becomes an original, followed by its cross-transactions. */
  method ProcessUnknown(node: Node, t: Transaction, spent: UtxoSet, added: UtxoSet, originals: map<Hash, Transaction>)
    returns (ok: bool, originals': map<Hash, Transaction>, emitted: seq<Transaction>, order: seq<Hash>)
    requires Apart(node, spent, added)
    requires t.origTxHash == NIL && t.hash != NIL && !AllMine(node.env, t)
    ensures IsOrder(node.env, t, order) || !ok
    ensures var st := ProposeUnknown(node.env, node.Value(), ScratchOf(spent, added, originals), t, order);
      && (ok <==> st.Some?)
      && (ok ==> ScratchOf(spent, added, originals') == st.value.scratch && emitted == st.value.emitted)
  {
    originals', emitted, order := originals, [], [];
    var groups;
    ok, groups := SplitInputs(node, t, spent, added);
    if !ok { return; }
    var txs;
    txs, order := EmitCrossTxs(t.hash, groups);
    assert txs == CrossTxs(node.env, t, order);
    var original := t.(hash := NIL, origTxHash := t.hash);
    originals' := originals[original.origTxHash := original];
    emitted := [original] + txs;
  }

  /** Every input is known and not spent by the batch. */
  method CheckCovered(node: Node, ins: seq<InTx>, spent: UtxoSet, added: UtxoSet) returns (all: bool)
    requires Apart(node, spent, added)
    ensures all <==> Covered(node.Value(), ScratchOf(spent, added, map[]), ins)
  {
    var i := 0;
    while i < |ins|
      invariant 0 <= i <= |ins|
      invariant Covered(node.Value(), ScratchOf(spent, added, map[]), ins[..i])
    {
      assert ins[i] in ins && ins[..i + 1] == ins[..i] + [ins[i]];
      var out := Find(node, added, ins[i]);
      if out.None? { return false; }
      var gone := spent.Get(ins[i].txHash, ins[i].n);
      if gone.Some? { return false; }
      i := i + 1;
    }
    assert ins[..i] == ins;
    return true;
  }

  /** Spends the inputs of a completed original; an input met again is already spent. */
  method SpendFinal(node: Node, ins: seq<InTx>, spent: UtxoSet, added: UtxoSet) returns (ok: bool)
    requires Apart(node, spent, added)
    requires Covered(node.Value(), ScratchOf(spent, added, map[]), ins)
    modifies spent
    ensures spent.Valid() && added.Valid()
    ensures ok <==> Distinct(ins)
    ensures ok ==> FinalSpent(added.contents + node.utxo.contents, old(spent.contents), ins, spent.contents)
  {
    hide *;
    ghost var known, sp0 := added.contents + node.utxo.contents, spent.contents;
    FinalSpendStart(known, sp0, ins);
    CoveredIs(node, ins, spent, added);
    ApartIs(node, spent, added);
    assert ins[..|ins|] == ins;
    var i := 0;
    while i < |ins|
      invariant 0 <= i <= |ins| && spent.Valid()
      invariant FinalSpent(known, sp0, ins[..i], spent.contents)
    {
      FinalSpendNext(known, sp0, ins, i, spent.contents);
      var gone := spent.Get(ins[i].txHash, ins[i].n);
      if gone.Some? { return false; }
      var out := FindAt(node, added, ins[i].txHash, ins[i].n);
      spent.Add(ins[i].txHash, out.value);
      i := i + 1;
    }
    FinalSpendEnd(known, sp0, ins, spent.contents);
    return true;
  }

  lemma ApartIs(node: Node, spent: UtxoSet, added: UtxoSet)
    requires Apart(node, spent, added)
    ensures node.Valid() && spent.Valid() && added.Valid()
    ensures spent != added && spent != node.utxo && added != node.utxo
  {
  }

  lemma CoveredIs(node: Node, ins: seq<InTx>, spent: UtxoSet, added: UtxoSet)
    requires Covered(node.Value(), ScratchOf(spent, added, map[]), ins)
    ensures Keys(ins) <= (added.contents + node.utxo.contents).Keys
    ensures Keys(ins) !! spent.contents.Keys
  {
    CoveredKeys(node.Value(), ScratchOf(spent, added, map[]), ins);
  }

  method FindAt(node: Node, added: UtxoSet, h: Hash, n: nat) returns (out: Option<OutTx>)
    requires node.Valid() && added.Valid()
    ensures var known, k := added.contents + node.utxo.contents, Outpoint(h, n);
      out == if k in known then Some(known[k]) else None
    ensures out.Some? ==> out.value.n == n
  {
    out := Find(node, added, InTx(h, n, 0));
  }

  ghost predicate FinalSpent(known: Utxo, sp0: Utxo, ins: seq<InTx>, sp: Utxo) {
    Keys(ins) <= known.Keys && Distinct(ins) && sp == sp0 + Spent(known, ins)
  }

  lemma CoveredKeys(l: Ledger, s: Scratch, ins: seq<InTx>)
    requires Covered(l, s, ins)
    ensures Keys(ins) <= (s.added + l.utxo).Keys && Keys(ins) !! s.spent.Keys
  {
  }

  lemma FinalSpendStart(known: Utxo, sp0: Utxo, ins: seq<InTx>)
    ensures FinalSpent(known, sp0, ins[..0], sp0)
  {
    assert sp0 + Spent(known, ins[..0]) == sp0;
  }

  lemma FinalSpendNext(known: Utxo, sp0: Utxo, ins: seq<InTx>, i: nat, sp: Utxo)
    requires i < |ins| && FinalSpent(known, sp0, ins[..i], sp)
    requires Keys(ins) <= known.Keys && Keys(ins) !! sp0.Keys
    ensures var k := Outpoint(ins[i].txHash, ins[i].n);
      && k in known
      && (k !in sp ==> FinalSpent(known, sp0, ins[..i + 1], sp[k := known[k]]))
      && (k in sp ==> !Distinct(ins))
  {
    var k := Key(ins[i]);
    SpentNext(known, sp0, ins, i);
    assert k in Keys(ins);
    if k in sp {
      var x :| x in ins[..i] && Key(x) == k;
    } else {
      forall a | 0 <= a < i ensures Key(ins[a]) != k {
        assert ins[a] in ins[..i];
      }
    }
  }

  lemma FinalSpendEnd(known: Utxo, sp0: Utxo, ins: seq<InTx>, sp: Utxo)
    requires FinalSpent(known, sp0, ins, sp)
    ensures Distinct(ins)
  {
  }

  /** A response adds its outputs; the one that covers its original also yields the final transaction. */
  method ProcessResponse(node: Node, t: Transaction, spent: UtxoSet, added: UtxoSet, originals: map<Hash, Transaction>)
    returns (ok: bool, final: Option<Transaction>)
    requires Apart(node, spent, added)
    modifies spent, added
    ensures spent.Valid() && added.Valid()
    ensures var st := ProposeResponse(node.env, node.Value(), old(ScratchOf(spent, added, originals)), t);
      && (ok <==> st.Some?)
      && (ok ==> ScratchOf(spent, added, originals) == st.value.scratch)
      && (ok ==> st.value.emitted == [t] + if final.Some? then [final.value] else [])
  {
    hide Complete, UtxoSet.Valid;
    final := None;
    if t.proof.None? || !node.env.proofOk(t) { return false, final; }
    if |t.inputs| != |t.outputs| { return false, final; }
    var o;
    if t.origTxHash in node.originals {
      o := node.originals[t.origTxHash];
    } else if t.origTxHash in originals {
      o := originals[t.origTxHash];
    } else {
      return false, final;
    }
    if o.origTxHash != t.origTxHash { return false, final; }
    AddResponses(added, t.inputs, t.outputs);
    ok, final := CompleteOriginal(node, o, spent, added, originals);
  }

  /** Emits the final transaction of `o` if the outputs for all its inputs are there. */
  method CompleteOriginal(node: Node, o: Transaction, spent: UtxoSet, added: UtxoSet, ghost originals: map<Hash, Transaction>)
    returns (ok: bool, final: Option<Transaction>)
    requires Apart(node, spent, added)
    modifies spent, added
    ensures spent.Valid() && added.Valid()
    ensures var st := Complete(node.env, node.Value(), old(ScratchOf(spent, added, originals)), o);
      && (ok <==> st.Some?)
      && (ok ==> ScratchOf(spent, added, originals) == st.value.scratch)
      && (ok ==> st.value.emitted == if final.Some? then [final.value] else [])
  {
    final := None;
    var all := CheckCovered(node, o.inputs, spent, added);
    if !all { return true, final; }
    ok := SpendFinal(node, o.inputs, spent, added);
    if !ok { return false, final; }
    var sum := AddAll(added, o.origTxHash, o.outputs);
    final := Some(FinalOf(node.env, o));
  }

  /** One pool transaction, dispatched on its two hashes. */
  method ProcessTransaction(node: Node, t: Transaction, spent: UtxoSet, added: UtxoSet, originals: map<Hash, Transaction>)
    returns (ok: bool, originals': map<Hash, Transaction>, emitted: seq<Transaction>, order: seq<Hash>)
    requires Apart(node, spent, added)
    modifies spent, added
    ensures spent.Valid() && added.Valid()
    ensures ok ==> OrderOk(node.env, Entry(t, order))
    ensures var st := Propose(node.env, node.Value(), old(ScratchOf(spent, added, originals)), t, order);
      && (ok <==> st.Some?)
      && (ok ==> ScratchOf(spent, added, originals') == st.value.scratch && emitted == st.value.emitted)
  {
    originals', emitted, order := originals, [t], [];
    if t.origTxHash == NIL && t.hash != NIL {
      if AllMine(node.env, t) {
        ok := ProcessNormal(node, t, spent, added, originals);
      } else {
        ok, originals', emitted, order := ProcessUnknown(node, t, spent, added, originals);
      }
    } else if t.origTxHash != NIL && t.hash == NIL {
      var r;
      ok, r := ProcessIncoming(node, t, spent, added, originals);
      emitted := [r];
    } else if t.origTxHash != NIL && t.hash != NIL {
      var final;
      ok, final := ProcessResponse(node, t, spent, added, originals);
      if final.Some? {
        emitted := emitted + [final.value];
      }
    } else {
      ok := false;
    }
  }

  /**
    The leader's batch loop. `batch` records the transactions handled, each with the order its
    foreign committees came out of the map; the emitted list is what the functional batch emits.
   */
  method ProcessTransactions(node: Node, txs: seq<Transaction>)
    returns (ok: bool, emitted: seq<Transaction>, batch: seq<Entry>)
    requires node.Valid()
    ensures |batch| <= |txs| && (ok ==> |batch| == |txs|)
    ensures forall i | 0 <= i < |batch| :: batch[i].tx == txs[i]
    ensures ok ==> forall i | 0 <= i < |batch| :: OrderOk(node.env, batch[i])
    ensures ok <==> ProposeAll(node.env, node.Value(), batch).Some?
    ensures ok ==> emitted == ProposeAll(node.env, node.Value(), batch).value.emitted
  {
    hide Propose, OrderOk, UtxoSet.Valid;
    var spent := new UtxoSet();
    var added := new UtxoSet();
    var originals: map<Hash, Transaction> := map[];
    ok, emitted, batch := true, [], [];
    var i := 0;
    while i < |txs|
      invariant 0 <= i <= |txs| && |batch| == i && ok
      invariant Apart(node, spent, added) && fresh(spent) && fresh(added)
      invariant forall j | 0 <= j < i :: batch[j].tx == txs[j] && OrderOk(node.env, batch[j])
      invariant ProposeAll(node.env, node.Value(), batch) == Some(Step(ScratchOf(spent, added, originals), emitted))
    {
      var more, order;
      ok, originals, more, order := ProcessTransaction(node, txs[i], spent, added, originals);
      var e := Entry(txs[i], order);
      assert (batch + [e])[..|batch|] == batch;
      batch := batch + [e];
      if !ok { return; }
      emitted := emitted + more;
      i := i + 1;
    }
  }
}
