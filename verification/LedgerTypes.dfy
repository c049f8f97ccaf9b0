/**
  Values of the cross-committee ledger: transactions, unspent outputs, and the
  flat map from outpoints to outputs that every UTXO set stands for.
 */
module LedgerTypes {

  import opened Sequences

  const TWO_64: nat := 0x1_0000_0000_0000_0000

  /** Go's 64-bit uint, the type of an output's value. */
  type Uint64 = n: nat | n < TWO_64

  /** A 32-byte string, read as a number; NIL is the all-zero string. */
  type Hash = nat

  const NIL: Hash := 0

  datatype OutTx = OutTx(value: Uint64, n: nat, pubKey: nat)
  datatype InTx = InTx(txHash: Hash, n: nat, sig: nat)
  datatype Outpoint = Outpoint(txHash: Hash, n: nat)

  /** The proof of consensus is kept as a token here; module ProofsOfConsensus looks inside it. */
  datatype Transaction = Transaction(
    hash: Hash,
    origTxHash: Hash,
    inputs: seq<InTx>,
    outputs: seq<OutTx>,
    proof: Option<nat>)

  type Utxo = map<Outpoint, OutTx>

  function Key(i: InTx): Outpoint {
    Outpoint(i.txHash, i.n)
  }

  function Keys(ins: seq<InTx>): set<Outpoint> {
    set i | i in ins :: Key(i)
  }

  predicate Distinct(ins: seq<InTx>) {
    forall a, b | 0 <= a < b < |ins| :: Key(ins[a]) != Key(ins[b])
  }

  predicate DistinctNonces(outs: seq<OutTx>) {
    forall a, b | 0 <= a < b < |outs| :: outs[a].n != outs[b].n
  }

  /** Every output is stored under its own nonce. */
  ghost predicate NoncesMatch(u: Utxo) {
    forall k | k in u :: u[k].n == k.n
  }

  /** The outputs `outs` of transaction `h`, as a map; on equal nonces the later one stays. */
  function OutMap(h: Hash, outs: seq<OutTx>): (m: Utxo)
    ensures forall k | k in m :: k.txHash == h && m[k].n == k.n
  {
    if outs == [] then map[]
    else
      var last := outs[|outs| - 1];
      OutMap(h, outs[..|outs| - 1])[Outpoint(h, last.n) := last]
  }

  /** A response's outputs, each filed under the transaction its input names. */
  function ResponseMap(ins: seq<InTx>, outs: seq<OutTx>): (m: Utxo)
    requires |ins| == |outs|
    ensures forall k | k in m :: m[k].n == k.n
  {
    if outs == [] then map[]
    else
      var j := |outs| - 1;
      ResponseMap(ins[..j], outs[..j])[Outpoint(ins[j].txHash, outs[j].n) := outs[j]]
  }

  /** The part of `u` that `ins` spend. */
  function Spent(u: Utxo, ins: seq<InTx>): Utxo
    requires Keys(ins) <= u.Keys
  {
    map k | k in Keys(ins) :: u[k]
  }

  /** The outputs `ins` refer to, in order. */
  function Owed(u: Utxo, ins: seq<InTx>): (outs: seq<OutTx>)
    requires Keys(ins) <= u.Keys
    ensures |outs| == |ins|
  {
    seq(|ins|, i requires 0 <= i < |ins| => assert Key(ins[i]) in Keys(ins); u[Key(ins[i])])
  }

  function SumOut(outs: seq<OutTx>): nat {
    if outs == [] then 0 else SumOut(outs[..|outs| - 1]) + outs[|outs| - 1].value
  }

  /** Go's uint addition. */
  function WrapAdd(a: Uint64, b: Uint64): Uint64 {
    (a + b) % TWO_64
  }

  /** What Go's wrapping uint addition makes of the sum of `outs`. */
  function WrapSum(outs: seq<OutTx>): Uint64 {
    SumOut(outs) % TWO_64
  }

  /** Total value held in a UTXO map. */
  ghost function Total(u: Utxo): nat {
    if u == map[] then 0
    else
      var k :| k in u;
      u[k].value + Total(u - {k})
  }

  lemma {:induction false} TotalSplit(u: Utxo, k: Outpoint)
    requires k in u
    ensures Total(u) == u[k].value + Total(u - {k})
    decreases |u|
  {
    var c :| c in u && Total(u) == u[c].value + Total(u - {c});
    if c != k {
      TotalSplit(u - {c}, k);
      TotalSplit(u - {k}, c);
      assert u - {c} - {k} == u - {k} - {c};
    }
  }

  lemma {:induction false} TotalUnion(u: Utxo, v: Utxo)
    requires u.Keys !! v.Keys
    ensures Total(u + v) == Total(u) + Total(v)
    decreases |v|
  {
    if v == map[] {
      UnionEmpty(u, v);
    } else {
      var k :| k in v;
      UnionMinus(u, v, k);
      TotalSplit(v, k);
      TotalSplit(u + v, k);
      TotalUnion(u, v - {k});
    }
  }

  lemma UnionEmpty(u: Utxo, v: Utxo)
    requires v == map[]
    ensures u + v == u
  {
  }

  lemma UnionMinus(u: Utxo, v: Utxo, k: Outpoint)
    requires k in v && k !in u
    ensures k in u + v && (u + v)[k] == v[k]
    ensures u + v - {k} == u + (v - {k})
  {
  }

  /** Spending distinct present inputs takes exactly their value out. */
  lemma {:induction false} TotalSpend(u: Utxo, ins: seq<InTx>)
    requires Keys(ins) <= u.Keys && Distinct(ins)
    ensures Total(u) == Total(u - Keys(ins)) + SumOut(Owed(u, ins))
  {
    if ins == [] {
      assert u - Keys(ins) == u;
    } else {
      var j := |ins| - 1;
      var rest := ins[..j];
      KeysSnoc(ins);
      TotalSpend(u, rest);
      assert Key(ins[j]) !in Keys(rest);
      TotalSplit(u - Keys(rest), Key(ins[j]));
      assert u - Keys(rest) - {Key(ins[j])} == u - Keys(ins);
      assert Owed(u, ins)[..j] == Owed(u, rest);
    }
  }

  lemma KeysSnoc(ins: seq<InTx>)
    requires ins != []
    ensures Keys(ins) == Keys(ins[..|ins| - 1]) + {Key(ins[|ins| - 1])}
  {
    var j := |ins| - 1;
    assert ins == ins[..j] + [ins[j]];
    forall k | k in Keys(ins) ensures k in Keys(ins[..j]) + {Key(ins[j])} {
      var i :| i in ins && Key(i) == k;
    }
  }

  lemma {:induction false} OutMapTotal(h: Hash, outs: seq<OutTx>)
    requires DistinctNonces(outs)
    ensures Total(OutMap(h, outs)) == SumOut(outs)
  {
    if outs != [] {
      var j := |outs| - 1;
      OutMapTotal(h, outs[..j]);
      NewNonce(h, outs);
      TotalAdd(OutMap(h, outs[..j]), Outpoint(h, outs[j].n), outs[j]);
      hide Total;
    }
  }

  lemma NewNonce(h: Hash, outs: seq<OutTx>)
    requires DistinctNonces(outs) && outs != []
    ensures var j := |outs| - 1; Outpoint(h, outs[j].n) !in OutMap(h, outs[..j])
  {
    OutMapKeys(h, outs[..|outs| - 1]);
    hide OutMap;
  }

  lemma TotalAdd(m: Utxo, k: Outpoint, out: OutTx)
    requires k !in m
    ensures Total(m[k := out]) == Total(m) + out.value
  {
    TotalSplit(m[k := out], k);
    assert m[k := out] - {k} == m;
  }

  lemma {:induction false} OutMapKeys(h: Hash, outs: seq<OutTx>)
    ensures forall k | k in OutMap(h, outs) :: exists a | 0 <= a < |outs| :: outs[a].n == k.n
    ensures forall a | 0 <= a < |outs| :: Outpoint(h, outs[a].n) in OutMap(h, outs)
  {
    if outs != [] {
      var j := |outs| - 1;
      OutMapKeys(h, outs[..j]);
    }
  }

  /** When the responses' outputs are the spent ones, they land under the spent outpoints. */
  lemma {:induction false} ResponseMapIsSpent(u: Utxo, ins: seq<InTx>)
    requires Keys(ins) <= u.Keys && NoncesMatch(u)
    ensures ResponseMap(ins, Owed(u, ins)) == Spent(u, ins)
  {
    var outs := Owed(u, ins);
    if ins != [] {
      var j := |ins| - 1;
      KeysSnoc(ins);
      ResponseMapIsSpent(u, ins[..j]);
      assert outs[..j] == Owed(u, ins[..j]);
      assert outs[j].n == Key(ins[j]).n;
    }
  }

  lemma SpentTotal(u: Utxo, ins: seq<InTx>)
    requires Keys(ins) <= u.Keys && Distinct(ins)
    ensures Total(Spent(u, ins)) == SumOut(Owed(u, ins))
  {
    TotalSpend(u, ins);
    var rest := u - Keys(ins);
    TotalUnion(rest, Spent(u, ins));
    assert rest + Spent(u, ins) == u;
  }
}
