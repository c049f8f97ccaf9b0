/**
  The two-level UTXO set of the nodes and of the users' wallets, updated in place,
  and the wallet operations that turn it into balanced transactions.
 */
module UtxoSets {
  import opened Sequences
  import opened LedgerTypes

  const TWO_63: int := 0x8000_0000_0000_0000

  /** Go's conversion to int, and its int arithmetic: the 64 bits that are kept, read with a sign. */
  function Signed(x: int): (r: int)
    ensures -TWO_63 <= r < TWO_63
    ensures -TWO_63 <= x < TWO_63 ==> r == x
  {
    var m := x % TWO_64;
    if m < TWO_63 then m else m - TWO_64
  }

  /** Steps of wrapping arithmetic add up to the wrapped result. */
  lemma SignedStep(x: int, v: int)
    ensures Signed(Signed(x) - Signed(v)) == Signed(x - v)
  {
    var a := Turns(x);
    var b := Turns(v);
    Turned(Signed(x) - Signed(v), a - b);
  }

  lemma Turns(x: int) returns (q: int)
    ensures Signed(x) == x - q * TWO_64
  {
    q := x / TWO_64 + if x % TWO_64 < TWO_63 then 0 else 1;
  }

  lemma Turned(x: int, q: int)
    ensures Signed(x + q * TWO_64) == Signed(x)
  {
  }

  ghost function Restrict(u: Utxo, ks: set<Outpoint>): Utxo {
    map k | k in u && k in ks :: u[k]
  }

  type Nested = map<Hash, map<nat, OutTx>>

  ghost function Inner(m: Nested, h: Hash): map<nat, OutTx> {
    if h in m then m[h] else map[]
  }

  ghost function Points(m: Nested): (ks: set<Outpoint>)
    ensures forall k :: k in ks <==> k.n in Inner(m, k.txHash)
  {
    set h, n | h in m && n in m[h] :: Outpoint(h, n)
  }

  ghost function Flatten(m: Nested): (u: Utxo)
    ensures u.Keys == Points(m)
  {
    map k | k in Points(m) :: Inner(m, k.txHash)[k.n]
  }

  /** No inner map is empty, and every output sits under its own nonce. */
  ghost predicate WellFormed(m: Nested) {
    forall h | h in m :: m[h] != map[] && forall n | n in m[h] :: m[h][n].n == n
  }

  lemma PutWellFormed(m: Nested, m': Nested, h: Hash, out: OutTx)
    requires WellFormed(m) && m' == m[h := Inner(m, h)[out.n := out]]
    ensures WellFormed(m')
  {
    assert out.n in m'[h];
  }

  /** Filling an inner map at one nonce sets one outpoint of the flat map. */
  lemma PutOne(m: Nested, m': Nested, h: Hash, out: OutTx)
    requires m' == m[h := Inner(m, h)[out.n := out]]
    ensures Flatten(m') == Flatten(m)[Outpoint(h, out.n) := out]
  {
    assert Inner(m', h) == Inner(m, h)[out.n := out] && forall g | g != h :: Inner(m', g) == Inner(m, g);
    hide Inner;
    assert Points(m') == Points(m) + {Outpoint(h, out.n)};
  }

  /** An inner map is dropped once its last output is gone. */
  function Without(m: Nested, h: Hash, n: nat): Nested {
    if h !in m then m
    else if m[h] - {n} == map[] then m - {h}
    else m[h := m[h] - {n}]
  }

  lemma DropWellFormed(m: Nested, h: Hash, n: nat)
    requires WellFormed(m)
    ensures WellFormed(Without(m, h, n))
  {
  }

  lemma PutAndDrop(m: Nested, h: Hash, inner: map<nat, OutTx>)
    requires h in m
    ensures m[h := inner] - {h} == m - {h}
  {
  }

  /** Removing an output removes one outpoint from the flat map. */
  lemma DropOne(m: Nested, h: Hash, n: nat)
    ensures Flatten(Without(m, h, n)) == Flatten(m) - {Outpoint(h, n)}
  {
    hide Inner, Without;
    WithoutInner(m, h, n);
    assert Points(Without(m, h, n)) == Points(m) - {Outpoint(h, n)};
  }

  lemma WithoutInner(m: Nested, h: Hash, n: nat)
    ensures forall g :: Inner(Without(m, h, n), g) == if g == h then Inner(m, h) - {n} else Inner(m, g)
  {
  }

  /** Transaction hash -> nonce -> output; no inner map is ever left empty. */
  class UtxoSet {
    var outputs: Nested

    /** The flat map this set stands for. */
    ghost var contents: Utxo

    ghost predicate Valid()
      reads this
    {
      WellFormed(outputs) && contents == Flatten(outputs)
    }

    constructor ()
      ensures Valid() && contents == map[]
    {
      outputs := map[];
      contents := map[];
    }

    method Add(h: Hash, out: OutTx)
      requires Valid()
      modifies this
      ensures Valid()
      ensures contents == old(contents)[Outpoint(h, out.n) := out]
    {
      if h !in outputs {
        outputs := outputs[h := map[]];
      }
      var inner: map<nat, OutTx> := outputs[h];
      outputs := outputs[h := inner[out.n := out]];
      assert outputs == old(outputs)[h := inner[out.n := out]];
      PutWellFormed(old(outputs), outputs, h, out);
      PutOne(old(outputs), outputs, h, out);
      contents := contents[Outpoint(h, out.n) := out];
    }

    method RemoveOutput(h: Hash, n: nat)
      requires Valid()
      modifies this
      ensures Valid()
      ensures contents == old(contents) - {Outpoint(h, n)}
    {
      hide WellFormed, Flatten;
      DropWellFormed(outputs, h, n);
      DropOne(outputs, h, n);
      contents := contents - {Outpoint(h, n)};
      if h in outputs {
        var inner := outputs[h] - {n};
        outputs := outputs[h := inner];
        if inner == map[] {
          outputs := outputs - {h};
          PutAndDrop(old(outputs), h, inner);
        }
      }
    }

    method Get(h: Hash, n: nat) returns (out: Option<OutTx>)
      requires Valid()
      ensures out.Some? <==> Outpoint(h, n) in contents
      ensures out.Some? ==> out.value == contents[Outpoint(h, n)] && out.value.n == n
    {
      if h !in outputs || n !in outputs[h] {
        return None;
      }
      return Some(outputs[h][n]);
    }

    method GetAndRemove(h: Hash, n: nat) returns (out: Option<OutTx>)
      requires Valid()
      modifies this
      ensures Valid()
      ensures contents == old(contents) - {Outpoint(h, n)}
      ensures out.Some? <==> Outpoint(h, n) in old(contents)
      ensures out.Some? ==> out.value == old(contents)[Outpoint(h, n)] && out.value.n == n
    {
      out := Get(h, n);
      RemoveOutput(h, n);
    }

    /**
      Collects outputs, in whatever order the map yields them, until what is left of `value`
      is no longer positive as a signed 64-bit number. It never names an output twice.
     */
    method GetOutputsToFillValue(value: Uint64) returns (res: seq<Outpoint>, ok: bool)
      requires Valid()
      ensures Walked(contents, value, res, ok)
      ensures value >= 1 ==> (RightAnswer(contents, value, res, ok) <==> StaysInRange(contents, value, res))
      ensures value >= 1 && SafeToFill(contents, value) ==>
        RightAnswer(contents, value, res, ok) && (ok <==> Total(contents) >= value)
    {
      hide WellFormed, JustCovers, RightAnswer, StaysInRange, SafeToFill;
      var m := outputs;
      ghost var u := contents;
      res := [];
      var remV := Signed(value);
      var hashes := m.Keys;
      FillStart(u, value);
      while hashes != {}
        invariant hashes <= m.Keys
        invariant Elems(res) == Outside(u, hashes)
        invariant Filling(u, value, res, remV)
        decreases hashes
      {
        var h :| h in hashes;
        var nonces := m[h].Keys;
        StartHash(m, hashes, h);
        while nonces != {}
          invariant nonces <= m[h].Keys
          invariant Elems(res) == Outside(u, hashes) + Under(u, h, nonces)
          invariant Filling(u, value, res, remV)
          decreases nonces
        {
          var n :| n in nonces;
          StepNonce(m, hashes, h, nonces, n);
          Advance(u, value, res, remV, Outpoint(h, n));
          remV := Signed(remV - Signed(m[h][n].value));
          res := res + [Outpoint(h, n)];
          if remV <= 0 {
            WalkIsRight(u, value, res, true);
            return res, true;
          }
          nonces := nonces - {n};
        }
        EndHash(u, hashes, h);
        hashes := hashes - {h};
      }
      FillEnd(u, value, res, remV);
      WalkIsRight(u, value, res, false);
      return res, false;
    }
  }

  /** `res` covers `value`, and only its last output makes it do so. */
  ghost predicate JustCovers(u: Utxo, value: nat, res: seq<Outpoint>) {
    && res != []
    && Total(Restrict(u, Elems(res))) >= value
    && Total(Restrict(u, Elems(res[..|res| - 1]))) < value
  }

  /** Outpoints of `u` of transactions not in `hashes`. */
  ghost function Outside(u: Utxo, hashes: set<Hash>): set<Outpoint> {
    set k | k in u && k.txHash !in hashes
  }

  /** Outpoints of `u` of transaction `h` whose nonce is not in `nonces`. */
  ghost function Under(u: Utxo, h: Hash, nonces: set<nat>): set<Outpoint> {
    set k | k in u && k.txHash == h && k.n !in nonces
  }

  /** What is left of `value` after the outputs of `res`. */
  ghost function Left(u: Utxo, value: nat, res: seq<Outpoint>): int {
    value - Total(Restrict(u, Elems(res)))
  }

  /** As the program sees it, nothing of `res` up to its first k outputs was enough. */
  ghost predicate NotYet(u: Utxo, value: nat, res: seq<Outpoint>, k: nat) {
    forall j | 1 <= j <= k && j <= |res| :: Signed(Left(u, value, res[..j])) > 0
  }

  /** Outputs were collected without repetition and do not seem to cover `value` yet. */
  ghost predicate Filling(u: Utxo, value: nat, res: seq<Outpoint>, remV: int) {
    && NoRepeats(res) && Elems(res) <= u.Keys
    && remV == Signed(Left(u, value, res))
    && NotYet(u, value, res, |res|)
  }

  /** The outcome of a walk: it stops where the signed rest is first not positive, or when all is taken. */
  ghost predicate Walked(u: Utxo, value: nat, res: seq<Outpoint>, ok: bool) {
    && NoRepeats(res) && Elems(res) <= u.Keys
    && if ok then
         && res != [] && NotYet(u, value, res, |res| - 1)
         && Signed(Left(u, value, res)) <= 0
       else
         Elems(res) == u.Keys && NotYet(u, value, res, |res|)
  }

  /** The answer a caller means: enough and not more than needed, or there is not enough. */
  ghost predicate RightAnswer(u: Utxo, value: nat, res: seq<Outpoint>, ok: bool) {
    if ok then JustCovers(u, value, res) else Total(u) < value
  }

  /** What is left never leaves the signed 64-bit range. */
  ghost predicate StaysInRange(u: Utxo, value: nat, res: seq<Outpoint>) {
    forall j | 1 <= j <= |res| :: -TWO_63 <= Left(u, value, res[..j]) < TWO_63
  }

  ghost predicate SmallValues(u: Utxo) {
    forall k | k in u :: u[k].value <= TWO_63
  }

  lemma FillStart(u: Utxo, value: nat)
    ensures Filling(u, value, [], Signed(value))
  {
    assert Restrict(u, Elems([])) == map[];
    assert Total(map[]) == 0;
  }

  lemma FillEnd(u: Utxo, value: nat, res: seq<Outpoint>, remV: int)
    requires Filling(u, value, res, remV) && Elems(res) == Outside(u, {})
    ensures Walked(u, value, res, false)
  {
  }

  lemma NothingTaken(u: Utxo, value: nat)
    ensures Left(u, value, []) == value
  {
    assert Restrict(u, Elems([])) == map[];
    assert Total(map[]) == 0;
  }

  lemma AllTaken(u: Utxo, value: nat, res: seq<Outpoint>)
    requires Elems(res) == u.Keys
    ensures Left(u, value, res) == value - Total(u)
  {
    assert Restrict(u, u.Keys) == u;
  }

  lemma LeftNext(u: Utxo, value: nat, res: seq<Outpoint>, j: nat)
    requires NoRepeats(res) && Elems(res) <= u.Keys && j < |res|
    ensures res[j] in u && Left(u, value, res[..j + 1]) == Left(u, value, res[..j]) - u[res[j]].value
  {
    hide Total;
    InElems(res, res[j]);
    assert res[j] !in Elems(res[..j]) by { NotBefore(res, j); }
    TakeOne(u, res[..j], res[j]);
    assert res[..j + 1] == res[..j] + [res[j]];
  }

  lemma NotBefore(res: seq<Outpoint>, j: nat)
    requires NoRepeats(res) && j < |res|
    ensures res[j] !in Elems(res[..j])
  {
  }

  /** Taking more leaves less. */
  lemma {:induction false} LeftShrinks(u: Utxo, value: nat, res: seq<Outpoint>, i: nat, j: nat)
    requires NoRepeats(res) && Elems(res) <= u.Keys && i <= j <= |res|
    ensures Left(u, value, res[..j]) <= Left(u, value, res[..i])
  {
    hide Left, Elems, NoRepeats;
    if i < j {
      LeftShrinks(u, value, res, i, j - 1);
      LeftNext(u, value, res, j - 1);
    }
  }

  lemma SignOf(x: int)
    requires 0 - TWO_64 < x < TWO_64
    ensures x > 0 && Signed(x) > 0 ==> x < TWO_63
    ensures x <= 0 && Signed(x) <= 0 ==> -TWO_63 <= x
  {
  }

  /** The answer is right exactly when what is left stays in the signed range. */
  lemma RightIff(u: Utxo, value: Uint64, res: seq<Outpoint>, ok: bool)
    requires Walked(u, value, res, ok) && value >= 1
    ensures RightAnswer(u, value, res, ok) <==> StaysInRange(u, value, res)
  {
    NothingTaken(u, value);
    assert res[..|res|] == res;
    if RightAnswer(u, value, res, ok) {
      RightStays(u, value, res, ok);
    }
    hide Left, Restrict, Total;
    if StaysInRange(u, value, res) {
      if ok {
        var front := res[..|res| - 1];
        assert |res| == 1 ==> front == [];
        LeftIs(u, value, res);
        LeftIs(u, value, front);
      } else {
        AllTaken(u, value, res);
        assert res == [] ==> Left(u, value, res) == value;
      }
    }
  }

  lemma LeftIs(u: Utxo, value: nat, res: seq<Outpoint>)
    ensures Left(u, value, res) == value - Total(Restrict(u, Elems(res)))
  {
  }

  lemma RightStays(u: Utxo, value: Uint64, res: seq<Outpoint>, ok: bool)
    requires Walked(u, value, res, ok) && value >= 1 && RightAnswer(u, value, res, ok)
    ensures StaysInRange(u, value, res)
  {
    hide Total, Restrict, Elems, Signed;
    var n := |res|;
    assert res[..n] == res;
    NothingTaken(u, value);
    assert res[..0] == [];
    forall j | 1 <= j <= n ensures -TWO_63 <= Left(u, value, res[..j]) < TWO_63 {
      LeftShrinks(u, value, res, 0, j);
      if ok && j == n {
        LeftNext(u, value, res, n - 1);
      } else if ok {
        LeftShrinks(u, value, res, j, n - 1);
      } else {
        LeftShrinks(u, value, res, j, n);
        AllTaken(u, value, res);
      }
      SignOf(Left(u, value, res[..j]));
    }
  }

  lemma WalkIsRight(u: Utxo, value: Uint64, res: seq<Outpoint>, ok: bool)
    requires Walked(u, value, res, ok)
    ensures value >= 1 ==> (RightAnswer(u, value, res, ok) <==> StaysInRange(u, value, res))
    ensures value >= 1 && SafeToFill(u, value) ==> RightAnswer(u, value, res, ok) && (ok <==> Total(u) >= value)
  {
    hide Walked, SafeToFill, StaysInRange, Left, Restrict, Total;
    if value >= 1 {
      RightIff(u, value, res, ok);
      if SafeToFill(u, value) {
        SafeIsRight(u, value, res, ok);
        RestrictAtMost(u, Elems(res));
      }
    }
  }

  /**
    A value a wallet can be asked for: no single output leaves 2^63 or more to go, and none overshoots by
    more than 2^63 what some of the others leave to go.
   */
  ghost predicate SafeToFill(u: Utxo, value: nat) {
    && (forall k | k in u :: StartIsSafe(u, value, k))
    && (forall ks, k :: StepIsSafe(u, value, ks, k))
  }

  ghost predicate StartIsSafe(u: Utxo, value: nat, k: Outpoint)
    requires k in u
  {
    value - u[k].value < TWO_63
  }

  ghost predicate StepIsSafe(u: Utxo, value: nat, ks: set<Outpoint>, k: Outpoint) {
    ks <= u.Keys && k in u && k !in ks && Total(Restrict(u, ks)) < value ==>
      u[k].value - (value - Total(Restrict(u, ks))) <= TWO_63
  }

  /** Exactly then every walk, in whatever order, gives the right answer. */
  lemma SafeToFillIff(u: Utxo, value: Uint64)
    requires value >= 1
    ensures (forall res, ok | Walked(u, value, res, ok) :: RightAnswer(u, value, res, ok)) <==> SafeToFill(u, value)
  {
    hide Walked, RightAnswer, StepIsSafe, StartIsSafe;
    if SafeToFill(u, value) {
      forall res, ok | Walked(u, value, res, ok) ensures RightAnswer(u, value, res, ok) {
        SafeIsRight(u, value, res, ok);
      }
    } else if forall k | k in u :: StartIsSafe(u, value, k) {
      var ks: set<Outpoint>, k :| !StepIsSafe(u, value, ks, k);
      var res, ok := LongWalk(u, value, ks, k);
    } else {
      var k :| k in u && !StartIsSafe(u, value, k);
      var res, ok := ShortWalk(u, value, k);
    }
  }

  lemma SafeIsRight(u: Utxo, value: Uint64, res: seq<Outpoint>, ok: bool)
    requires value >= 1 && SafeToFill(u, value) && Walked(u, value, res, ok)
    ensures RightAnswer(u, value, res, ok)
  {
    hide Walked, RightAnswer, SafeToFill, Left;
    forall j | 1 <= j <= |res| ensures -TWO_63 <= Left(u, value, res[..j]) < TWO_63 {
      SafeStays(u, value, res, ok, j);
    }
    RightIff(u, value, res, ok);
  }

  lemma {:induction false} SafeStays(u: Utxo, value: Uint64, res: seq<Outpoint>, ok: bool, j: nat)
    requires Walked(u, value, res, ok) && value >= 1 && SafeToFill(u, value) && 1 <= j <= |res|
    ensures -TWO_63 <= Left(u, value, res[..j]) < TWO_63
  {
    hide Left, Restrict, Total, Elems, NoRepeats;
    FirstLeaves(u, value, res, j);
    LeftNext(u, value, res, j - 1);
    if j == 1 {
      NothingTaken(u, value);
      assert res[..0] == [];
    } else {
      SafeStays(u, value, res, ok, j - 1);
    }
    BeforeStep(u, value, res, j - 1);
  }

  /** What the first output leaves bounds what is left later. */
  lemma FirstLeaves(u: Utxo, value: nat, res: seq<Outpoint>, j: nat)
    requires NoRepeats(res) && Elems(res) <= u.Keys && 1 <= j <= |res|
    ensures res[0] in u && Left(u, value, res[..j]) <= value - u[res[0]].value
  {
    hide Left, Elems, NoRepeats;
    LeftNext(u, value, res, 0);
    NothingTaken(u, value);
    assert res[..0] == [];
    LeftShrinks(u, value, res, 1, j);
  }

  lemma BeforeStep(u: Utxo, value: nat, res: seq<Outpoint>, j: nat)
    requires NoRepeats(res) && Elems(res) <= u.Keys && j < |res| && SafeToFill(u, value)
    ensures res[j] in u
    ensures Left(u, value, res[..j]) > 0 ==> Left(u, value, res[..j]) - u[res[j]].value >= -TWO_63
  {
    hide Total, Restrict, NoRepeats;
    InElems(res, res[j]);
    NotBefore(res, j);
    assert Elems(res[..j]) <= Elems(res);
    assert StepIsSafe(u, value, Elems(res[..j]), res[j]);
  }

  /** One output that leaves 2^63 or more looks like enough. */
  lemma ShortWalk(u: Utxo, value: Uint64, k: Outpoint) returns (res: seq<Outpoint>, ok: bool)
    requires k in u && !StartIsSafe(u, value, k)
    ensures Walked(u, value, res, ok) && !RightAnswer(u, value, res, ok)
  {
    res, ok := [k], true;
    hide Total, Restrict, Left;
    LeftNext(u, value, res, 0);
    NothingTaken(u, value);
    assert res[..0] == [] && res[..1] == res;
    LeftIs(u, value, res);
  }

  lemma {:induction false} Listing(ks: set<Outpoint>) returns (res: seq<Outpoint>)
    ensures NoRepeats(res) && Elems(res) == ks
  {
    if ks == {} {
      res := [];
      assert Elems(res) == {};
    } else {
      var k :| k in ks;
      var front := Listing(ks - {k});
      InElems(front, k);
      res := front + [k];
      assert Elems(res) == Elems(front) + {k};
    }
  }

  /** Outputs that overshoot by more than 2^63 look like not enough, and the walk goes on past them. */
  lemma LongWalk(u: Utxo, value: Uint64, ks: set<Outpoint>, k: Outpoint) returns (res: seq<Outpoint>, ok: bool)
    requires !StepIsSafe(u, value, ks, k) && forall j | j in u :: StartIsSafe(u, value, j)
    ensures Walked(u, value, res, ok) && !RightAnswer(u, value, res, ok)
  {
    var front := Listing(ks);
    var past := front + [k];
    InElems(front, k);
    TakeOne(u, front, k);
    assert NoRepeats(past) && Elems(past) <= u.Keys;
    PastNotYet(u, value, front, k);
    res, ok := GoOn(u, value, past);
    PastIsWrong(u, value, past, res, ok);
  }

  lemma PastNotYet(u: Utxo, value: Uint64, front: seq<Outpoint>, k: Outpoint)
    requires k in u && NoRepeats(front + [k]) && Elems(front + [k]) <= u.Keys
    requires forall j | j in u :: StartIsSafe(u, value, j)
    requires Left(u, value, front) > 0 && Left(u, value, front + [k]) < -TWO_63
    ensures NotYet(u, value, front + [k], |front| + 1)
  {
    hide Left, Elems, NoRepeats, Signed;
    var past, n := front + [k], |front| + 1;
    assert past[..n] == past && past[..n - 1] == front;
    LeftNext(u, value, past, n - 1);
    forall j | 1 <= j <= n ensures Signed(Left(u, value, past[..j])) > 0 {
      FirstLeaves(u, value, past, j);
      if j < n {
        LeftShrinks(u, value, past, j, n - 1);
      }
      Wraps(Left(u, value, past[..j]));
    }
  }

  lemma Wraps(x: int)
    requires 0 - TWO_64 < x < -TWO_63 || 0 < x < TWO_63
    ensures Signed(x) > 0
  {
  }

  /** A walk that has not stopped goes on to its end. */
  lemma {:induction false} GoOn(u: Utxo, value: nat, past: seq<Outpoint>) returns (res: seq<Outpoint>, ok: bool)
    requires NoRepeats(past) && Elems(past) <= u.Keys && NotYet(u, value, past, |past|)
    ensures Walked(u, value, res, ok) && past <= res && (ok ==> past < res)
    decreases |u.Keys - Elems(past)|
  {
    hide Total, Restrict, Left, Signed, NotYet;
    if Elems(past) == u.Keys {
      res, ok := past, false;
    } else {
      var k :| k in u && k !in Elems(past);
      Advance(u, value, past, Signed(Left(u, value, past)), k);
      var more := past + [k];
      if Walked(u, value, more, true) {
        res, ok := more, true;
      } else {
        assert Elems(more) == Elems(past) + {k};
        assert u.Keys - Elems(more) == u.Keys - Elems(past) - {k};
        res, ok := GoOn(u, value, more);
      }
    }
  }

  lemma PastIsWrong(u: Utxo, value: Uint64, past: seq<Outpoint>, res: seq<Outpoint>, ok: bool)
    requires Walked(u, value, res, ok) && past <= res && (ok ==> past < res) && Left(u, value, past) <= 0
    ensures !RightAnswer(u, value, res, ok)
  {
    hide Total, Restrict, Elems, NoRepeats, NotYet, Signed;
    var n := |past|;
    assert res[..n] == past && res[..|res|] == res;
    if ok {
      LeftShrinks(u, value, res, n, |res| - 1);
      LeftIs(u, value, res[..|res| - 1]);
    } else {
      LeftShrinks(u, value, res, n, |res|);
      AllTaken(u, value, res);
    }
  }

  /** Outputs of at most 2^63 are safe to fill less than that from. */
  lemma SmallIsSafe(u: Utxo, value: nat)
    requires 1 <= value < TWO_63 && SmallValues(u)
    ensures SafeToFill(u, value)
  {
    hide Total, Restrict;
  }

  /** Beyond the signed range: with a single output, 2^63 or more short, the walk claims to have covered the value. */
  lemma ShortfallClaimsToCover(k: Outpoint, out: OutTx, value: Uint64, res: seq<Outpoint>, ok: bool)
    requires value - out.value >= TWO_63 && Walked(map[k := out], value, res, ok)
    ensures ok && !JustCovers(map[k := out], value, res)
  {
    var u: Utxo := map[k := out];
    assert Total(map[]) == 0;
    TotalSplit(u, k);
    assert u - {k} == map[];
    RestrictAtMost(u, Elems(res));
    InElems(res, k);
    assert res[..|res|] == res;
    if !ok {
      AllTaken(u, value, res);
    }
  }

  lemma StartHash(m: Nested, hashes: set<Hash>, h: Hash)
    requires h in m
    ensures Under(Flatten(m), h, m[h].Keys) == {}
  {
  }

  lemma StepNonce(m: Nested, hashes: set<Hash>, h: Hash, nonces: set<nat>, n: nat)
    requires h in hashes && h in m && n in m[h] && n in nonces
    ensures Outpoint(h, n) in Flatten(m) && Flatten(m)[Outpoint(h, n)] == m[h][n]
    ensures Outpoint(h, n) !in Outside(Flatten(m), hashes) + Under(Flatten(m), h, nonces)
    ensures Under(Flatten(m), h, nonces - {n}) == Under(Flatten(m), h, nonces) + {Outpoint(h, n)}
  {
  }

  lemma EndHash(u: Utxo, hashes: set<Hash>, h: Hash)
    requires h in hashes
    ensures Outside(u, hashes - {h}) == Outside(u, hashes) + Under(u, h, {})
  {
  }

  lemma Advance(u: Utxo, value: nat, res: seq<Outpoint>, remV: int, k: Outpoint)
    requires Filling(u, value, res, remV) && k in u && k !in Elems(res)
    ensures Elems(res + [k]) == Elems(res) + {k}
    ensures var left := Signed(remV - Signed(u[k].value));
      if left > 0 then Filling(u, value, res + [k], left) else Walked(u, value, res + [k], true)
  {
    hide Total, Restrict;
    var more := res + [k];
    TakeOne(u, res, k);
    SignedStep(Left(u, value, res), u[k].value);
    InElems(res, k);
    assert more[..|more|] == more;
    forall j | 1 <= j <= |res| ensures Signed(Left(u, value, more[..j])) > 0 {
      assert more[..j] == res[..j];
    }
  }

  /** Taking one more output adds its value. */
  lemma TakeOne(u: Utxo, res: seq<Outpoint>, k: Outpoint)
    requires k in u && k !in Elems(res)
    ensures Elems(res + [k]) == Elems(res) + {k}
    ensures Total(Restrict(u, Elems(res + [k]))) == Total(Restrict(u, Elems(res))) + u[k].value
  {
    assert Elems(res + [k]) == Elems(res) + {k};
    var more := Restrict(u, Elems(res) + {k});
    TotalSplit(more, k);
    assert more - {k} == Restrict(u, Elems(res));
  }

  lemma RestrictAtMost(u: Utxo, ks: set<Outpoint>)
    ensures Total(Restrict(u, ks)) <= Total(u)
  {
    var rest := u - ks;
    TotalUnion(Restrict(u, ks), rest);
    assert Restrict(u, ks) + rest == u;
  }

  /** The outpoints as inputs of a transaction, not yet signed. */
  function Inputs(res: seq<Outpoint>): (ins: seq<InTx>)
    ensures |ins| == |res|
    ensures forall i | 0 <= i < |res| :: Key(ins[i]) == res[i]
  {
    seq(|res|, i requires 0 <= i < |res| => InTx(res[i].txHash, res[i].n, 0))
  }

  lemma InputsKeys(res: seq<Outpoint>)
    ensures Keys(Inputs(res)) == Elems(res)
    ensures NoRepeats(res) ==> Distinct(Inputs(res))
  {
    forall k | k in Elems(res) ensures k in Keys(Inputs(res)) {
      var i :| 0 <= i < |res| && res[i] == k;
      assert Inputs(res)[i] in Inputs(res);
    }
  }

  lemma RestrictIsSpent(u: Utxo, res: seq<Outpoint>)
    requires Elems(res) <= u.Keys && NoRepeats(res)
    ensures Keys(Inputs(res)) <= u.Keys
    ensures SumOut(Owed(u, Inputs(res))) == Total(Restrict(u, Elems(res)))
  {
    InputsKeys(res);
    SpentTotal(u, Inputs(res));
    assert Spent(u, Inputs(res)) == Restrict(u, Elems(res));
  }

  /** Takes the outputs `ins` name out of the wallet and adds up their values, in 64 bits. */
  method Withdraw(wallet: UtxoSet, ins: seq<InTx>) returns (total: Uint64)
    requires wallet.Valid() && Distinct(ins) && Keys(ins) <= wallet.contents.Keys
    modifies wallet
    ensures wallet.Valid() && wallet.contents == old(wallet.contents) - Keys(ins)
    ensures total == WrapSum(Owed(old(wallet.contents), ins))
  {
    hide UtxoSet.Valid, Owed, WrapSum, Keys, Distinct;
    ghost var u := wallet.contents;
    total := 0;
    var i := 0;
    SpendNothing(u, ins);
    while i < |ins|
      invariant 0 <= i <= |ins| && wallet.Valid()
      invariant wallet.contents == u - Keys(ins[..i])
      invariant Keys(ins[..i]) <= u.Keys && total == WrapSum(Owed(u, ins[..i]))
    {
      SpendNext(u, ins, i);
      assert wallet.contents == u - Keys(ins[..i]) && Key(ins[i]) in wallet.contents;
      var out := wallet.GetAndRemove(ins[i].txHash, ins[i].n);
      total := WrapAdd(total, out.value.value);
      i := i + 1;
    }
    assert ins[..i] == ins;
  }

  lemma SpendNothing(u: Utxo, ins: seq<InTx>)
    ensures Keys(ins[..0]) == {} && WrapSum(Owed(u, ins[..0])) == 0 && u - Keys(ins[..0]) == u
  {
  }

  /** What a payment looks like to the ledger that will check it. */
  ghost predicate Balanced(u: Utxo, ins: seq<InTx>, outs: seq<OutTx>) {
    && ins != [] && Distinct(ins) && Keys(ins) <= u.Keys
    && DistinctNonces(outs)
    && SumOut(outs) == SumOut(Owed(u, ins))
  }

  /** What the ledger's 64-bit check lets pass. */
  ghost predicate PassesChecks(u: Utxo, ins: seq<InTx>, outs: seq<OutTx>) {
    && ins != [] && Distinct(ins) && Keys(ins) <= u.Keys
    && DistinctNonces(outs)
    && WrapSum(outs) == WrapSum(Owed(u, ins))
  }

  /**
    A wallet builds a payment: it takes enough of its own outputs, pays `value` and returns the
    rest to itself. What it builds always passes the ledger's 64-bit check, and exactly the
    outputs it names leave the wallet; when the wallet can safely be asked for a value below 2^63 it
    succeeds exactly when the wallet holds enough, and is balanced.
   */
  method BuildPayment(wallet: UtxoSet, value: Uint64, owner: nat, payee: nat)
    returns (ins: seq<InTx>, outs: seq<OutTx>, ok: bool)
    requires wallet.Valid()
    modifies wallet
    ensures wallet.Valid()
    ensures !ok ==> wallet.contents == old(wallet.contents)
    ensures ok ==> PassesChecks(old(wallet.contents), ins, outs) && wallet.contents == old(wallet.contents) - Keys(ins)
    ensures ok ==> 1 <= |outs| <= 2 && outs[0] == OutTx(value, 0, payee)
    ensures ok && |outs| == 2 ==> outs[1].value > 0 && outs[1].n == 1 && outs[1].pubKey == owner
    ensures 1 <= value < TWO_63 && SafeToFill(old(wallet.contents), value) ==>
      && (ok <==> old(Total(wallet.contents)) >= value)
      && (ok ==> Balanced(old(wallet.contents), ins, outs))
  {
    hide UtxoSet.Valid, Restrict, JustCovers, Total, Inputs, Keys, Elems, NoRepeats, Walked, RightAnswer, StaysInRange, SafeToFill;
    hide SumOut, Owed, WrapSum, Balanced, PassesChecks;
    ghost var u := wallet.contents;
    var res;
    res, ok := wallet.GetOutputsToFillValue(value);
    ins, outs := Inputs(res), [];
    if !ok { return; }
    PaymentInputs(u, value, res);
    var total := Withdraw(wallet, ins);
    outs := Outputs(value, total, owner, payee);
    PaymentOutputs(u, ins, value, total, owner, payee);
    if 1 <= value < TWO_63 && SafeToFill(u, value) {
      PaymentBalances(u, value, res, owner, payee);
    }
  }

  /** What is paid, and the rest in 64 bits if there is one. */
  function Outputs(value: Uint64, total: Uint64, owner: nat, payee: nat): seq<OutTx> {
    [OutTx(value, 0, payee)] + if total != value then [OutTx((total - value) % TWO_64, 1, owner)] else []
  }

  lemma PaymentInputs(u: Utxo, value: nat, res: seq<Outpoint>)
    requires Walked(u, value, res, true)
    ensures var ins := Inputs(res);
      ins != [] && Distinct(ins) && Keys(ins) <= u.Keys && SumOut(Owed(u, ins)) == value - Left(u, value, res)
  {
    InputsKeys(res);
    RestrictIsSpent(u, res);
  }

  lemma OutputsSum(value: Uint64, total: Uint64, owner: nat, payee: nat)
    ensures SumOut(Outputs(value, total, owner, payee))
         == value + if total != value then (total - value) % TWO_64 else 0
  {
    var one := [OutTx(value, 0, payee)];
    assert one[..0] == [] && SumOut(one) == value;
    if total != value {
      var rest := OutTx((total - value) % TWO_64, 1, owner);
      assert (one + [rest])[..1] == one;
    } else {
      assert Outputs(value, total, owner, payee) == one;
    }
  }

  lemma PaymentOutputs(u: Utxo, ins: seq<InTx>, value: Uint64, total: Uint64, owner: nat, payee: nat)
    requires ins != [] && Distinct(ins) && Keys(ins) <= u.Keys && total == WrapSum(Owed(u, ins))
    ensures PassesChecks(u, ins, Outputs(value, total, owner, payee))
    ensures total != value ==> (total - value) % TWO_64 > 0
  {
    hide SumOut, Owed, Keys, Distinct;
    OutputsSum(value, total, owner, payee);
  }

  lemma PaymentBalances(u: Utxo, value: Uint64, res: seq<Outpoint>, owner: nat, payee: nat)
    requires Walked(u, value, res, true) && 1 <= value < TWO_63 && SafeToFill(u, value)
    ensures Keys(Inputs(res)) <= u.Keys
    ensures Balanced(u, Inputs(res), Outputs(value, WrapSum(Owed(u, Inputs(res))), owner, payee))
  {
    hide Total, Restrict, Owed, Keys, Distinct, Elems, NoRepeats, SumOut, Left, Inputs;
    var n := |res|;
    SafeStays(u, value, res, true, n);
    assert res[..n] == res;
    PaymentInputs(u, value, res);
    OutputsSum(value, WrapSum(Owed(u, Inputs(res))), owner, payee);
  }

  lemma SpendNext(u: Utxo, ins: seq<InTx>, i: nat)
    requires i < |ins| && Keys(ins) <= u.Keys && Distinct(ins)
    ensures Key(ins[i]) in u && Key(ins[i]) !in Keys(ins[..i])
    ensures Keys(ins[..i + 1]) == Keys(ins[..i]) + {Key(ins[i])}
    ensures Keys(ins[..i]) <= Keys(ins[..i + 1]) <= Keys(ins)
    ensures WrapSum(Owed(u, ins[..i + 1])) == WrapAdd(WrapSum(Owed(u, ins[..i])), u[Key(ins[i])].value)
  {
    assert Key(ins[i]) in Keys(ins);
    var more := ins[..i + 1];
    assert more[..i] == ins[..i];
    KeysSnoc(more);
    assert Keys(more) <= Keys(ins);
    assert Owed(u, more)[..i] == Owed(u, ins[..i]);
  }
}
