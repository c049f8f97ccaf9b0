/** The transaction pool: one bounded queue per priority level, drained highest priority first. */
module TxPools {

  type Tx = nat

  /** All queued transactions, in priority order. */
  function Flat(channels: seq<seq<Tx>>): seq<Tx> {
    if channels == [] then [] else channels[0] + Flat(channels[1..])
  }

  /** What is left of a queue after receives. */
  predicate IsTail(left: seq<Tx>, queue: seq<Tx>) {
    |left| <= |queue| && left == queue[|queue| - |left|..]
  }

  function Sum(lens: seq<nat>): nat {
    if lens == [] then 0 else Sum(lens[..|lens| - 1]) + lens[|lens| - 1]
  }

  function Lengths(channels: seq<seq<Tx>>): seq<nat> {
    seq(|channels|, l requires 0 <= l < |channels| => |channels[l]|)
  }

  /** The levels before `i` are empty. */
  predicate Drained(channels: seq<seq<Tx>>, i: nat) {
    forall l | 0 <= l < i && l < |channels| :: channels[l] == []
  }

  /** With the levels before it empty, level i gives the pool's first transaction. */
  lemma {:induction false} FirstOfPool(channels: seq<seq<Tx>>, i: nat)
    requires i < |channels| && Drained(channels, i) && channels[i] != []
    ensures Flat(channels) == [channels[i][0]] + Flat(channels[i := channels[i][1..]])
  {
    if i == 0 {
      assert channels[0] == [channels[0][0]] + channels[0][1..];
      assert channels[0 := channels[0][1..]][1..] == channels[1..];
    } else {
      assert channels[0] == [];
      FirstOfPool(channels[1..], i - 1);
      assert channels[i := channels[i][1..]][1..] == channels[1..][i - 1 := channels[i][1..]];
    }
  }

  lemma {:induction false} SumOfLengths(channels: seq<seq<Tx>>)
    ensures Sum(Lengths(channels)) == |Flat(channels)|
  {
    if channels != [] {
      var n := |channels| - 1;
      SumOfLengths(channels[..n]);
      assert Lengths(channels)[..n] == Lengths(channels[..n]);
      FlatSnoc(channels[..n], channels[n]);
      assert channels == channels[..n] + [channels[n]];
    }
  }

  lemma {:induction false} FlatSnoc(channels: seq<seq<Tx>>, c: seq<Tx>)
    ensures Flat(channels + [c]) == Flat(channels) + c
  {
    if channels == [] {
      assert ([] + [c])[1..] == [];
    } else {
      assert (channels + [c])[1..] == channels[1..] + [c];
      FlatSnoc(channels[1..], c);
    }
  }

  lemma {:induction false} SumMonotone(lens: seq<nat>, i: nat)
    requires i <= |lens|
    ensures Sum(lens[..i]) <= Sum(lens)
  {
    if i < |lens| {
      assert lens[..|lens| - 1][..i] == lens[..i];
      SumMonotone(lens[..|lens| - 1], i);
    } else {
      assert lens[..i] == lens;
    }
  }

  lemma SumNext(lens: seq<nat>, i: nat)
    requires i < |lens|
    ensures Sum(lens[..i + 1]) == Sum(lens[..i]) + lens[i]
  {
    assert lens[..i + 1][..i] == lens[..i];
  }

  class TxPool {
    var channels: seq<seq<Tx>>

    /** As many levels as asked for, or a single queue. */
    constructor (priority: bool, priorityNum: nat)
      requires priorityNum > 0
      ensures |channels| == if priority then priorityNum else 1
      ensures Flat(channels) == []
    {
      channels := seq(if priority then priorityNum else 1, l => []);
      new;
      EmptyPool(channels);
    }

    static lemma {:induction false} EmptyPool(channels: seq<seq<Tx>>)
      requires Drained(channels, |channels|)
      ensures Flat(channels) == []
    {
      if channels != [] {
        EmptyPool(channels[1..]);
      }
    }

    method ChLength() returns (lens: seq<nat>, total: nat)
      ensures lens == Lengths(channels) && total == |Flat(channels)|
    {
      lens, total := [], 0;
      for k := 0 to |channels|
        invariant lens == Lengths(channels)[..k] && total == Sum(lens)
      {
        SumNext(Lengths(channels), k);
        lens := lens + [|channels[k]|];
        total := total + |channels[k]|;
      }
      SumOfLengths(channels);
      assert Lengths(channels)[..|channels|] == Lengths(channels);
    }

    /** The first level by which the queues reach the batch size, or the number of levels if none does. */
    static method LengthCompare(lens: seq<nat>, size: int) returns (k: nat)
      ensures k <= |lens|
      ensures k < |lens| ==> Sum(lens[..k + 1]) >= size
      ensures forall j | 1 <= j <= k :: Sum(lens[..j]) < size
    {
      var count := 0;
      for i := 0 to |lens|
        invariant count == Sum(lens[..i])
        invariant forall j | 1 <= j <= i :: Sum(lens[..j]) < size
      {
        SumNext(lens, i);
        count := count + lens[i];
        if count >= size { return i; }
      }
      return |lens|;
    }

    /** A receive: it would block for ever on an empty queue. */
    method Receive(level: nat) returns (tx: Tx)
      requires level < |channels| && channels[level] != []
      modifies this
      ensures tx == old(channels)[level][0]
      ensures channels == old(channels)[level := old(channels)[level][1..]]
    {
      tx := channels[level][0];
      channels := channels[level := channels[level][1..]];
    }

    /** The next n transactions of level i, when it is the first that is not drained. */
    method Drain(batch: seq<Tx>, i: nat, n: nat) returns (more: seq<Tx>)
      requires i < |channels| && Drained(channels, i) && n <= |channels[i]|
      modifies this
      ensures channels == old(channels)[i := old(channels)[i][n..]]
      ensures |more| == |batch| + n
      ensures more + Flat(channels) == batch + Flat(old(channels))
    {
      more := batch;
      for j := 0 to n
        invariant channels == old(channels)[i := old(channels)[i][j..]]
        invariant |more| == |batch| + j && more + Flat(channels) == batch + Flat(old(channels))
      {
        FirstOfPool(channels, i);
        assert old(channels)[i][j..][1..] == old(channels)[i][j + 1..];
        var tr := Receive(i);
        more := more + [tr];
      }
    }

    /**
      The first transactions of the pool in priority order, as many as asked for or as there are;
      the rest stays, in order. An empty pool is waited on, so the call is for a pool that is not.
     */
    method CommitTrs(size: int) returns (batch: seq<Tx>)
      requires Flat(channels) != []
      modifies this
      ensures batch + Flat(channels) == Flat(old(channels))
      ensures |batch| == if size <= 0 then 0 else if size <= |Flat(old(channels))| then size else |Flat(old(channels))|
      ensures |channels| == |old(channels)|
      ensures forall l | 0 <= l < |channels| :: IsTail(channels[l], old(channels)[l])
    {
      batch := [];
      var lens, total := ChLength();
      SumOfLengths(channels);
      var num := LengthCompare(lens, size);
      assert lens[..|lens|] == lens;
      if num == 0 {
        if size > 0 {
          SumNext(lens, 0);
          SumMonotone(lens, 1);
          batch := Drain(batch, 0, size);
        }
      } else if num == |lens| {
        batch := DrainLevels(lens, num);
      } else {
        SumNext(lens, num);
        SumMonotone(lens, num + 1);
        batch := DrainLevels(lens, num);
        batch := Drain(batch, num, size - |batch|);
      }
    }

    /** All of the first n levels; the amount left to take is the batch size less the batch. */
    method DrainLevels(lens: seq<nat>, n: nat) returns (batch: seq<Tx>)
      requires lens == Lengths(channels) && n <= |lens|
      modifies this
      ensures |channels| == |old(channels)| && Drained(channels, n)
      ensures forall l | n <= l < |channels| :: channels[l] == old(channels)[l]
      ensures |batch| == Sum(lens[..n]) && batch + Flat(channels) == Flat(old(channels))
    {
      batch := [];
      for k := 0 to n
        invariant |channels| == |lens| && Drained(channels, k)
        invariant forall l | k <= l < |lens| :: channels[l] == old(channels)[l]
        invariant |batch| == Sum(lens[..k]) && batch + Flat(channels) == Flat(old(channels))
      {
        SumNext(lens, k);
        batch := Drain(batch, k, lens[k]);
      }
    }
  }
}
