/** How a mining shard leader counts the confirmations of its newest block. */
module RaftCommit {

  datatype Confirmation = Confirmation(from: nat, shard: nat, height: nat)

  /** Confirmations of the block at `height` from this shard and from the others. */
  function Local(msgs: seq<Confirmation>, shard: nat, height: nat): nat {
    if msgs == [] then 0
    else
      var m := msgs[|msgs| - 1];
      Local(msgs[..|msgs| - 1], shard, height) + if m.height == height && m.shard == shard then 1 else 0
  }

  function Foreign(msgs: seq<Confirmation>, shard: nat, height: nat): nat {
    if msgs == [] then 0
    else
      var m := msgs[|msgs| - 1];
      Foreign(msgs[..|msgs| - 1], shard, height) + if m.height == height && m.shard != shard then 1 else 0
  }

  /** Where in `msgs` the confirmations of a height from this shard are, or those from the others. */
  function Places(msgs: seq<Confirmation>, shard: nat, height: nat, own: bool): set<nat> {
    set i | 0 <= i < |msgs| && msgs[i].height == height && (msgs[i].shard == shard <==> own)
  }

  lemma PlacesNext(msgs: seq<Confirmation>, shard: nat, height: nat, own: bool)
    requires msgs != []
    ensures var n := |msgs| - 1;
      && n !in Places(msgs[..n], shard, height, own)
      && Places(msgs, shard, height, own) == Places(msgs[..n], shard, height, own)
           + if msgs[n].height == height && (msgs[n].shard == shard <==> own) then {n} else {}
  {
    var n := |msgs| - 1;
    assert forall i | 0 <= i < n :: msgs[..n][i] == msgs[i];
  }

  /** Each confirmation counts once for every time it came. */
  lemma {:induction false} CountsConfirmations(msgs: seq<Confirmation>, shard: nat, height: nat)
    ensures Local(msgs, shard, height) == |Places(msgs, shard, height, true)|
    ensures Foreign(msgs, shard, height) == |Places(msgs, shard, height, false)|
  {
    if msgs != [] {
      hide Places;
      CountsConfirmations(msgs[..|msgs| - 1], shard, height);
      PlacesNext(msgs, shard, height, true);
      PlacesNext(msgs, shard, height, false);
    } else {
      assert Places(msgs, shard, height, true) == {} && Places(msgs, shard, height, false) == {};
    }
  }

  /** The last of `msgs` confirms this height, and both kinds have reached their quorum. */
  predicate Enough(msgs: seq<Confirmation>, shard: nat, height: nat, q2: nat, gq2: nat) {
    && msgs != [] && msgs[|msgs| - 1].height == height
    && Local(msgs, shard, height) >= q2
    && Foreign(msgs, shard, height) >= gq2
  }

  function AtMost(a: nat, b: nat): nat {
    if a < b then a else b
  }

  class BlockCount {
    var count: nat
    var globalCount: nat
    var latestResponse: nat
    var height: nat

    /** The counters hold what `msgs` brought, each capped at its quorum; they are reset at the first match. */
    ghost predicate Counts(msgs: seq<Confirmation>, shard: nat, h: nat, q2: nat, gq2: nat)
      reads this
    {
      if height < h then Local(msgs, shard, h) == 0 && Foreign(msgs, shard, h) == 0
      else
        && height == h
        && count == AtMost(Local(msgs, shard, h), q2)
        && globalCount == AtMost(Foreign(msgs, shard, h), gq2)
    }

    /** One confirmation from the channel; `done` when the block at height `h` is committed. */
    method Take(m: Confirmation, shard: nat, h: nat, q2: nat, gq2: nat, ghost before: seq<Confirmation>) returns (done: bool)
      requires Counts(before, shard, h, q2, gq2)
      modifies this
      ensures Counts(before + [m], shard, h, q2, gq2)
      ensures done <==> Enough(before + [m], shard, h, q2, gq2)
    {
      ghost var after := before + [m];
      assert after[..|before|] == before;
      if m.height != h { return false; }
      if height < h {
        count := 0;
        globalCount := 0;
        height := h;
      }
      if m.shard == shard && count < q2 {
        count := count + 1;
      }
      if m.shard != shard && globalCount < gq2 {
        globalCount := globalCount + 1;
        latestResponse := m.from;
      }
      return count == q2 && globalCount == gq2;
    }

    /** Counting stops exactly at the first confirmation with which both quorums are met. */
    method SSRaftCheckCommit(msgs: seq<Confirmation>, shard: nat, h: nat, shardSize: nat, leaders: nat)
      returns (done: bool, taken: nat)
      requires height < h
      modifies this
      ensures taken <= |msgs|
      ensures done ==> Enough(msgs[..taken], shard, h, shardSize / 2, leaders / 2)
      ensures !done ==> taken == |msgs|
      ensures forall k | 0 <= k <= taken && (done ==> k < taken) :: !Enough(msgs[..k], shard, h, shardSize / 2, leaders / 2)
    {
      var q2, gq2 := shardSize / 2, leaders / 2;
      taken := 0;
      while taken < |msgs|
        invariant 0 <= taken <= |msgs| && Counts(msgs[..taken], shard, h, q2, gq2)
        invariant forall k | 0 <= k <= taken :: !Enough(msgs[..k], shard, h, q2, gq2)
      {
        done := Take(msgs[taken], shard, h, q2, gq2, msgs[..taken]);
        assert msgs[..taken] + [msgs[taken]] == msgs[..taken + 1];
        taken := taken + 1;
        if done { return; }
      }
      return false, taken;
    }
  }
}
