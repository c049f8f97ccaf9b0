/** PKCS#7 style padding to a multiple, where a length that already divides gets none. */
module Padding {
  import opened Sequences
  import opened Bytes
  import opened Division

  /** Bytes missing to the next multiple of `div`. */
  function Missing(len: nat, div: nat): (k: nat)
    requires div > 0
    ensures k < div
  {
    if len % div == 0 then 0 else div - len % div
  }

  /** They are exactly enough: no fewer reach a multiple. */
  lemma MissingIsLeast(len: nat, div: nat, j: nat)
    requires div > 0 && j <= Missing(len, div)
    ensures (len + j) % div == 0 <==> j == Missing(len, div)
  {
    if len % div != 0 {
      if j == Missing(len, div) {
        assert len + j == (len / div + 1) * div;
        MultipleMod(len / div + 1, div);
      } else {
        SmallStep(len, j, div);
      }
    }
  }

  function Pad(b: Bytes, k: Byte): Bytes {
    b + seq(k, i => k)
  }

  /** The last byte tells how many bytes like it end the string; it never tells of the whole string. */
  predicate IsPadded(b: Bytes)
    requires b != []
  {
    var k := b[|b| - 1];
    |b| > k && forall i | |b| - k <= i < |b| :: b[i] == k
  }

  function UnPad(b: Bytes): Bytes
    requires b != [] && IsPadded(b)
  {
    b[..|b| - b[|b| - 1]]
  }

  /** More than 255 missing bytes cannot be told by one byte: a fatal error. */
  method PadByteToBeDivisible(b: Bytes, div: nat) returns (r: Option<Bytes>)
    requires div > 0
    ensures r.None? <==> Missing(|b|, div) > 255
    ensures r.Some? ==> r.value == Pad(b, Missing(|b|, div)) && |r.value| % div == 0
  {
    var toAdd := 0;
    MissingIsLeast(|b|, div, 0);
    while (|b| + toAdd) % div != 0
      invariant 0 <= toAdd <= Missing(|b|, div)
      invariant (|b| + toAdd) % div == 0 <==> toAdd == Missing(|b|, div)
      decreases Missing(|b|, div) - toAdd
    {
      toAdd := toAdd + 1;
      MissingIsLeast(|b|, div, toAdd);
    }
    if toAdd > 255 { return None; }
    var padded := PadMethod(b, toAdd);
    assert |padded| == |b| + toAdd;
    return Some(padded);
  }

  method PadMethod(b: Bytes, k: Byte) returns (r: Bytes)
    ensures r == Pad(b, k)
  {
    var newB := new Byte[|b| + k](i => 0);
    for i := 0 to |b|
      invariant newB[..i] == b[..i]
    {
      newB[i] := b[i];
    }
    for i := |b| to |b| + k
      invariant newB[..|b|] == b && forall j | |b| <= j < i :: newB[j] == k
    {
      newB[i] := k;
    }
    assert newB[..] == Pad(b, k);
    return newB[..];
  }

  method IsPaddedMethod(b: Bytes) returns (r: bool)
    requires b != []
    ensures r <==> IsPadded(b)
  {
    var padded := b[|b| - 1];
    if |b| <= padded { return false; }
    for i := |b| - padded to |b|
      invariant forall j | |b| - padded <= j < i :: b[j] == padded
    {
      if b[i] != padded { return false; }
    }
    return true;
  }

  /** Padding by one byte or more is recognised and undone, unless there was nothing to pad. */
  lemma PadRoundTrip(b: Bytes, k: Byte)
    requires k > 0
    ensures IsPadded(Pad(b, k)) <==> b != []
    ensures b != [] ==> UnPad(Pad(b, k)) == b
  {
    var p := Pad(b, k);
    assert p[|p| - 1] == k;
    if b != [] {
      assert p[..|p| - k] == b;
    }
  }

  /** What the receiver makes of the flattened shards. */
  function Recovered(b: Bytes): Bytes
    requires b != []
  {
    if IsPadded(b) then UnPad(b) else b
  }

  function PadTo(b: Bytes, div: nat): Bytes
    requires 0 < div <= 256
  {
    Pad(b, Missing(|b|, div))
  }

  /** A tail that reads as padding and is not empty. */
  predicate ReadsAsPadded(b: Bytes)
    requires b != []
  {
    IsPadded(b) && b[|b| - 1] != 0
  }

  /** The receiver gets the message back exactly when its length needed padding, or its own tail does not read as padding. */
  lemma RecoveredExactly(b: Bytes, div: nat)
    requires b != [] && 0 < div <= 256
    ensures Recovered(PadTo(b, div)) == b <==> |b| % div != 0 || !ReadsAsPadded(b)
  {
    var k := Missing(|b|, div);
    if |b| % div == 0 {
      assert k == 0;
      assert PadTo(b, div) == b;
    } else {
      assert k > 0;
      PadRoundTrip(b, k);
    }
  }

  /** Two bytes to be divided by two, the last of them a one: only the first is read back. */
  lemma PaddedTailIsCut()
    ensures PadTo([7, 1], 2) == [7, 1] && Recovered(PadTo([7, 1], 2)) == [7]
  {
    assert PadTo([7, 1], 2) == [7, 1];
    assert [7, 1][..1] == [7];
  }
}
