/** Signer bitmaps: bit i lives in byte i / 8 at position i % 8. */
module Bitmaps {
  import opened Validators

  function ByteCount(bits: nat): nat { (bits + 7) / 8 }

  function Mask(i: nat): bv8
    requires i < 8
  {
    (1 as bv8) << i
  }

  predicate GetBit(bytes: seq<bv8>, i: nat)
    requires i / 8 < |bytes|
  {
    bytes[i / 8] & Mask(i % 8) != 0
  }

  function SetBit(bytes: seq<bv8>, i: nat): (r: seq<bv8>)
    requires i / 8 < |bytes|
    ensures |r| == |bytes|
  {
    bytes[i / 8 := bytes[i / 8] | Mask(i % 8)]
  }

  function Zeros(bits: nat): (r: seq<bv8>)
    ensures |r| == ByteCount(bits)
  {
    seq(ByteCount(bits), _ => 0)
  }

  // The slots below `bits` that are set.
  function Bits(bytes: seq<bv8>, bits: nat): set<nat>
    requires |bytes| == ByteCount(bits)
  {
    set i | 0 <= i < bits && GetBit(bytes, i)
  }

  lemma MaskHits(x: bv8, i: nat, j: nat)
    requires i < 8 && j < 8
    ensures (x | Mask(i)) & Mask(j) != 0 <==> i == j || x & Mask(j) != 0
  {
    var a, b := Mask(i), Mask(j);
    assert a == 1 || a == 2 || a == 4 || a == 8 || a == 16 || a == 32 || a == 64 || a == 128;
    assert b == 1 || b == 2 || b == 4 || b == 8 || b == 16 || b == 32 || b == 64 || b == 128;
    assert a == b <==> i == j;
    assert (x | a) & b == (x & b) | (a & b);
    assert a & b != 0 <==> a == b;
  }

  /** Setting one slot adds exactly that slot. */
  lemma SetBitSets(bytes: seq<bv8>, bits: nat, i: nat)
    requires |bytes| == ByteCount(bits) && i < bits
    ensures Bits(SetBit(bytes, i), bits) == Bits(bytes, bits) + {i}
  {
    forall j | 0 <= j < bits
      ensures GetBit(SetBit(bytes, i), j) <==> j == i || GetBit(bytes, j)
    {
      MaskHits(bytes[j / 8], i % 8, j % 8);
      assert i == 8 * (i / 8) + i % 8 && j == 8 * (j / 8) + j % 8;
    }
  }

  /** The wire format: slot i is the bit of weight 2^(i mod 8) in byte i / 8. */
  lemma BitOrder(bits: nat, i: nat)
    requires i < bits
    ensures var bytes := SetBit(Zeros(bits), i);
            && bytes[i / 8] == [1, 2, 4, 8, 16, 32, 64, 128][i % 8]
            && forall k :: 0 <= k < |bytes| && k != i / 8 ==> bytes[k] == 0
  {
    assert Mask(0) == 1 && Mask(1) == 2 && Mask(2) == 4 && Mask(3) == 8;
    assert Mask(4) == 16 && Mask(5) == 32 && Mask(6) == 64 && Mask(7) == 128;
  }

  lemma ZerosEmpty(bits: nat)
    ensures Bits(Zeros(bits), bits) == {}
  {
  }

  class Bitmap {
    var bytes: seq<bv8>
    const bits: nat

    ghost predicate Valid()
      reads this
    {
      |bytes| == ByteCount(bits)
    }

    ghost function Slots(): set<nat>
      reads this
      requires Valid()
    {
      Bits(bytes, bits)
    }

    constructor (bits: nat)
      ensures Valid() && this.bits == bits && bytes == Zeros(bits) && Slots() == {}
    {
      this.bits := bits;
      this.bytes := Zeros(bits);
      new;
      ZerosEmpty(bits);
    }

    // Fails exactly on an out-of-range slot and then changes nothing.
    method Set(i: nat) returns (ok: bool)
      requires Valid()
      modifies this
      ensures Valid() && ok == (i < bits)
      ensures Slots() == if ok then old(Slots()) + {i} else old(Slots())
      ensures bytes == if ok then SetBit(old(bytes), i) else old(bytes)
    {
      if i >= bits {
        return false;
      }
      SetBitSets(bytes, bits, i);
      bytes := bytes[i / 8 := bytes[i / 8] | Mask(i % 8)];
      return true;
    }
  }

  // The set slots in ascending order, or None for a buffer of the wrong size.
  method BitmapIndices(bytes: seq<bv8>, n: nat) returns (r: Option<seq<nat>>)
    ensures r.Some? <==> |bytes| == ByteCount(n)
    ensures r.Some? ==> Ascending(r.value) && Members(r.value) == Bits(bytes, n)
    ensures r.Some? ==> r.value == Indices(bytes, n)
  {
    if |bytes| != ByteCount(n) {
      return None;
    }
    var out: seq<nat> := [];
    for i := 0 to n
      invariant Ascending(out)
      invariant out == IndicesBelow(bytes, n, i)
      invariant forall x :: x in out <==> 0 <= x < i && GetBit(bytes, x)
    {
      if bytes[i / 8] & Mask(i % 8) != 0 {
        assert forall j :: 0 <= j < |out| ==> out[j] in out;
        AscendingExtend([], i, out);
        out := out + [i];
      }
    }
    r := Some(out);
  }

  function IndicesBelow(bytes: seq<bv8>, n: nat, i: nat): (r: seq<nat>)
    requires |bytes| == ByteCount(n) && i <= n
    ensures forall x :: x in r <==> 0 <= x < i && GetBit(bytes, x)
    ensures Ascending(r)
  {
    if i == 0 then []
    else if GetBit(bytes, i - 1) then
      var below := IndicesBelow(bytes, n, i - 1);
      assert forall j :: 0 <= j < |below| ==> below[j] in below;
      AscendingExtend([], i - 1, below);
      below + [i - 1]
    else IndicesBelow(bytes, n, i - 1)
  }

  function Indices(bytes: seq<bv8>, n: nat): (r: seq<nat>)
    requires |bytes| == ByteCount(n)
    ensures Ascending(r) && Distinct(r)
    ensures Members(r) == Bits(bytes, n)
  {
    IndicesBelow(bytes, n, n)
  }

  // ---------------------------------------------------------------------
  // Population count, byte by byte.
  // ---------------------------------------------------------------------

  function Ones(x: bv8, upto: nat): nat
    requires upto <= 8
  {
    if upto == 0 then 0
    else Ones(x, upto - 1) + (if x & Mask(upto - 1) != 0 then 1 else 0)
  }

  function CountOnes(bytes: seq<bv8>): nat {
    if bytes == [] then 0
    else CountOnes(bytes[..|bytes| - 1]) + Ones(bytes[|bytes| - 1], 8)
  }

  function AllBits(bytes: seq<bv8>): set<nat> {
    set i | 0 <= i < 8 * |bytes| && GetBit(bytes, i)
  }

  // Bits set past the last slot; a buffer taken from the wire may have some.
  function Stray(bytes: seq<bv8>, bits: nat): set<nat> {
    set i | bits <= i < 8 * |bytes| && GetBit(bytes, i)
  }

  /** The population count is the number of set slots and of bits set past the end, so it
      is the number of set slots exactly when there are none of those. */
  lemma CountOnesIsSize(bytes: seq<bv8>, bits: nat)
    requires |bytes| == ByteCount(bits)
    ensures CountOnes(bytes) == |Bits(bytes, bits)| + |Stray(bytes, bits)|
    ensures CountOnes(bytes) == |Bits(bytes, bits)| <==> forall i :: bits <= i < 8 * |bytes| ==> !GetBit(bytes, i)
  {
    CountAll(bytes);
    assert AllBits(bytes) == Bits(bytes, bits) + Stray(bytes, bits);
    if i :| bits <= i < 8 * |bytes| && GetBit(bytes, i) {
      assert i in Stray(bytes, bits);
    } else {
      assert Stray(bytes, bits) == {};
    }
  }

  lemma {:induction false} CountAll(bytes: seq<bv8>)
    ensures CountOnes(bytes) == |AllBits(bytes)|
  {
    if bytes != [] {
      var m := |bytes| - 1;
      CountAll(bytes[..m]);
      CountByte(bytes, 8);
      assert forall i | 0 <= i < 8 * m :: GetBit(bytes, i) == GetBit(bytes[..m], i);
      assert AllBits(bytes) == AllBits(bytes[..m]) + ByteBits(bytes, 8);
      assert AllBits(bytes[..m]) !! ByteBits(bytes, 8);
    }
  }

  function ByteBits(bytes: seq<bv8>, upto: nat): set<nat>
    requires bytes != [] && upto <= 8
  {
    set i | 8 * (|bytes| - 1) <= i < 8 * (|bytes| - 1) + upto && GetBit(bytes, i)
  }

  lemma {:induction false} CountByte(bytes: seq<bv8>, upto: nat)
    requires bytes != [] && upto <= 8
    ensures Ones(bytes[|bytes| - 1], upto) == |ByteBits(bytes, upto)|
  {
    if upto > 0 {
      CountByte(bytes, upto - 1);
      var i := 8 * (|bytes| - 1) + (upto - 1);
      assert i / 8 == |bytes| - 1 && i % 8 == upto - 1;
      var less := ByteBits(bytes, upto - 1);
      if GetBit(bytes, i) {
        assert ByteBits(bytes, upto) == less + {i};
      } else {
        assert ByteBits(bytes, upto) == less;
      }
    }
  }
}
