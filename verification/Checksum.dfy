/** Block checksums and the in-memory checksum table. */
module Checksum {
  import opened Bytes
  import Bits = Bitmap

  /** The low `bits` bits of `a ^ b`. */
  function XorBits(a: nat, b: nat, bits: nat): nat {
    if bits == 0 then 0
    else (if a % 2 == b % 2 then 0 else 1) + 2 * XorBits(a / 2, b / 2, bits - 1)
  }

  lemma Pow2Of32()
    ensures Pow2(32) == 0x1_0000_0000
  {
    assert Pow2(8) == 256;
    assert Pow2(12) == 16 * Pow2(8);
    assert Pow2(16) == 16 * Pow2(12);
    assert Pow2(20) == 16 * Pow2(16);
    assert Pow2(24) == 16 * Pow2(20);
    assert Pow2(28) == 16 * Pow2(24);
    assert Pow2(32) == 16 * Pow2(28);
  }

  lemma XorBitsBound(a: nat, b: nat, bits: nat)
    ensures XorBits(a, b, bits) < Pow2(bits)
  {
  }

  /** `a ^ b` on C ints. */
  function Xor(a: int32, b: int32): int32 {
    XorBitsBound(Unsigned(a), Unsigned(b), 32);
    Pow2Of32();
    Signed(XorBits(Unsigned(a), Unsigned(b), 32))
  }

  function XorOf(s: seq<int32>): int32 {
    if s == [] then 0 else Xor(XorOf(s[..|s| - 1]), s[|s| - 1])
  }

  /** The checksum of a block: the XOR of its 128 words. */
  function Csum(b: Block): int32 {
    XorOf(ToInts(b))
  }

  method CalculateCsum(block: Block) returns (csum: int32)
    ensures csum == Csum(block)
  {
    hide Xor, IntAt;
    csum := 0;
    var i := 0;
    while i < 128
      invariant 0 <= i <= 128
      invariant csum == XorOf(ToInts(block)[..i])
    {
      assert ToInts(block)[..i + 1][..i] == ToInts(block)[..i];
      csum := Xor(csum, IntAt(block, i));
      i := i + 1;
    }
    assert ToInts(block)[..128] == ToInts(block);
  }

  lemma XorBitsCommutes(a: nat, b: nat, bits: nat)
    ensures XorBits(a, b, bits) == XorBits(b, a, bits)
  {
  }

  lemma XorBitsCancels(a: nat, b: nat, c: nat, bits: nat)
    requires b < Pow2(bits) && c < Pow2(bits)
    requires XorBits(a, b, bits) == XorBits(a, c, bits)
    ensures b == c
  {
    if bits > 0 {
      XorBitsCancels(a / 2, b / 2, c / 2, bits - 1);
    }
  }

  lemma XorCancels(a: int32, b: int32, c: int32)
    ensures Xor(a, b) == Xor(a, c) <==> b == c
    ensures Xor(b, a) == Xor(c, a) <==> b == c
  {
    var x, y, z := Unsigned(a), Unsigned(b), Unsigned(c);
    Pow2Of32();
    XorBitsCommutes(x, y, 32);
    XorBitsCommutes(x, z, 32);
    if XorBits(x, y, 32) == XorBits(x, z, 32) {
      XorBitsCancels(x, y, z, 32);
    }
  }

  /** A block with exactly one changed word never keeps its checksum. */
  lemma {:induction false} OneWordIsDetected(s: seq<int32>, i: nat, v: int32)
    requires i < |s|
    ensures XorOf(s[i := v]) == XorOf(s) <==> v == s[i]
  {
    hide Xor;
    var n := |s| - 1;
    if i == n {
      assert s[i := v][..n] == s[..n];
      XorCancels(XorOf(s[..n]), v, s[n]);
    } else {
      assert s[i := v][..n] == s[..n][i := v];
      OneWordIsDetected(s[..n], i, v);
      XorCancels(s[n], XorOf(s[..n][i := v]), XorOf(s[..n]));
    }
  }

  // What a checksum tells of its block

  /** Bit `k` of an exclusive or is set exactly when the bits `k` of the two differ. */
  lemma {:induction false} XorBitsAt(a: nat, b: nat, bits: nat, k: nat)
    requires k < bits
    ensures Bits.Bit(XorBits(a, b, bits), k) <==> Bits.Bit(a, k) != Bits.Bit(b, k)
  {
    if k > 0 {
      XorBitsAt(a / 2, b / 2, bits - 1, k - 1);
    }
  }

  lemma XorAt(a: int32, b: int32, k: nat)
    requires k < 32
    ensures Bits.Bit(Unsigned(Xor(a, b)), k) <==> Bits.Bit(Unsigned(a), k) != Bits.Bit(Unsigned(b), k)
  {
    hide Bits.Bit;
    XorBitsAt(Unsigned(a), Unsigned(b), 32, k);
    XorBitsBound(Unsigned(a), Unsigned(b), 32);
    Pow2Of32();
  }

  /** The words of `s` that have bit `k`. */
  function WithBitSet(s: seq<int32>, k: nat): set<nat> {
    set i: nat | i < |s| && Bits.Bit(Unsigned(s[i]), k)
  }

  lemma {:induction false} XorOfAt(s: seq<int32>, k: nat)
    requires k < 32
    ensures Bits.Bit(Unsigned(XorOf(s)), k) <==> |WithBitSet(s, k)| % 2 == 1
  {
    hide Xor, Bits.Bit, WithBitSet;
    if s == [] {
      NoneSet(k);
      Bits.ZeroHasNoBits(k);
    } else {
      var n := |s| - 1;
      XorOfAt(s[..n], k);
      XorAt(XorOf(s[..n]), s[n], k);
      OneMore(s, k);
    }
  }

  lemma NoneSet(k: nat)
    ensures WithBitSet([], k) == {}
  {
  }

  lemma OneMore(s: seq<int32>, k: nat)
    requires s != []
    ensures var n := |s| - 1;
            |WithBitSet(s, k)| == |WithBitSet(s[..n], k)| + if Bits.Bit(Unsigned(s[n]), k) then 1 else 0
  {
    hide Bits.Bit, Unsigned;
    var n := |s| - 1;
    var was, now := WithBitSet(s[..n], k), WithBitSet(s, k);
    assert now == was + if Bits.Bit(Unsigned(s[n]), k) then {n} else {};
  }

  /** The words of a block that have bit `k`. */
  function WordsWith(b: Block, k: nat): set<nat> {
    set i: nat | i < 128 && Bits.Bit(Unsigned(IntAt(b, i)), k)
  }

  /** Bit `k` of the checksum is set exactly when an odd number of the 128 words of the block have it. */
  lemma CsumBits(b: Block, k: nat)
    requires k < 32
    ensures Bits.Bit(Unsigned(Csum(b)), k)
      <==> |WordsWith(b, k)| % 2 == 1
  {
    hide IntAt, XorOf, Bits.Bit;
    XorOfAt(ToInts(b), k);
    assert WithBitSet(ToInts(b), k) == WordsWith(b, k);
  }

  lemma WordSet(b: Block, i: nat, v: int32)
    requires i < 128
    ensures ToInts(SetInt(b, i, v)) == ToInts(b)[i := v]
  {
    hide IntAt, SetInt;
    forall j | 0 <= j < 128 ensures ToInts(SetInt(b, i, v))[j] == ToInts(b)[i := v][j] {
      IntAtSetInt(b, i, v, j);
    }
  }

  /** Changing one word of a block, whichever of the 128, changes its checksum. */
  lemma ChangedWordIsSeen(b: Block, i: nat, v: int32)
    requires i < 128
    ensures Csum(SetInt(b, i, v)) == Csum(b) <==> v == IntAt(b, i)
  {
    hide IntAt, SetInt, XorOf;
    WordSet(b, i, v);
    OneWordIsDetected(ToInts(b), i, v);
  }

  /** A block with a single word that is not zero has that word as its checksum. */
  lemma SingleWord(i: nat, v: int32)
    requires i < 128
    ensures Csum(SetInt(ZERO_BLOCK, i, v)) == v
  {
    hide IntAt, SetInt, XorOf;
    WordSet(ZERO_BLOCK, i, v);
    forall j: nat | j < 128 ensures ToInts(ZERO_BLOCK)[j] == 0 {
      ZeroBlockInts(j);
    }
    XorOfSingle(ToInts(ZERO_BLOCK)[i := v], i);
  }

  lemma {:induction false} XorOfSingle(s: seq<int32>, i: nat)
    requires forall j: nat :: j < |s| && j != i ==> s[j] == 0
    ensures XorOf(s) == if i < |s| then s[i] else 0
  {
    hide Xor;
    if s != [] {
      var n := |s| - 1;
      XorOfSingle(s[..n], i);
      XorZero(s[n]);
      XorZero(XorOf(s[..n]));
    }
  }

  lemma XorZero(a: int32)
    ensures Xor(a, 0) == a && Xor(0, a) == a
  {
    var x := Unsigned(a);
    Pow2Of32();
    XorBitsZero(x, 32);
    XorBitsCommutes(x, 0, 32);
  }

  lemma {:induction false} XorBitsZero(a: nat, bits: nat)
    requires a < Pow2(bits)
    ensures XorBits(a, 0, bits) == a
  {
    if bits > 0 {
      XorBitsZero(a / 2, bits - 1);
    }
  }
}
