/** Fixed-size array of bits kept in bytes, with a first-fit allocator. */
module Bitmap {
  import opened Bytes

  /** `(w >> k) & 1`, that is `w & (1 << k)` as a condition. */
  predicate Bit(w: nat, k: nat) {
    if k == 0 then w % 2 == 1 else Bit(w / 2, k - 1)
  }

  /** Bit `k` is the one that counts 2 to the power `k`. */
  lemma {:induction false} BitIs(low: nat, k: nat, c: nat, high: nat)
    requires low < Pow2(k) && c < 2
    ensures Bit(low + Pow2(k) * (2 * high + c), k) <==> c == 1
  {
    if k > 0 {
      Doubled(Pow2(k - 1), 2 * high + c);
      BitIs(low / 2, k - 1, c, high);
      HalfOf(low, Pow2(k - 1) * (2 * high + c));
    }
  }

  lemma Doubled(p: nat, t: nat)
    ensures 2 * p * t == 2 * (p * t)
  {
  }

  lemma HalfOf(low: nat, x: nat)
    ensures (low + 2 * x) / 2 == low / 2 + x
  {
  }

  /** `w | (1 << k)` */
  function WithBit(w: nat, k: nat): nat {
    if k == 0 then (if w % 2 == 1 then w else w + 1) else 2 * WithBit(w / 2, k - 1) + w % 2
  }

  /** `w & ~(1 << k)` */
  function WithoutBit(w: nat, k: nat): nat {
    if k == 0 then (if w % 2 == 1 then w - 1 else w) else 2 * WithoutBit(w / 2, k - 1) + w % 2
  }

  lemma Pow2Of8()
    ensures Pow2(8) == 256
  {
    assert Pow2(4) == 16;
  }

  lemma {:induction false} BitOfWithBit(w: nat, k: nat, j: nat)
    ensures Bit(WithBit(w, k), j) <==> j == k || Bit(w, j)
  {
    if k > 0 && j > 0 {
      BitOfWithBit(w / 2, k - 1, j - 1);
    }
  }

  lemma {:induction false} BitOfWithoutBit(w: nat, k: nat, j: nat)
    ensures Bit(WithoutBit(w, k), j) <==> j != k && Bit(w, j)
  {
    if k > 0 && j > 0 {
      BitOfWithoutBit(w / 2, k - 1, j - 1);
    }
  }

  lemma {:induction false} BitOpsFit(w: nat, k: nat, bits: nat)
    requires w < Pow2(bits) && k < bits
    ensures WithBit(w, k) < Pow2(bits) && WithoutBit(w, k) < Pow2(bits)
  {
    var half := Pow2(bits - 1);
    assert Pow2(bits) == 2 * half;
    assert w == 2 * (w / 2) + w % 2;
    if k > 0 {
      BitOpsFit(w / 2, k - 1, bits - 1);
      assert WithBit(w / 2, k - 1) < half && WithoutBit(w / 2, k - 1) < half;
    }
  }

  lemma {:induction false} BitsDetermineWord(w: nat, x: nat, bits: nat)
    requires w < Pow2(bits) && x < Pow2(bits)
    requires forall k: nat :: k < bits ==> Bit(w, k) == Bit(x, k)
    ensures w == x
  {
    if bits > 0 {
      assert Bit(w, 0) == Bit(x, 0);
      forall k: nat | k < bits - 1 ensures Bit(w / 2, k) == Bit(x / 2, k) {
        assert Bit(w, k + 1) == Bit(x, k + 1);
      }
      BitsDetermineWord(w / 2, x / 2, bits - 1);
    }
  }

  lemma {:induction false} AllOnes(bits: nat, k: nat)
    requires k < bits
    ensures Bit(Pow2(bits) - 1, k)
  {
    assert Pow2(bits) >= 2;
    if k > 0 {
      assert (Pow2(bits) - 1) / 2 == Pow2(bits - 1) - 1;
      AllOnes(bits - 1, k - 1);
    }
  }

  /** Only the byte 0xff has all bits set. */
  lemma FullByte(w: byte)
    requires w != 255
    ensures exists k: nat :: k < 8 && !Bit(w, k)
  {
    Pow2Of8();
    if forall k: nat :: k < 8 ==> Bit(w, k) {
      forall k: nat | k < 8 ensures Bit(w, k) == Bit(255, k) {
        AllOnes(8, k);
      }
      BitsDetermineWord(w, 255, 8);
    }
  }

  lemma ZeroHasNoBits(k: nat)
    ensures !Bit(0, k)
  {
  }

  /** The first `n` bits of a byte array. */
  function BitsOf(v: seq<byte>, n: nat): (s: seq<bool>)
    requires n <= 8 * |v|
    ensures |s| == n
  {
    seq(n, i requires 0 <= i < n => Bit(v[i / 8], i % 8))
  }

  /** The word with the given bits, lowest first. */
  function WordOf(s: seq<bool>): nat {
    if s == [] then 0 else 2 * WordOf(s[1..]) + if s[0] then 1 else 0
  }

  lemma {:induction false} BitOfWordOf(s: seq<bool>, k: nat)
    ensures WordOf(s) < Pow2(|s|)
    ensures Bit(WordOf(s), k) <==> k < |s| && s[k]
  {
    if s != [] {
      assert Pow2(|s|) == 2 * Pow2(|s| - 1);
      BitOfWordOf(s[1..], if k == 0 then 0 else k - 1);
      assert WordOf(s) / 2 == WordOf(s[1..]);
      assert 0 < k < |s| ==> s[k] == s[1..][k - 1];
    } else {
      ZeroHasNoBits(k);
    }
  }

  /** Byte `i` of the bits. */
  function ByteAt(bits: seq<bool>, i: nat): (b: byte)
    requires 8 * i + 8 <= |bits|
  {
    Pow2Of8();
    BitOfWordOf(bits[8 * i..8 * i + 8], 0);
    WordOf(bits[8 * i..8 * i + 8])
  }

  /** A block of bits, as it is kept on disk. */
  function BitsBlock(bits: seq<bool>): Block
    requires |bits| == 4096
  {
    seq(512, i requires 0 <= i < 512 => ByteAt(bits, i))
  }

  /** Block `nr` of a freemap. */
  function FreemapBlock(bits: seq<bool>, nr: nat): Block
    requires 4096 * (nr + 1) <= |bits|
  {
    BitsBlock(bits[4096 * nr..4096 * (nr + 1)])
  }

  /** Bytes are determined by their bits. */
  lemma ByteOfBits(b: byte, s: seq<bool>)
    requires |s| == 8 && forall k: nat :: k < 8 ==> s[k] == Bit(b, k)
    ensures WordOf(s) == b
  {
    forall k: nat | k < 8 ensures Bit(WordOf(s), k) == Bit(b, k) {
      BitOfWordOf(s, k);
    }
    Pow2Of8();
    BitOfWordOf(s, 0);
    BitsDetermineWord(WordOf(s), b, 8);
  }

  lemma FreemapBytes(v: seq<byte>, n: nat, nr: nat)
    requires n == 8 * |v| && 4096 * (nr + 1) <= n
    ensures v[512 * nr..512 * (nr + 1)] == FreemapBlock(BitsOf(v, n), nr)
  {
    var bits := BitsOf(v, n)[4096 * nr..4096 * (nr + 1)];
    forall i | 0 <= i < 512 ensures v[512 * nr + i] == BitsBlock(bits)[i] {
      var s := bits[8 * i..8 * i + 8];
      forall k: nat | k < 8 ensures s[k] == Bit(v[512 * nr + i], k) {
        var j := 4096 * nr + 8 * i + k;
        assert s[k] == BitsOf(v, n)[j];
        assert j / 8 == 512 * nr + i && j % 8 == k;
      }
      ByteOfBits(v[512 * nr + i], s);
    }
  }

  /** Reading a freemap block back gives the bits that were written. */
  lemma BitsOfBitsBlock(bits: seq<bool>)
    requires |bits| == 4096
    ensures BitsOf(BitsBlock(bits), 4096) == bits
  {
    forall j: nat | j < 4096 ensures BitsOf(BitsBlock(bits), 4096)[j] == bits[j] {
      var i, k := j / 8, j % 8;
      BitOfWordOf(bits[8 * i..8 * i + 8], k);
      assert bits[8 * i..8 * i + 8][k] == bits[j];
      assert BitsBlock(bits)[i] == ByteAt(bits, i);
    }
  }

  /** The least index from `i` on that is clear, or the length when there is none. */
  function FirstClear(s: seq<bool>, i: nat): (r: nat)
    requires i <= |s|
    ensures i <= r <= |s|
    ensures r < |s| ==> !s[r]
    ensures forall j :: i <= j < r ==> s[j]
    decreases |s| - i
  {
    if i == |s| || !s[i] then i else FirstClear(s, i + 1)
  }

  lemma FirstClearIs(s: seq<bool>, r: nat)
    requires r <= |s| && (r < |s| ==> !s[r]) && forall j :: 0 <= j < r ==> s[j]
    ensures FirstClear(s, 0) == r
  {
  }

  function Ones(s: seq<bool>): nat {
    if s == [] then 0 else Ones(s[..|s| - 1]) + if s[|s| - 1] then 1 else 0
  }

  /** Number of clear bits. */
  function Zeros(s: seq<bool>): (n: nat)
  {
    OnesBound(s);
    |s| - Ones(s)
  }

  lemma {:induction false} OnesBound(s: seq<bool>)
    ensures Ones(s) <= |s|
  {
    if s != [] {
      OnesBound(s[..|s| - 1]);
    }
  }

  lemma {:induction false} OnesUpdate(s: seq<bool>, i: nat, b: bool)
    requires i < |s|
    ensures Ones(s[i := b]) == Ones(s) - (if s[i] then 1 else 0) + (if b then 1 else 0)
  {
    var n := |s| - 1;
    if i == n {
      assert s[i := b][..n] == s[..n];
    } else {
      assert s[i := b][..n] == s[..n][i := b];
      OnesUpdate(s[..n], i, b);
    }
  }

  lemma {:induction false} AllSet(s: seq<bool>)
    ensures Zeros(s) == 0 <==> forall i :: 0 <= i < |s| ==> s[i]
  {
    if s != [] {
      var n := |s| - 1;
      AllSet(s[..n]);
      OnesBound(s[..n]);
      if Zeros(s) == 0 {
        assert forall i :: 0 <= i < n ==> s[i] == s[..n][i];
      }
    }
  }

  /** The first-fit allocator takes from the first `n` bits as long as one of them is clear. */
  lemma FirstFit(s: seq<bool>, n: nat)
    requires n <= |s| && FirstClear(s, 0) < |s|
    ensures var i := FirstClear(s, 0);
            && (Zeros(s[..n]) > 0 <==> i < n)
            && Zeros(s[i := true][..n]) == if i < n then Zeros(s[..n]) - 1 else 0
  {
    var i := FirstClear(s, 0);
    AllSet(s[..n]);
    if i < n {
      assert s[..n][i] == s[i];
      assert s[i := true][..n] == s[..n][i := true];
      OnesUpdate(s[..n], i, true);
    } else {
      assert s[i := true][..n] == s[..n];
    }
  }

  lemma {:induction false} ZerosOfPrefix(s: seq<bool>, n: nat)
    requires n <= |s|
    ensures Zeros(s[..n]) <= Zeros(s)
  {
    if n < |s| {
      var m := |s| - 1;
      assert s[..m][..n] == s[..n];
      ZerosOfPrefix(s[..m], n);
    } else {
      assert s[..n] == s;
    }
  }

  lemma {:induction false} ZerosSplit(s: seq<bool>, n: nat)
    requires n <= |s|
    ensures Zeros(s) <= Zeros(s[..n]) + |s| - n
  {
    if n < |s| {
      var m := |s| - 1;
      assert s[..m][..n] == s[..n];
      ZerosSplit(s[..m], n);
    } else {
      assert s[..n] == s;
    }
  }

  class Bitmap {
    const nbits: nat
    const v: array<byte>

    /** Leftover bits of the last byte are in use, so that they are never handed out. */
    ghost predicate Valid()
      reads v
    {
      && v.Length == (nbits + 7) / 8
      && forall i: nat :: nbits <= i < 8 * v.Length ==> Bit(v[i / 8], i % 8)
    }

    function Bits(): (s: seq<bool>)
      requires Valid()
      reads v
      ensures |s| == nbits
    {
      BitsOf(v[..], nbits)
    }

    /** A map of `n` clear bits. */
    constructor (n: nat)
      ensures nbits == n && fresh(v)
      ensures Valid() && Bits() == seq(n, _ => false)
    {
      var words := (n + 7) / 8;
      var data := new byte[words](_ => 0);
      nbits := n;
      v := data;
      new;
      forall k: nat ensures !Bit(0, k) {
        ZeroHasNoBits(k);
      }
      if n / 8 < words {
        var ix := words - 1;
        var j := n - ix * 8;
        while j < 8
          invariant n - ix * 8 <= j <= 8
          invariant forall i :: 0 <= i < ix ==> v[i] == 0
          invariant forall k: nat :: k < 8 ==> (Bit(v[ix], k) <==> n - ix * 8 <= k < j)
        {
          Pow2Of8();
          BitOpsFit(v[ix], j, 8);
          ghost var w := v[ix];
          v[ix] := WithBit(v[ix], j);
          forall k: nat | k < 8 ensures Bit(v[ix], k) <==> n - ix * 8 <= k < j + 1 {
            BitOfWithBit(w, j, k);
          }
          j := j + 1;
        }
        forall i: nat | nbits <= i < 8 * v.Length ensures Bit(v[i / 8], i % 8) {
          assert i / 8 == ix;
        }
      }
    }

    /** `read_blocks` straight into the bytes of the map. */
    method Load(at: nat, data: seq<byte>)
      requires Valid() && nbits == 8 * v.Length && at + |data| <= v.Length
      modifies v
      ensures Valid() && v[..] == old(v[..at]) + data + old(v[at + |data|..])
    {
      var i := 0;
      while i < |data|
        invariant 0 <= i <= |data|
        invariant forall k :: 0 <= k < v.Length ==> v[k] == if at <= k < at + i then data[k - at] else old(v[k])
      {
        v[at + i] := data[i];
        i := i + 1;
      }
    }

    method IsSet(index: nat) returns (r: bool)
      requires Valid() && index < nbits
      ensures r == Bits()[index]
    {
      r := Bit(v[index / 8], index % 8);
    }


    /** Takes the first clear bit. */
    method Alloc() returns (ok: bool, index: nat)
      requires Valid()
      modifies v
      ensures Valid()
      ensures ok <==> FirstClear(old(Bits()), 0) < nbits
      ensures ok ==> index == FirstClear(old(Bits()), 0) && Bits() == old(Bits())[index := true]
      ensures !ok ==> v[..] == old(v[..]) && forall i :: 0 <= i < nbits ==> Bits()[i]
    {
      index := 0;
      var ix := 0;
      while ix < v.Length
        invariant 0 <= ix <= v.Length
        invariant v[..] == old(v[..])
        invariant forall i: nat :: i < 8 * ix ==> Bit(v[i / 8], i % 8)
      {
        if v[ix] != 255 {
          FullByte(v[ix]);
          var offset := 0;
          while Bit(v[ix], offset)
            invariant 0 <= offset < 8
            invariant forall k: nat :: k < offset ==> Bit(v[ix], k)
            decreases 8 - offset
          {
            offset := offset + 1;
          }
          index := ix * 8 + offset;
          assert index / 8 == ix && index % 8 == offset;
          assert index < nbits;
          FirstClearIs(Bits(), index);
          Put(index, true);
          return true, index;
        }
        forall i: nat | 8 * ix <= i < 8 * (ix + 1) ensures Bit(v[i / 8], i % 8) {
          Pow2Of8();
          AllOnes(8, i % 8);
        }
        ix := ix + 1;
      }
      ok := false;
      FirstClearIs(Bits(), nbits);
    }

    /** `v[ix] |= mask` or `v[ix] &= ~mask` for one bit. */
    method Put(index: nat, b: bool)
      requires Valid() && index < nbits
      modifies v
      ensures Valid() && Bits() == old(Bits())[index := b]
    {
      var ix, offset := index / 8, index % 8;
      Pow2Of8();
      BitOpsFit(v[ix], offset, 8);
      v[ix] := if b then WithBit(v[ix], offset) else WithoutBit(v[ix], offset);
      forall i: nat | i < 8 * v.Length
        ensures Bit(v[i / 8], i % 8) == if i == index then b else old(Bit(v[i / 8], i % 8))
      {
        if i / 8 == ix {
          BitOfWithBit(old(v[ix]), offset, i % 8);
          BitOfWithoutBit(old(v[ix]), offset, i % 8);
        }
      }
    }

    /** Sets a clear bit; the C code asserts that it is clear. */
    method Mark(index: nat)
      requires Valid() && index < nbits && !Bits()[index]
      modifies v
      ensures Valid() && Bits() == old(Bits())[index := true]
    {
      Put(index, true);
    }

    /** Clears a set bit; the C code asserts that it is set. */
    method Unmark(index: nat)
      requires Valid() && index < nbits && Bits()[index]
      modifies v
      ensures Valid() && Bits() == old(Bits())[index := false]
    {
      Put(index, false);
    }

    method Equal(b: Bitmap) returns (r: bool)
      requires Valid() && b.Valid()
      ensures r <==> Bits() == b.Bits()
    {
      if nbits != b.nbits {
        return false;
      }
      var ix := 0;
      while ix < v.Length
        invariant 0 <= ix <= v.Length
        invariant v[..ix] == b.v[..ix]
      {
        if v[ix] != b.v[ix] {
          if Bits() == b.Bits() {
            SameByte(b, ix);
          }
          return false;
        }
        ix := ix + 1;
      }
      assert v[..] == v[..ix] && b.v[..] == b.v[..ix];
      r := true;
    }

    lemma SameByte(b: Bitmap, ix: nat)
      requires Valid() && b.Valid() && nbits == b.nbits && ix < v.Length && Bits() == b.Bits()
      ensures v[ix] == b.v[ix]
    {
      forall k: nat | k < 8 ensures Bit(v[ix], k) == Bit(b.v[ix], k) {
        var i := 8 * ix + k;
        assert i / 8 == ix && i % 8 == k;
        if i < nbits {
          assert Bits()[i] == b.Bits()[i];
        }
      }
      Pow2Of8();
      BitsDetermineWord(v[ix], b.v[ix], 8);
    }

    method NrAllocated() returns (nr: nat)
      requires Valid()
      ensures nr == Ones(Bits())
    {
      nr := 0;
      var i := 0;
      while i < nbits
        invariant 0 <= i <= nbits
        invariant nr == Ones(Bits()[..i])
      {
        assert Bits()[..i + 1][..i] == Bits()[..i];
        var set_ := IsSet(i);
        if set_ {
          nr := nr + 1;
        }
        i := i + 1;
      }
      assert Bits()[..i] == Bits();
    }
  }
}
