/** Bytes, 32-bit little-endian integers and 512-byte device blocks, as the C code's casts see them. */
module Bytes {
  type byte = x: int | 0 <= x < 256

  const INT_MIN: int := -0x8000_0000
  const INT_LIMIT: int := 0x8000_0000

  /** A C `int`. */
  type int32 = v: int | -0x8000_0000 <= v < 0x8000_0000

  const BLOCK_SIZE: int := 512
  const INTS_PER_BLOCK: int := 128

  type Block = b: seq<byte> | |b| == 512 witness seq(512, _ => 0)

  function Zeroes(): Block {
    seq(512, _ => 0)
  }

  const ZERO_BLOCK: Block := Zeroes()

  function Max(a: int, b: int): int {
    if a >= b then a else b
  }

  function Min(a: int, b: int): int {
    if a <= b then a else b
  }

  function Pow2(bits: nat): (r: nat)
    ensures r >= 1
  {
    if bits == 0 then 1 else 2 * Pow2(bits - 1)
  }

  /** DIVROUNDUP(a, BLOCK_SIZE). */
  function BlocksFor(size: int): int {
    (size + 511) / 512
  }

  function Unsigned(v: int32): (u: int)
    ensures 0 <= u < 0x1_0000_0000
  {
    if v >= 0 then v else v + 0x1_0000_0000
  }

  function Signed(u: int): (v: int32)
    requires 0 <= u < 0x1_0000_0000
    ensures Unsigned(v) == u
  {
    if u >= 0x8000_0000 then u - 0x1_0000_0000 else u
  }

  /** The four bytes of an `int`, least significant first. */
  function EncodeInt(v: int32): (s: seq<byte>)
    ensures |s| == 4
  {
    var u := Unsigned(v);
    [u % 256, u / 256 % 256, u / 65536 % 256, u / 16777216]
  }

  function FromBytes(a: int, b: int, c: int, d: int): int {
    a + 256 * b + 65536 * c + 16777216 * d
  }

  function DecodeInt(s: seq<byte>): (v: int32)
    requires |s| == 4
  {
    Signed(FromBytes(s[0], s[1], s[2], s[3]))
  }

  lemma SplitsIntoBytes(u: int)
    requires 0 <= u
    ensures u == FromBytes(u % 256, u / 256 % 256, u / 65536 % 256, u / 16777216)
  {
    assert u / 65536 == u / 256 / 256;
    assert u / 16777216 == u / 65536 / 256;
  }

  lemma DecodeEncodeInt(v: int32)
    ensures DecodeInt(EncodeInt(v)) == v
  {
    SplitsIntoBytes(Unsigned(v));
  }

  lemma AssemblesFromBytes(a: byte, b: byte, c: byte, d: byte)
    ensures var u := FromBytes(a, b, c, d);
            u % 256 == a && u / 256 % 256 == b && u / 65536 % 256 == c && u / 16777216 == d
  {
    var u := FromBytes(a, b, c, d);
    assert u / 256 == b + 256 * c + 65536 * d;
    assert u / 65536 == c + 256 * d;
  }

  lemma EncodeDecodeInt(s: seq<byte>)
    requires |s| == 4
    ensures EncodeInt(DecodeInt(s)) == s
  {
    AssemblesFromBytes(s[0], s[1], s[2], s[3]);
  }

  /** `((int *)block)[i]` */
  function IntAt(b: Block, i: nat): int32
    requires i < 128
  {
    DecodeInt(b[4 * i..4 * i + 4])
  }

  /** The least significant byte of a word comes first. */
  lemma IntAtIs(b: Block, i: nat)
    requires i < 128
    ensures var x: int, y: int, z: int, u: int := b[4 * i], b[4 * i + 1], b[4 * i + 2], b[4 * i + 3];
            Unsigned(IntAt(b, i)) == x + 256 * y + 65536 * z + 16777216 * u
    ensures IntAt(b, i) >= 0 ==> Unsigned(IntAt(b, i)) == IntAt(b, i)
    ensures IntAt(b, i) < 0 ==> Unsigned(IntAt(b, i)) == IntAt(b, i) + 0x1_0000_0000
  {
  }

  /** `((int *)block)[i] = v` */
  function SetInt(b: Block, i: nat, v: int32): Block
    requires i < 128
  {
    b[..4 * i] + EncodeInt(v) + b[4 * i + 4..]
  }

  lemma IntAtSetInt(b: Block, i: nat, v: int32, j: nat)
    requires i < 128 && j < 128
    ensures IntAt(SetInt(b, i, v), j) == if j == i then v else IntAt(b, j)
  {
    var c := SetInt(b, i, v);
    if j == i {
      assert c[4 * i..4 * i + 4] == EncodeInt(v);
      DecodeEncodeInt(v);
    } else {
      assert c[4 * j..4 * j + 4] == b[4 * j..4 * j + 4];
    }
  }

  /** The block that holds 128 given integers. */
  function OfInts(s: seq<int32>): Block
    requires |s| == 128
  {
    seq(512, k requires 0 <= k < 512 => EncodeInt(s[k / 4])[k % 4])
  }

  function ToInts(b: Block): (s: seq<int32>)
    ensures |s| == 128
  {
    seq(128, i requires 0 <= i < 128 => IntAt(b, i))
  }

  lemma IntAtOfInts(s: seq<int32>, i: nat)
    requires |s| == 128 && i < 128
    ensures IntAt(OfInts(s), i) == s[i]
  {
    var b := OfInts(s);
    assert b[4 * i..4 * i + 4] == EncodeInt(s[i]) by {
      forall k | 0 <= k < 4 ensures b[4 * i + k] == EncodeInt(s[i])[k] {
        assert (4 * i + k) / 4 == i && (4 * i + k) % 4 == k;
      }
    }
    DecodeEncodeInt(s[i]);
  }

  lemma ToIntsOfInts(s: seq<int32>)
    requires |s| == 128
    ensures ToInts(OfInts(s)) == s
  {
    forall i | 0 <= i < 128 ensures ToInts(OfInts(s))[i] == s[i] {
      IntAtOfInts(s, i);
    }
  }

  lemma OfIntsToInts(b: Block)
    ensures OfInts(ToInts(b)) == b
  {
    forall k | 0 <= k < 512 ensures OfInts(ToInts(b))[k] == b[k] {
      OfIntsByte(b, k / 4, k % 4);
    }
  }

  lemma OfIntsByte(b: Block, i: nat, j: nat)
    requires i < 128 && j < 4
    ensures OfInts(ToInts(b))[4 * i + j] == b[4 * i + j]
  {
    hide EncodeInt, DecodeInt;
    var word := b[4 * i..4 * i + 4];
    EncodeDecodeInt(word);
    assert (4 * i + j) / 4 == i && (4 * i + j) % 4 == j;
    assert ToInts(b)[i] == IntAt(b, i) == DecodeInt(word);
    assert word[j] == b[4 * i + j];
  }

  lemma ZeroBlockInts(i: nat)
    requires i < 128
    ensures IntAt(ZERO_BLOCK, i) == 0
  {
    assert ZERO_BLOCK[4 * i..4 * i + 4] == [0, 0, 0, 0];
    assert DecodeInt([0, 0, 0, 0]) == 0;
  }

  /** The bytes of `s` with `src` copied over it at `at`, growing when `src` reaches past the end. */
  function Overlay(s: seq<byte>, at: nat, src: seq<byte>): (r: seq<byte>)
    requires at <= |s|
    ensures |r| == Max(|s|, at + |src|)
  {
    if at + |src| >= |s| then s[..at] + src else s[..at] + src + s[at + |src|..]
  }
}
