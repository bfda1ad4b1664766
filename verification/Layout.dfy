/** Sizes and places of the on-disk regions, and the dinode format. */
module Layout {
  import opened Bytes

  const INODE_FREEMAP_START: int := 1
  const BLOCK_FREEMAP_START: int := 2
  const CSUM_START: int := 4
  const CSUM_TABLE_SIZE: int := 60
  const INODE_START: int := 64
  const NR_INODE_BLOCKS: int := 128
  const DATA_START: int := 192

  /** Bits in the block freemap: two blocks of bits. */
  const NR_BLOCK_BITS: int := 8192
  /** Bits in the inode freemap: one block of bits. */
  const NR_INODE_BITS: int := 4096
  /** Inodes that the inode blocks have room for. */
  const NR_INODES: int := 2048
  /** Entries that the checksum table has room for. */
  const MAX_NR_CSUMS: int := 7680
  /** Blocks on the device: as many data blocks as the freemap has bits. */
  const DISK_BLOCKS: int := 8384

  const NR_DIRECT: int := 4
  const NR_MAPPED: int := 132
  const INODES_PER_BLOCK: int := 16

  const I_NONE: int := 0
  const I_FILE: int := 1
  const I_DIR: int := 2

  const ENOENT: int := 2
  const EEXIST: int := 17
  const ENOTDIR: int := 20
  const EISDIR: int := 21
  const EINVAL: int := 22
  const EFBIG: int := 27
  const ENOSPC: int := 28
  const ENOTEMPTY: int := 39

  /** Assertions of the program that some runs do reach and violate. */
  datatype Assertion =
    | CsumSlot      // a data block number has no slot in the checksum table
    | NoIndirect    // truncation found an indirect block that no mapped block needs
    | InodeSlot     // an inode number has no place in the inode blocks
    | CleanOnPut    // an inode with unsaved changes was put back
    | DirtyOnSync   // an inode without changes was synced
    | BlockMapped   // a read of nothing started past the last mapped block
    | WithinSize    // a write was to start past the end of the file

  /** A negative return value, success, or a violated assertion. */
  datatype Outcome = Done | Failed(errno: int) | Aborted(violated: Assertion)

  type Disk = d: seq<Block> | |d| == 8384 witness seq<Block>(8384, _ => ZERO_BLOCK)

  predicate IsData(p: int) {
    192 <= p < 8384
  }

  datatype DInodeData = DInode(typ: int32, size: int32, mtime: int32, direct: seq<int32>, indirect: int32)

  /** The inode as it is kept on disk. */
  type DInode = d: DInodeData | |d.direct| == 4 witness DInode(0, 0, 0, [0, 0, 0, 0], 0)

  const ZERO_DINODE: DInode := DInode(0, 0, 0, [0, 0, 0, 0], 0)

  function DInodeInts(d: DInode): (s: seq<int32>)
    ensures |s| == 8
  {
    [d.typ, d.size, d.mtime, d.direct[0], d.direct[1], d.direct[2], d.direct[3], d.indirect]
  }

  function OfDInodeInts(s: seq<int32>): DInode
    requires |s| == 8
  {
    DInode(s[0], s[1], s[2], [s[3], s[4], s[5], s[6]], s[7])
  }

  /** First `int` of inode `nr` inside its block. */
  function InodeWord(nr: nat): (w: nat)
    ensures w + 8 <= 128
  {
    8 * (nr % 16)
  }

  function DecodeDInode(b: Block, nr: nat): DInode {
    OfDInodeInts(ToInts(b)[InodeWord(nr)..InodeWord(nr) + 8])
  }

  /** `memcpy(block + offset, &in->in, sizeof(struct dinode))` */
  function EncodeDInode(b: Block, nr: nat, d: DInode): Block {
    var w := InodeWord(nr);
    OfInts(ToInts(b)[..w] + DInodeInts(d) + ToInts(b)[w + 8..])
  }

  lemma DecodeEncodeDInode(b: Block, nr: nat, d: DInode)
    ensures DecodeDInode(EncodeDInode(b, nr, d), nr) == d
  {
    hide IntAt, OfInts, EncodeInt, DecodeInt;
    var w := InodeWord(nr);
    var s := ToInts(b)[..w] + DInodeInts(d) + ToInts(b)[w + 8..];
    ToIntsOfInts(s);
    assert s[w..w + 8] == DInodeInts(d);
    assert OfDInodeInts(DInodeInts(d)).direct == d.direct;
  }

  lemma DecodeEncodeOther(b: Block, nr: nat, d: DInode, other: nat)
    requires other % 16 != nr % 16
    ensures DecodeDInode(EncodeDInode(b, nr, d), other) == DecodeDInode(b, other)
  {
    hide IntAt, OfInts, EncodeInt, DecodeInt;
    var w, o := InodeWord(nr), InodeWord(other);
    var s := ToInts(b)[..w] + DInodeInts(d) + ToInts(b)[w + 8..];
    ToIntsOfInts(s);
    assert s[o..o + 8] == ToInts(b)[o..o + 8];
  }

  /** Which word of an inode block holds which field, for reading and for writing; other words are left alone. */
  lemma FieldWords(b: Block, nr: nat, d: DInode)
    ensures var w, e := 8 * (nr % 16), DecodeDInode(b, nr);
            && e.typ == IntAt(b, w) && e.size == IntAt(b, w + 1) && e.mtime == IntAt(b, w + 2)
            && (forall l: nat :: l < 4 ==> e.direct[l] == IntAt(b, w + 3 + l)) && e.indirect == IntAt(b, w + 7)
    ensures var w, c := 8 * (nr % 16), EncodeDInode(b, nr, d);
            && IntAt(c, w) == d.typ && IntAt(c, w + 1) == d.size && IntAt(c, w + 2) == d.mtime
            && (forall l: nat :: l < 4 ==> IntAt(c, w + 3 + l) == d.direct[l]) && IntAt(c, w + 7) == d.indirect
            && (forall i: nat :: i < 128 && !(w <= i < w + 8) ==> IntAt(c, i) == IntAt(b, i))
  {
    hide IntAt, OfInts, EncodeInt, DecodeInt;
    var w := InodeWord(nr);
    var s := ToInts(b)[..w] + DInodeInts(d) + ToInts(b)[w + 8..];
    forall i: nat | i < 128 ensures IntAt(EncodeDInode(b, nr, d), i) == s[i] {
      IntAtOfInts(s, i);
    }
    assert s[w] == d.typ && s[w + 1] == d.size && s[w + 2] == d.mtime && s[w + 7] == d.indirect;
    assert forall l: nat :: l < 4 ==> s[w + 3 + l] == d.direct[l];
  }

  /** Writing two different inodes into one block commutes. */
  lemma EncodeDInodeCommutes(b: Block, i: nat, d: DInode, j: nat, e: DInode)
    requires i % 16 != j % 16
    ensures EncodeDInode(EncodeDInode(b, i, d), j, e) == EncodeDInode(EncodeDInode(b, j, e), i, d)
  {
    hide IntAt, OfInts, EncodeInt, DecodeInt;
    var u, w := InodeWord(i), InodeWord(j);
    var s, x, y := ToInts(b), DInodeInts(d), DInodeInts(e);
    var si := s[..u] + x + s[u + 8..];
    var sj := s[..w] + y + s[w + 8..];
    ToIntsOfInts(si);
    ToIntsOfInts(sj);
    assert si[..w] + y + si[w + 8..] == sj[..u] + x + sj[u + 8..];
  }

  /** The dinode of inode `nr` on the disk. */
  function DiskInode(disk: Disk, nr: nat): DInode
    requires nr < 2048
  {
    DecodeDInode(disk[INODE_START + nr / 16], nr)
  }

  /** Where inode `nr` is on the device: in the block that comes `nr / 16` blocks after the first inode block. */
  lemma InodePlace(disk: Disk, nr: nat)
    requires nr < 2048
    ensures var b, w, d := disk[64 + nr / 16], 8 * (nr % 16), DiskInode(disk, nr);
            && d.typ == IntAt(b, w) && d.size == IntAt(b, w + 1) && d.mtime == IntAt(b, w + 2)
            && (forall l: nat :: l < 4 ==> d.direct[l] == IntAt(b, w + 3 + l)) && d.indirect == IntAt(b, w + 7)
  {
    FieldWords(disk[64 + nr / 16], nr, ZERO_DINODE);
  }

  lemma ZeroBlockHoldsNoInode(nr: nat)
    ensures DecodeDInode(ZERO_BLOCK, nr) == ZERO_DINODE
  {
    forall i | 0 <= i < 128 ensures ToInts(ZERO_BLOCK)[i] == 0 {
      ZeroBlockInts(i);
    }
  }
}
