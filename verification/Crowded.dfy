/** Almost full file systems: consistent ones in which free blocks, and free blocks with a checksum slot, are few. */
module Crowded {
  import opened Bytes
  import opened Layout
  import opened Checksum
  import opened Volume
  import opened Bitmap
  import opened Super
  import opened Steps
  import opened Inodes
  import opened World
  import opened Dirents
  import opened Tree

  /** Files 1 up to 510 have 15 blocks each. Their indirect blocks, and that of the root, have no checksum slots. */
  const BIG: nat := 15
  /** The root is a directory of 515 files, and takes 12 blocks. */
  const NR_NAMED: nat := 515
  const ROOT_SIZE: nat := 5686
  /** The file that the examples are about. */
  const FIRST: nat := 511

  /** Place of the first data block of file `i`. */
  function Base(i: nat): nat {
    if i == 0 then 0 else if i < FIRST then BIG * (i + 1) else if i <= 514 then 12 + 4 * (i - FIRST) else 27
  }

  /** Number of its blocks: the first file has `b`, and four small ones fill up the places behind it but for `3 - t`. */
  function LenOf(b: nat, t: nat, i: nat): nat {
    if i == 0 then 12 else if i < FIRST then BIG else if i == FIRST then b
    else if i < 514 then 4 else if i == 514 then 3 else if i == 515 then t else 0
  }

  predicate HasTable(i: int) {
    0 <= i < FIRST
  }

  /** Entry `j` of the indirect block of file `i`. */
  function Entry(i: nat, j: nat): int32
    requires HasTable(i)
  {
    if j < LenOf(0, 0, i) - 4 then DATA_START + Base(i) + 4 + j else 0
  }

  function TableOf(i: nat): (s: seq<int32>)
    requires HasTable(i)
    ensures |s| == 128
  {
    seq(128, j requires 0 <= j < 128 => Entry(i, j))
  }

  function IndirectOf(i: nat): int {
    if HasTable(i) then DATA_START + MAX_NR_CSUMS + 1 + i else 0
  }

  /** Direct slot `l` of file `i`. */
  function Direct(b: nat, t: nat, i: nat, l: nat): int32
    requires b <= 4 && t <= 3
  {
    if l < LenOf(b, t, i) then DATA_START + Base(i) + l else 0
  }

  function SizeOf(b: nat, t: nat, i: nat): nat {
    if i == 0 then ROOT_SIZE else 512 * LenOf(b, t, i)
  }

  function InodeOf(b: nat, t: nat, i: nat): DInode
    requires b <= 4 && t <= 3
  {
    DInode(if i == 0 then I_DIR else if i <= NR_NAMED then I_FILE else I_NONE, SizeOf(b, t, i), 0,
           seq(4, l requires 0 <= l < 4 => Direct(b, t, i, l)), IndirectOf(i))
  }

  // The root directory

  /** Two letters and the terminator. */
  function NameOf(i: nat): seq<byte>
    requires i <= NR_NAMED
  {
    [97 + i / 26, 97 + i % 26, 0]
  }

  /** The name of the example file. */
  function Name(): seq<byte> {
    NameOf(FIRST)
  }

  /** The records of the first `n` files. */
  function Records(n: nat): (ds: seq<Dirent>)
    requires n <= NR_NAMED
    ensures |ds| == n && forall k :: 0 <= k < n ==> ds[k] == Dirent(NameOf(k + 1), k + 1)
    ensures WfLog(ds)
  {
    seq(n, k requires 0 <= k < n => Dirent(NameOf(k + 1), k + 1))
  }

  function RootRecords(): (ds: seq<Dirent>)
    ensures WfLog(ds)
  {
    EmptyDir(0, 0) + Records(NR_NAMED)
  }

  lemma {:induction false} RecordsSize(n: nat)
    requires n <= NR_NAMED
    ensures |Log(Records(n))| == 11 * n
  {
    hide EncodeInt;
    if n > 0 {
      RecordsSize(n - 1);
      var e := Dirent(NameOf(n), n);
      assert Records(n) == Records(n - 1) + [e];
      LogConcat(Records(n - 1), [e]);
      assert Log([e]) == Ser(e) + Log([]);
    }
  }

  lemma RootSize()
    ensures |Log(RootRecords())| == ROOT_SIZE
  {
    hide EncodeInt, Records;
    var ds := EmptyDir(0, 0);
    RecordsSize(NR_NAMED);
    LogConcat(ds, Records(NR_NAMED));
    assert ds[1..] == [ds[1]] && ds[1..][1..] == [];
    assert Log(ds) == Ser(ds[0]) + (Ser(ds[1]) + Log([]));
  }

  /** Block `l` of the root directory. */
  function RootBlock(l: nat): Block {
    var bytes := Log(RootRecords());
    seq(512, k requires 0 <= k < 512 => if 512 * l + k < |bytes| then bytes[512 * l + k] else 0)
  }

  // The volume

  /** The data places in use, and the places of the indirect blocks. */
  predicate UsedAt(b: nat, t: nat, x: int) {
    0 <= x < 12 + b || 16 <= x < 27 + t || 2 * BIG <= x < MAX_NR_CSUMS || MAX_NR_CSUMS < x < MAX_NR_CSUMS + 512
  }

  function DataBlock(p: nat): Block {
    var i := p - DATA_START - MAX_NR_CSUMS - 1;
    if HasTable(i) then OfInts(TableOf(i)) else if DATA_START <= p < DATA_START + 12 then RootBlock(p - DATA_START)
    else ZERO_BLOCK
  }

  function CsumOf(x: nat): int32 {
    Csum(DataBlock(DATA_START + x))
  }

  function UsedBits(b: nat, t: nat): (s: seq<bool>)
    ensures |s| == NR_BLOCK_BITS
  {
    seq(NR_BLOCK_BITS, x requires 0 <= x < NR_BLOCK_BITS => UsedAt(b, t, x))
  }

  function NumberBits(): (s: seq<bool>)
    ensures |s| == NR_INODE_BITS
  {
    seq(NR_INODE_BITS, i requires 0 <= i < NR_INODE_BITS => i <= NR_NAMED)
  }

  function CsumTable(): (s: seq<int32>)
    ensures |s| == MAX_NR_CSUMS
  {
    seq(MAX_NR_CSUMS, x requires 0 <= x < MAX_NR_CSUMS => CsumOf(x))
  }

  /** Inode block `m` with its first `k` dinodes. */
  function InodeBlock(b: nat, t: nat, m: nat, k: nat): Block
    requires b <= 4 && t <= 3
  {
    if k == 0 then ZERO_BLOCK
    else EncodeDInode(InodeBlock(b, t, m, k - 1), 16 * m + k - 1, InodeOf(b, t, 16 * m + k - 1))
  }

  function BlockAt(b: nat, t: nat, p: nat): Block
    requires b <= 4 && t <= 3 && p < DISK_BLOCKS
  {
    if p == 0 then ZERO_BLOCK
    else if p == 1 then FreemapBlock(NumberBits(), 0)
    else if p < CSUM_START then FreemapBlock(UsedBits(b, t), p - 2)
    else if p < INODE_START then TableBlock(CsumTable(), p - CSUM_START)
    else if p < DATA_START then InodeBlock(b, t, p - INODE_START, 16)
    else DataBlock(p)
  }

  function DiskOf(b: nat, t: nat): (d: Disk)
    requires b <= 4 && t <= 3
    ensures forall p: nat :: p < DISK_BLOCKS ==> d[p] == BlockAt(b, t, p)
  {
    seq(DISK_BLOCKS, p requires 0 <= p < DISK_BLOCKS => BlockAt(b, t, p))
  }

  function VolOf(b: nat, t: nat): Vol
    requires b <= 4 && t <= 3
  {
    VolData.Vol(DiskOf(b, t), UsedBits(b, t), CsumTable())
  }

  /**
   * A root directory with 515 files of zeroes; free are `4 - b` blocks and `3 - t` blocks with a checksum slot, and one
   * block without.
   */
  function WorldOf(b: nat, t: nat): World
    requires b <= 4 && t <= 3
  {
    WorldData.World(VolOf(b, t), NumberBits(), seq(NR_INODES, i requires 0 <= i < NR_INODES => InodeOf(b, t, i)))
  }

  // It is what a mount of the device finds

  lemma {:induction false} DInodeThere(b: nat, t: nat, m: nat, k: nat, j: nat)
    requires b <= 4 && t <= 3 && j < k <= 16
    ensures DecodeDInode(InodeBlock(b, t, m, k), 16 * m + j) == InodeOf(b, t, 16 * m + j)
  {
    hide DecodeDInode, EncodeDInode, InodeOf;
    var block, i := InodeBlock(b, t, m, k - 1), 16 * m + k - 1;
    if j == k - 1 {
      DecodeEncodeDInode(block, i, InodeOf(b, t, i));
    } else {
      DInodeThere(b, t, m, k - 1, j);
      assert (16 * m + j) % 16 == j && i % 16 == k - 1;
      DecodeEncodeOther(block, i, InodeOf(b, t, i), 16 * m + j);
    }
  }

  lemma InodesThere(b: nat, t: nat, i: nat)
    requires b <= 4 && t <= 3 && i < NR_INODES
    ensures DiskInode(DiskOf(b, t), i) == InodeOf(b, t, i)
  {
    hide DecodeDInode, InodeBlock, InodeOf, DiskOf;
    DInodeThere(b, t, i / 16, 16, i % 16);
    assert 16 * (i / 16) + i % 16 == i;
    assert BlockAt(b, t, INODE_START + i / 16) == InodeBlock(b, t, i / 16, 16);
  }

  lemma MapsThere(b: nat, t: nat)
    requires b <= 4 && t <= 3
    ensures Loaded(VolOf(b, t)) && BitsOf(DiskOf(b, t)[1], 4096) == NumberBits()
  {
    hide BitsOf, BitsBlock, OfInts, ToInts, InodeBlock, DataBlock, UsedAt, DiskOf;
    var used, live, csum := UsedBits(b, t), NumberBits(), CsumTable();
    BitsOfBitsBlock(used[4096 * 0..4096 * (0 + 1)]);
    BitsOfBitsBlock(used[4096 * 1..4096 * (1 + 1)]);
    BitsOfBitsBlock(live[4096 * 0..4096 * (0 + 1)]);
    assert used[..4096] + used[4096..] == used && live[..4096] == live;
    forall nr: nat | nr < CSUM_TABLE_SIZE ensures csum[128 * nr..128 * (nr + 1)] == ToInts(DiskOf(b, t)[4 + nr]) {
      assert BlockAt(b, t, CSUM_START + nr) == TableBlock(csum, nr);
      ToIntsOfInts(csum[128 * nr..128 * (nr + 1)]);
    }
  }

  /** Mounting a device with these blocks gives this world. */
  lemma WorldThere(b: nat, t: nat, v: Vol)
    requires b <= 4 && t <= 3 && v.disk == DiskOf(b, t) && Loaded(v)
    ensures DiskWorld(v, BitsOf(v.disk[1], 4096)) == WorldOf(b, t) && NumbersSaved(WorldOf(b, t))
  {
    hide BitsOf, ToInts, BlockAt, DiskInode, InodeOf, UsedAt, CsumOf;
    MapsThere(b, t);
    forall i: nat | i < NR_INODES ensures DiskInode(v.disk, i) == InodeOf(b, t, i) {
      InodesThere(b, t, i);
    }
    SameTable(v.disk, v.csum, CsumTable());
    assert DiskWorld(v, BitsOf(v.disk[1], 4096)).inodes == WorldOf(b, t).inodes;
    FirstBlockIs(b, t);
  }

  lemma FirstBlockIs(b: nat, t: nat)
    requires b <= 4 && t <= 3
    ensures DiskOf(b, t)[1] == FreemapBlock(NumberBits(), 0)
  {
    hide FreemapBlock, NumberBits;
    assert BlockAt(b, t, 1) == FreemapBlock(NumberBits(), 0);
  }

  lemma SameTable(disk: Disk, s: seq<int32>, t: seq<int32>)
    requires |s| == |t| == MAX_NR_CSUMS && CsumLoaded(disk, s) && CsumLoaded(disk, t)
    ensures s == t
  {
    hide ToInts;
    forall i | 0 <= i < MAX_NR_CSUMS ensures s[i] == t[i] {
      var nr: nat := i / 128;
      assert s[128 * nr..128 * (nr + 1)] == ToInts(disk[4 + nr]) == t[128 * nr..128 * (nr + 1)];
      assert s[128 * nr..128 * (nr + 1)][i % 128] == s[i] && t[128 * nr..128 * (nr + 1)][i % 128] == t[i];
    }
  }

  // Which blocks belong to which file

  lemma LookupIs(b: nat, t: nat, i: nat, l: nat)
    requires b <= 4 && t <= 3 && i <= NR_NAMED && l < NR_MAPPED
    ensures Lookup(DiskOf(b, t), InodeOf(b, t, i), l) == if l < LenOf(b, t, i) then DATA_START + Base(i) + l else 0
  {
    hide OfInts, IntAt, DiskOf, RootBlock, Base, InodeBlock;
    if l >= 4 && HasTable(i) {
      assert BlockAt(b, t, IndirectOf(i)) == OfInts(TableOf(i));
      IntAtOfInts(TableOf(i), l - 4);
    }
  }

  /** The file that a place belongs to. */
  function OwnerOf(x: int): int {
    if x < 12 then 0 else if x < 27 then FIRST + (x - 12) / 4 else if x < 2 * BIG then NR_NAMED
    else if x < MAX_NR_CSUMS then x / BIG - 1 else x - MAX_NR_CSUMS - 1
  }

  lemma OwnerIs(b: nat, t: nat, i: nat, l: nat)
    requires b <= 4 && t <= 3 && i <= NR_NAMED && l < LenOf(b, t, i)
    ensures OwnerOf(Base(i) + l) == i && UsedAt(b, t, Base(i) + l) && Base(i) + l < MAX_NR_CSUMS
  {
  }

  lemma BlockRight(b: nat, t: nat, i: nat, l: nat)
    requires b <= 4 && t <= 3 && i <= NR_NAMED && l < NR_MAPPED
    ensures var v, d, n := VolOf(b, t), InodeOf(b, t, i), LenOf(b, t, i);
            && Lookup(v.disk, d, l) == (if l < n then DATA_START + Base(i) + l else 0)
            && (l < n ==> IsUsed(v, DATA_START + Base(i) + l) && OwnerOf(Base(i) + l) == i && CsumAt(v, d, l)
                          && Base(i) + l < MAX_NR_CSUMS)
  {
    hide DiskOf, Lookup, Csum, DataBlock, InodeBlock, Base, InodeOf;
    LookupIs(b, t, i, l);
    if l < LenOf(b, t, i) {
      OwnerIs(b, t, i, l);
      assert BlockAt(b, t, DATA_START + Base(i) + l) == DataBlock(DATA_START + (Base(i) + l));
    }
  }

  lemma IndirectRight(b: nat, t: nat, i: nat)
    requires b <= 4 && t <= 3 && i <= NR_NAMED
    ensures var v, d, n := VolOf(b, t), InodeOf(b, t, i), LenOf(b, t, i);
            && d.size >= 0 && BlocksFor(d.size) == n <= NR_MAPPED && (d.indirect != 0 <==> n > 4)
            && (d.indirect != 0 ==> IsUsed(v, d.indirect) && OwnerOf(d.indirect - DATA_START) == i
                                    && d.indirect >= DATA_START + MAX_NR_CSUMS)
            && (d.typ == I_FILE || d.typ == I_DIR)
  {
    hide DiskOf, CsumTable;
  }

  lemma FileSound(b: nat, t: nat, i: nat)
    requires b <= 4 && t <= 3 && i <= NR_NAMED
    ensures LiveSound(WorldOf(b, t), i)
    ensures forall p :: p in OwnOf(WorldOf(b, t), i) ==> IsData(p) && OwnerOf(p - DATA_START) == i
  {
    hide VolOf, Lookup, CsumAt, Base, InodeOf, LenOf, OwnerOf;
    var w, d, n := WorldOf(b, t), InodeOf(b, t, i), LenOf(b, t, i);
    assert w.inodes[i] == d;
    IndirectRight(b, t, i);
    forall l: nat | l < NR_MAPPED
      ensures Lookup(w.vol.disk, d, l) == if l < n then DATA_START + Base(i) + l else 0
      ensures l < n ==> IsUsed(w.vol, DATA_START + Base(i) + l) && OwnerOf(Base(i) + l) == i && CsumAt(w.vol, d, l)
      ensures l < n ==> Base(i) + l < MAX_NR_CSUMS
    {
      BlockRight(b, t, i, l);
    }
  }

  lemma PlaceBelongs(b: nat, t: nat, x: int)
    requires b <= 4 && t <= 3 && UsedAt(b, t, x)
    ensures 0 <= OwnerOf(x) <= NR_NAMED
    ensures x < MAX_NR_CSUMS ==> 0 <= x - Base(OwnerOf(x)) < LenOf(b, t, OwnerOf(x))
    ensures x >= MAX_NR_CSUMS ==> IndirectOf(OwnerOf(x)) == DATA_START + x
  {
  }

  lemma PlaceHeld(b: nat, t: nat, x: int)
    requires b <= 4 && t <= 3 && UsedAt(b, t, x)
    ensures 0 <= OwnerOf(x) <= NR_NAMED
    ensures DATA_START + x in Own(DiskOf(b, t), InodeOf(b, t, OwnerOf(x)), LenOf(b, t, OwnerOf(x)))
  {
    PlaceBelongs(b, t, x);
    hide DiskOf, Lookup, Own, UsedAt, OwnerOf, Base, LenOf, IndirectOf, Direct, SizeOf, BlockAt, HasTable;
    var d, n := InodeOf(b, t, OwnerOf(x)), LenOf(b, t, OwnerOf(x));
    if x < MAX_NR_CSUMS {
      var l := x - Base(OwnerOf(x));
      LookupIs(b, t, OwnerOf(x), l);
      InOwn(DiskOf(b, t), d, n, l);
    } else {
      IndirectOwned(DiskOf(b, t), d, n);
    }
  }

  lemma IndirectOwned(disk: Disk, d: DInode, n: int)
    requires d.indirect != 0
    ensures d.indirect in Own(disk, d, n)
  {
  }

  lemma PlaceOwned(b: nat, t: nat, x: int)
    requires b <= 4 && t <= 3 && UsedAt(b, t, x)
    ensures Owned(WorldOf(b, t), DATA_START + x)
  {
    PlaceHeld(b, t, x);
    hide DiskOf, Lookup, Own, UsedAt, OwnerOf, Base, LenOf, IndirectOf, Direct;
    var w, i := WorldOf(b, t), OwnerOf(x);
    assert IsLive(w, i) && w.inodes[i] == InodeOf(b, t, i);
    assert DATA_START + x in OwnOf(w, i);
  }

  lemma IsConsistent(b: nat, t: nat)
    requires b <= 4 && t <= 3
    ensures BlocksConsistent(WorldOf(b, t))
  {
    hide Own, LiveSound, DiskOf, InodeOf, OwnerOf, Owned;
    var w := WorldOf(b, t);
    forall i: nat | IsLive(w, i) ensures LiveSound(w, i) {
      FileSound(b, t, i);
    }
    forall i: nat, j: nat | IsLive(w, i) && IsLive(w, j) && i != j ensures OwnOf(w, i) !! OwnOf(w, j) {
      FileSound(b, t, i);
      FileSound(b, t, j);
      forall p | p in OwnOf(w, i) ensures p !in OwnOf(w, j) {
      }
      assert OwnOf(w, i) * OwnOf(w, j) == {};
    }
    forall p | IsUsed(w.vol, p) ensures Owned(w, p) {
      PlaceOwned(b, t, p - DATA_START);
    }
    forall i: nat | i < NR_INODES && !w.live[i] ensures w.inodes[i] == ZERO_DINODE {
      NoInode(b, t, i);
    }
  }

  lemma NoInode(b: nat, t: nat, i: nat)
    requires b <= 4 && t <= 3 && i > NR_NAMED
    ensures InodeOf(b, t, i) == ZERO_DINODE
  {
  }

  /** Number of places in use below `n`. */
  function CountBelow(b: nat, t: nat, n: int): int {
    Min(n, 12 + b) + Max(0, Min(n, 27 + t) - 16) + Max(0, Min(n, MAX_NR_CSUMS) - 2 * BIG) + Max(0, n - MAX_NR_CSUMS - 1)
  }

  lemma {:induction false} OnesAre(b: nat, t: nat, used: seq<bool>, n: nat)
    requires b <= 4 && t <= 3 && n <= |used| == NR_BLOCK_BITS
    requires forall x :: 0 <= x < NR_BLOCK_BITS ==> used[x] == UsedAt(b, t, x)
    ensures Ones(used[..n]) == CountBelow(b, t, n)
  {
    if n > 0 {
      OnesAre(b, t, used, n - 1);
      assert used[..n][..n - 1] == used[..n - 1];
    } else {
      assert used[..0] == [];
    }
  }

  lemma ZerosAre(b: nat, t: nat, used: seq<bool>)
    requires b <= 4 && t <= 3 && |used| == NR_BLOCK_BITS
    requires forall x :: 0 <= x < NR_BLOCK_BITS ==> used[x] == UsedAt(b, t, x)
    ensures Zeros(used) == 8 - b - t && Zeros(used[..MAX_NR_CSUMS]) == 7 - b - t
  {
    hide Ones;
    OnesAre(b, t, used, NR_BLOCK_BITS);
    OnesAre(b, t, used, MAX_NR_CSUMS);
    assert used[..NR_BLOCK_BITS] == used;
  }

  /** What is free in these file systems. */
  lemma RoomIs(b: nat, t: nat)
    requires b <= 4 && t <= 3
    ensures RoomOf(VolOf(b, t)) == Room(8 - b - t, 7 - b - t)
  {
    hide Zeros, DiskOf;
    ZerosAre(b, t, VolOf(b, t).used);
  }

  // The directory tree

  lemma RootContents(b: nat, t: nat)
    requires b <= 4 && t <= 3
    ensures Contents(DiskOf(b, t), InodeOf(b, t, 0)) == Log(RootRecords())
  {
    hide DiskOf, Lookup, RootRecords, Log;
    RootSize();
    forall pos: nat | pos < ROOT_SIZE ensures RawByte(DiskOf(b, t), InodeOf(b, t, 0), pos) == Log(RootRecords())[pos] {
      LookupIs(b, t, 0, pos / 512);
      assert BlockAt(b, t, DATA_START + pos / 512) == RootBlock(pos / 512);
    }
  }

  ghost function Flat(files: Files): Shape {
    Shape(map i | i in files :: 0, map i | i in files :: if i == 0 then 0 else 1)
  }

  /** A root with these records, and nothing else but plain files. */
  ghost predicate FlatFiles(files: Files) {
    && (forall i: nat :: i in files <==> i <= NR_NAMED) && files[0] == Node(I_DIR, Log(RootRecords()))
    && (forall i: nat :: 1 <= i <= NR_NAMED ==> files[i].typ == I_FILE)
  }

  lemma RootLog(files: Files)
    requires FlatFiles(files)
    ensures IsLog(files[0].bytes) && Entries(files, 0) == RootRecords()
    ensures LogOk(files, Flat(files), 0, 0, RootRecords())
    ensures forall i: nat :: 1 <= i <= NR_NAMED ==> NrOf(RootRecords(), NameOf(i)) == i
  {
    hide Log, Parse, FindFrom;
    var ds := RootRecords();
    ParseLog(ds);
    forall j, k | 0 <= j < k < |ds| ensures ds[j].name != ds[k].name {
      NamesDiffer(j, k);
    }
    assert UniqueNames(ds);
    forall i: nat | 1 <= i <= NR_NAMED ensures NrOf(ds, NameOf(i)) == i {
      FindIs(ds, NameOf(i), i + 1);
    }
  }

  lemma NamesDiffer(j: int, k: int)
    requires 0 <= j < k < |RootRecords()|
    ensures RootRecords()[j].name != RootRecords()[k].name
  {
    if j >= 2 {
      assert (j - 1) / 26 * 26 + (j - 1) % 26 == j - 1 && (k - 1) / 26 * 26 + (k - 1) % 26 == k - 1;
    }
  }

  lemma IsTree(files: Files)
    requires FlatFiles(files)
    ensures TreeOk(files, Flat(files))
  {
    hide Log, Parse, LogOk, IsLog, RootRecords, HasChild;
    RootLog(files);
    forall i: nat | i in files ensures NodeOk(files, Flat(files), i) {
      if i > 0 {
        NamedChild(files, i);
      }
    }
  }

  lemma NamedChild(files: Files, i: nat)
    requires 0 in files && Entries(files, 0) == RootRecords() && 1 <= i <= NR_NAMED
    ensures HasChild(files, 0, i)
  {
    hide Parse;
    assert IsChildAt(RootRecords(), i + 1) && RootRecords()[i + 1].nr == i;
  }

  /** The name of the first file leads to it. */
  lemma FirstFile(b: nat, t: nat)
    requires b <= 4 && t <= 3
    ensures var w := WorldOf(b, t);
            && BlocksConsistent(w) && TreeOk(FilesOf(w), Flat(FilesOf(w))) && IsDir(FilesOf(w), 0)
            && NrOf(Entries(FilesOf(w), 0), Name()) == FIRST
            && FIRST in FilesOf(w) && FilesOf(w)[FIRST].typ == I_FILE && RoomOf(w.vol) == Room(8 - b - t, 7 - b - t)
    ensures var w := WorldOf(b, t); var d := w.inodes[FIRST];
            d.size == 512 * b && d.indirect == 0 && Sound(w.vol, d)
  {
    hide BlocksConsistent, Sound, Zeros, DiskOf, Contents, Log, RootRecords, Parse, TreeOk, NrOf, NameOf;
    var w := WorldOf(b, t);
    IsConsistent(b, t);
    RoomIs(b, t);
    SizeKnown(w, FIRST);
    RootContents(b, t);
    assert w.inodes[FIRST] == InodeOf(b, t, FIRST) && w.inodes[0] == InodeOf(b, t, 0);
    forall i: nat | i <= NR_NAMED ensures IsLive(w, i) && w.inodes[i].typ == InodeOf(b, t, i).typ {
    }
    assert FlatFiles(FilesOf(w));
    RootLog(FilesOf(w));
    IsTree(FilesOf(w));
  }
}
