/** Making a file system, and leaving and entering one: what survives on the device. */
module Mounting {
  import opened Bytes
  import opened Layout
  import opened Checksum
  import opened Volume
  import Bits = Bitmap
  import opened Reactors
  import opened Device
  import opened Super
  import opened Inodes
  import opened Steps
  import opened World
  import opened Table
  import opened Dirents
  import opened Tree
  import opened Contexts
  import opened Commands

  /** The block that tells where the regions start. */
  function SuperImage(): Block {
    OfInts([1, 2, 4, INODE_START, DATA_START] + seq(123, _ => 0))
  }

  /** Where inode freemap, block freemap, checksum table, inode blocks and data blocks start. */
  predicate TellsRegions(b: Block) {
    IntAt(b, 0) == 1 && IntAt(b, 1) == 2 && IntAt(b, 2) == 4 && IntAt(b, 3) == 64 && IntAt(b, 4) == 192
  }

  lemma SuperTells()
    ensures TellsRegions(SuperImage())
  {
    hide OfInts, IntAt;
    var s := [1, 2, 4, INODE_START, DATA_START] + seq(123, _ => 0);
    IntAtOfInts(s, 0);
    IntAtOfInts(s, 1);
    IntAtOfInts(s, 2);
    IntAtOfInts(s, 3);
    IntAtOfInts(s, 4);
  }

  /** The device after the super block and both freemaps were written. */
  function Flushed(disk: Disk, used: seq<bool>, live: seq<bool>): (d: Disk)
    requires |used| == NR_BLOCK_BITS && |live| == 4096
    ensures forall p :: 4 <= p < DISK_BLOCKS ==> d[p] == disk[p]
  {
    disk[0 := SuperImage()][1 := Bits.FreemapBlock(live, 0)][2 := Bits.FreemapBlock(used,
      0)][3 := Bits.FreemapBlock(used, 1)]
  }

  /** Writes the super block and the freemaps. The checksum table is not written; no inode may be in memory. */
  method FlushSuper(c: Context) returns (ok: bool)
    requires c.sb.Valid() && c.sb.Idle() && c.table.Valid()
    modifies c.sb.dev
    ensures c.sb.Valid() && c.sb.Idle() && ok == (c.table.view == map[])
    ensures ok ==>
      c.sb.Vol() == WithDisk(old(c.sb.Vol()), Flushed(old(c.sb.Vol().disk), c.sb.Vol().used, c.sb.InodesUsed()))
    ensures TellsRegions(c.sb.Vol().disk[0])
  {
    hide InodeTable.Valid, Bits.FreemapBlock, OfInts, TellsRegions;
    SuperTells();
    c.sb.WriteBlock(SuperImage(), 0);
    ok := c.table.IsEmpty();
    if ok {
      c.sb.WriteInodeFreemap();
      c.sb.WriteWholeBlockFreemap();
    }
  }

  /** Freemaps that were written come back. */
  lemma ReloadedBits(disk: Disk, used: seq<bool>, live: seq<bool>)
    requires |used| == NR_BLOCK_BITS && |live| == 4096
    ensures var d := Flushed(disk, used, live);
            Bits.BitsOf(d[2], 4096) + Bits.BitsOf(d[3], 4096) == used && Bits.BitsOf(d[1], 4096) == live
  {
    hide Bits.BitsOf, Bits.BitsBlock, OfInts;
    Bits.BitsOfBitsBlock(used[4096 * 0..4096 * (0 + 1)]);
    Bits.BitsOfBitsBlock(used[4096 * 1..4096 * (1 + 1)]);
    Bits.BitsOfBitsBlock(live[4096 * 0..4096 * (0 + 1)]);
    assert used[..4096] + used[4096..] == used;
    assert live[..4096] == live;
  }

  /** The checksum table comes back exactly when every block of it was saved. */
  lemma ReloadedTable(disk: Disk, csum: seq<int32>, csum': seq<int32>)
    requires |csum| == |csum'| == MAX_NR_CSUMS && CsumLoaded(disk, csum')
    ensures csum' == csum <==> TableSaved(disk, csum)
    ensures CsumClean(disk, csum', seq(CSUM_TABLE_SIZE, _ => false))
  {
    hide OfInts, ToInts;
    forall nr: nat | nr < CSUM_TABLE_SIZE
      ensures disk[4 + nr] == TableBlock(csum', nr)
      ensures disk[4 + nr] == TableBlock(csum, nr)
        <==> csum'[128 * nr..128 * (nr + 1)] == csum[128 * nr..128 * (nr + 1)]
    {
      OfIntsToInts(disk[4 + nr]);
      ToIntsOfInts(csum[128 * nr..128 * (nr + 1)]);
    }
    if TableSaved(disk, csum) {
      forall i | 0 <= i < MAX_NR_CSUMS ensures csum'[i] == csum[i] {
        var nr: nat := i / 128;
        assert disk[4 + nr] == TableBlock(csum, nr);
        SameSlice(csum, csum', nr, i % 128);
      }
    }
  }

  lemma SameSlice(a: seq<int32>, b: seq<int32>, nr: nat, k: nat)
    requires |a| == |b| == MAX_NR_CSUMS && nr < CSUM_TABLE_SIZE && k < 128
    requires a[128 * nr..128 * (nr + 1)] == b[128 * nr..128 * (nr + 1)]
    ensures a[128 * nr + k] == b[128 * nr + k]
  {
    assert a[128 * nr..128 * (nr + 1)][k] == a[128 * nr + k];
  }

  /** Freemaps and checksum table in memory are those on the device. */
  ghost predicate FromDevice(c: Context)
    reads c.sb, c.sb.dev, c.sb.inodeFreemap.v, c.sb.blockFreemap.v
  {
    c.sb.Valid() && Loaded(c.sb.Vol()) && c.sb.InodesUsed() == Bits.BitsOf(c.sb.Vol().disk[1], 4096)
  }

  /** Reads the file system from a device and makes the root the current directory. */
  method Mount(device: Device) returns (c: Context)
    requires device.Valid() && device.s.pending == []
    modifies device
    ensures fresh(c) && fresh(c.sb) && fresh(c.table) && fresh(c.curDir) && c.sb.dev == device
    ensures fresh(c.sb.inodeFreemap.v) && fresh(c.sb.blockFreemap.v) && c.sb.Valid()
    ensures c.sb.Vol().disk == old(device.Disk()) && FromDevice(c)
    ensures forall nr: nat :: nr < CSUM_TABLE_SIZE ==> !c.sb.csumDirty[nr]
    ensures c.Struct() && c.W() == DiskWorld(c.sb.Vol(), c.sb.InodesUsed())
    ensures c.table.view == map[c.curDir.nr := c.curDir] && c.curDir.nr == 0 && c.curDir.count == 1 && !c.curDir.dirty
  {
    hide SuperBlock.InodesUsed, InodeTable.Valid, DecodeDInode, Bits.BitsOf, ToInts;
    var sb := new SuperBlock(device);
    c := new Context(sb);
    var root := c.GetInode(0);
    c.curDir := root;
  }

  /** A freemap block is determined by its bits. */
  lemma BitsAreBlock(b: Block)
    ensures Bits.FreemapBlock(Bits.BitsOf(b, 4096), 0) == b
  {
    hide Bits.FreemapBlock, Bits.BitsOf;
    Bits.FreemapBytes(b, 4096, 0);
    assert b[512 * 0..512 * (0 + 1)] == b;
  }

  /** What is found again after unmounting world `w`, whose cached inodes are all saved, and mounting again. */
  ghost predicate Remounted(w: World, w': World) {
    && w'.vol.used == w.vol.used && w'.live == w.live && w'.inodes == w.inodes
    && (forall p :: 4 <= p < DISK_BLOCKS ==> w'.vol.disk[p] == w.vol.disk[p])
    && CsumLoaded(w'.vol.disk, w'.vol.csum)
  }

  lemma RemountedClears(w: World, w': World)
    requires Remounted(w, w')
    ensures Cleared(w.vol, w'.vol)
  {
    ClearedSame(w.vol, w'.vol);
  }

  /** Entry `i` of the checksum table on the device. */
  function SavedCsum(disk: Disk, i: nat): int32
    requires i < MAX_NR_CSUMS
  {
    ToInts(disk[CSUM_START + i / 128])[i % 128]
  }

  /** The checksum of block `p` is on the device. */
  predicate EntrySaved(v: Vol, p: int) {
    DATA_START <= p < DATA_START + MAX_NR_CSUMS ==> SavedCsum(v.disk, p - DATA_START) == v.csum[p - DATA_START]
  }

  predicate FileSaved(w: World, i: nat)
    requires i < NR_INODES
  {
    forall l: nat :: l < BlocksFor(w.inodes[i].size) ==> EntrySaved(w.vol, Lookup(w.vol.disk, w.inodes[i], l))
  }

  /** The checksums of all blocks of files are on the device; what it has for other blocks plays no part. */
  predicate NeededSaved(w: World) {
    forall i: nat :: i < NR_INODES && IsLive(w, i) ==> FileSaved(w, i)
  }

  lemma LoadedEntry(disk: Disk, csum: seq<int32>, i: nat)
    requires |csum| == MAX_NR_CSUMS && CsumLoaded(disk, csum) && i < MAX_NR_CSUMS
    ensures csum[i] == SavedCsum(disk, i)
  {
    hide ToInts;
    assert csum[128 * (i / 128)..128 * (i / 128 + 1)] == ToInts(disk[CSUM_START + i / 128]);
    assert csum[128 * (i / 128)..128 * (i / 128 + 1)][i % 128] == csum[i];
  }

  /** One block of a file is where it was, and has its checksum exactly when that was saved. */
  lemma BlockFound(w: World, w': World, i: nat, l: nat)
    requires Remounted(w, w') && IsLive(w, i) && LiveSound(w, i) && l < BlocksFor(w.inodes[i].size)
    ensures Lookup(w'.vol.disk, w'.inodes[i], l) == Lookup(w.vol.disk, w.inodes[i], l)
    ensures CsumAt(w'.vol, w'.inodes[i], l) <==> EntrySaved(w.vol, Lookup(w.vol.disk, w.inodes[i], l))
  {
    hide Csum, ToInts, CsumLoaded, IntAt;
    var v, v', d := w.vol, w'.vol, w.inodes[i];
    SameOnOwn(v.disk, v'.disk, d, BlocksFor(d.size));
    assert CsumAt(v, d, l);
    LoadedEntry(v'.disk, v'.csum, Lookup(v.disk, d, l) - DATA_START);
  }

  /** One file is found again just as its checksums are. */
  lemma FileFound(w: World, w': World, i: nat)
    requires Remounted(w, w') && IsLive(w, i) && LiveSound(w, i)
    ensures LiveSound(w', i) <==> FileSaved(w, i)
    ensures OwnOf(w', i) == OwnOf(w, i) && w.inodes[i].size >= 0 && NodeOf(w', i) == NodeOf(w, i)
  {
    hide Contents, Csum, ToInts, CsumLoaded, IntAt;
    var v, v', d, n := w.vol, w'.vol, w.inodes[i], BlocksFor(w.inodes[i].size);
    SameOnOwn(v.disk, v'.disk, d, n);
    SameContents(v.disk, v'.disk, d);
    forall l: nat | l < n
      ensures IsData(Lookup(v.disk, d, l)) && Lookup(v'.disk, d, l) == Lookup(v.disk, d, l)
      ensures CsumAt(v', d, l) <==> EntrySaved(v, Lookup(v.disk, d, l))
    {
      assert CsumAt(v, d, l);
      LoadedEntry(v'.disk, v'.csum, Lookup(v.disk, d, l) - DATA_START);
    }
  }

  /** Leaving a file system and starting it again finds it consistent exactly when all needed checksums were saved. */
  lemma RemountedWhen(w: World, w': World)
    requires Remounted(w, w') && BlocksConsistent(w)
    ensures BlocksConsistent(w') <==> NeededSaved(w)
    ensures BlocksConsistent(w') ==> FilesOf(w') == FilesOf(w)
  {
    hide Contents, LiveSound, Own, FileSaved, CsumLoaded;
    forall i: nat | IsLive(w, i)
      ensures LiveSound(w', i) <==> FileSaved(w, i)
      ensures OwnOf(w', i) == OwnOf(w, i) && w.inodes[i].size >= 0 && NodeOf(w', i) == NodeOf(w, i)
    {
      FileFound(w, w', i);
    }
    forall p | IsUsed(w'.vol, p) ensures Owned(w', p) {
      assert IsUsed(w.vol, p);
      var i: nat :| IsLive(w, i) && p in OwnOf(w, i);
      assert IsLive(w', i) && p in OwnOf(w', i);
    }
    assert forall i: nat :: IsLive(w', i) <==> IsLive(w, i);
  }

  /** So they are when the whole table is on the device. */
  lemma SavedTableServes(w: World)
    requires TableSaved(w.vol.disk, w.vol.csum)
    ensures NeededSaved(w)
  {
    hide OfInts, ToInts, Lookup;
    forall i: nat, l: nat | i < NR_INODES && IsLive(w, i) && l < BlocksFor(w.inodes[i].size)
      ensures EntrySaved(w.vol, Lookup(w.vol.disk, w.inodes[i], l))
    {
      SavedEntry(w.vol, Lookup(w.vol.disk, w.inodes[i], l));
    }
  }

  lemma SavedEntry(v: Vol, p: int)
    requires TableSaved(v.disk, v.csum)
    ensures EntrySaved(v, p)
  {
    hide OfInts, ToInts;
    if DATA_START <= p < DATA_START + MAX_NR_CSUMS {
      var i := p - DATA_START;
      var nr: nat := i / 128;
      assert v.disk[4 + nr] == TableBlock(v.csum, nr);
      ToIntsOfInts(v.csum[128 * nr..128 * (nr + 1)]);
      assert v.csum[128 * nr..128 * (nr + 1)][i % 128] == v.csum[i];
    }
  }

  lemma RemountedFiles(w: World, w': World)
    requires Remounted(w, w') && BlocksConsistent(w) && TableSaved(w.vol.disk, w.vol.csum)
    ensures BlocksConsistent(w') && FilesOf(w') == FilesOf(w)
  {
    hide BlocksConsistent, FilesOf, TableBlock, NeededSaved;
    SavedTableServes(w);
    RemountedWhen(w, w');
  }

  /** Unmounts a file system with no inode in use, and mounts it again. */
  method Remount(c: Context) returns (c': Context)
    requires c.Consistent() && c.table.view == map[]
    modifies c.sb.dev
    ensures fresh(c') && fresh(c'.sb) && fresh(c'.table) && fresh(c'.curDir) && c'.sb.dev == c.sb.dev
    ensures fresh(c'.sb.inodeFreemap.v) && fresh(c'.sb.blockFreemap.v) && c'.sb.Valid()
    ensures Remounted(old(c.W()), c'.W()) && FromDevice(c') && c'.curDir.nr == 0 && !c'.curDir.dirty
    ensures TellsRegions(c'.sb.Vol().disk[0])
    ensures forall nr: nat :: nr < CSUM_TABLE_SIZE ==> !c'.sb.csumDirty[nr]
    ensures 0 in old(c.Files()) ==> (c'.Consistent() <==> NeededSaved(old(c.W())))
    ensures 0 in old(c.Files()) ==> c'.Struct() && c'.CachedLive() && c'.MapsSaved()
    ensures c'.table.view == map[0 := c'.curDir] && c'.curDir.count == 1
  {
    hide SuperBlock.InodesUsed, InodeTable.Valid, DecodeDInode, Bits.BitsOf, ToInts, OfInts, Bits.FreemapBlock;
    hide BlocksConsistent, FilesOf, TableSaved, Context.W, NeededSaved, TellsRegions;
    c.NothingCached();
    ghost var w, v := c.W(), c.sb.Vol();
    var empty := FlushSuper(c);
    ReloadedBits(v.disk, v.used, c.sb.InodesUsed());
    c' := Mount(c.sb.dev);
    RemountWorld(w, c'.sb.Vol(), c'.W());
    ReloadedTable(c'.sb.Vol().disk, v.csum, c'.sb.csumTable);
    RemountedWhen(w, c'.W());
    if 0 in FilesOf(w) {
      RootIsLive(w);
    }
  }

  lemma RootIsLive(w: World)
    requires BlocksConsistent(w) && 0 in FilesOf(w)
    ensures w.live[0]
  {
    hide LiveSound, Owned;
  }

  lemma RemountWorld(w: World, v': Vol, w': World)
    requires w == DiskWorld(w.vol, w.live)
    requires v'.disk == Flushed(w.vol.disk, w.vol.used, w.live) && Loaded(v')
    requires w' == DiskWorld(v', Bits.BitsOf(v'.disk[1], 4096))
    ensures Remounted(w, w')
  {
    hide DecodeDInode, Bits.FreemapBlock, Bits.BitsOf, ToInts, OfInts;
    ReloadedBits(w.vol.disk, w.vol.used, w.live);
    assert w'.inodes == w.inodes;
  }

  /** Leaves the shell and starts it again. */
  method Restart(c: Context) returns (r: Outcome, c': Context)
    requires c.Valid()
    modifies c.curDir`count, c.table, c.sb.dev
    ensures r == if c.curDir.dirty then Aborted(CleanOnPut) else Done
    ensures c'.sb.dev == c.sb.dev && (r == Done ==> c'.sb.Valid() && Remounted(old(c.W()), c'.W()))
    ensures r == Done ==> FromDevice(c') && forall nr: nat :: nr < CSUM_TABLE_SIZE ==> !c'.sb.csumDirty[nr]
    ensures if r == Done then fresh(c') && fresh(c'.sb.inodeFreemap.v) && fresh(c'.sb.blockFreemap.v)
                              && fresh(c'.sb) && fresh(c'.table) && fresh(c'.curDir)
            else c' == c && c'.curDir == old(c.curDir)
    ensures r == Done ==> (c'.Valid() <==> NeededSaved(old(c.W()))) && c'.curDir.nr == 0 && !c'.curDir.dirty
    ensures r == Done && c'.Valid() ==> c'.Files() == old(c.Files())
    ensures r == Done ==> c'.shape == c.shape && c'.Struct() && c'.CachedLive() && c'.MapsSaved()
    ensures r == Done ==> c'.table.view == map[0 := c'.curDir] && c'.curDir.count == 1
  {
    hide SuperBlock.Vol, SuperBlock.Valid, SuperBlock.InodesUsed, InodeTable.Valid, DiskInode;
    hide BlocksConsistent, FilesOf, TableSaved, Context.W, Context.Struct, Context.CachedLive, Context.MapsSaved;
    hide TreeOk, Remounted, NeededSaved;
    ghost var w := c.W();
    c.CachedWorld(c.curDir);
    c' := c;
    var clean := c.PutInode(c.curDir);
    if !clean {
      return Aborted(CleanOnPut), c;
    }
    assert c.table.view == map[];
    ghost var files, shape := c.Files(), c.shape;
    RootThere(files, shape);
    c' := Remount(c);
    c'.shape := shape;
    RemountedWhen(w, c'.W());
    r := Done;
  }

  lemma RootThere(files: Files, sh: Shape)
    requires TreeOk(files, sh)
    ensures IsDir(files, 0)
  {
    assert NodeOk(files, sh, 0);
  }

  // Making a file system

  /** Writes the super block and zeroes the freemaps, the checksum table and the inode blocks. */
  method Format(device: Device)
    requires device.Valid() && device.s.pending == []
    modifies device
    ensures device.Valid() && device.s.pending == []
    ensures device.Disk()[0] == SuperImage() && forall p: nat :: 1 <= p < DATA_START ==> device.Disk()[p] == ZERO_BLOCK
    ensures forall p: nat :: DATA_START <= p < DISK_BLOCKS ==> device.Disk()[p] == old(device.Disk())[p]
  {
    hide OfInts;
    IdleMay(device.s, 0, 1);
    device.WriteBlocks([SuperImage()], 0);
    IdleAgain(old(device.s), device.s, Put(old(device.Disk()), 0, [SuperImage()]));
    device.ZeroBlocks(INODE_FREEMAP_START, 1);
    device.ZeroBlocks(BLOCK_FREEMAP_START, 2);
    device.ZeroBlocks(CSUM_START, CSUM_TABLE_SIZE);
    device.ZeroBlocks(INODE_START, NR_INODE_BLOCKS);
  }

  lemma ClearBits()
    ensures Bits.BitsOf(ZERO_BLOCK, 4096) == seq(4096, _ => false)
  {
    forall i: nat | i < 4096 ensures !Bits.Bit(ZERO_BLOCK[i / 8], i % 8) {
      Bits.ZeroHasNoBits(i % 8);
    }
  }

  lemma {:induction false} AllZeros(s: seq<bool>)
    requires forall i :: 0 <= i < |s| ==> !s[i]
    ensures Bits.Ones(s) == 0
  {
    if s != [] {
      AllZeros(s[..|s| - 1]);
    }
  }

  /** Exactly the first `n` inode numbers are in use. */
  ghost predicate NumbersTaken(w: World, n: nat) {
    forall i :: 0 <= i < NR_INODE_BITS ==> (w.live[i] <==> i < n)
  }

  /** A file system that was just made: an empty root directory in the first block, and all the rest free. */
  ghost predicate JustMade(w: World) {
    && BlocksConsistent(w) && FilesOf(w) == map[0 := Node(I_DIR, Log(EmptyDir(0, 0)))]
    && RoomOf(w.vol) == Room(NR_BLOCK_BITS - 1, MAX_NR_CSUMS - 1) && NumbersTaken(w, 1)
  }

  /** A formatted device holds no files, and all blocks and inode numbers are free. */
  lemma FormattedWorld(v: Vol, w: World)
    requires Loaded(v) && (forall p: nat :: 1 <= p < DATA_START ==> v.disk[p] == ZERO_BLOCK)
    requires w == DiskWorld(v, Bits.BitsOf(v.disk[1], 4096))
    ensures BlocksConsistent(w) && FilesOf(w) == map[] && CsumClean(v.disk, v.csum, seq(CSUM_TABLE_SIZE, _ => false))
    ensures RoomOf(w.vol) == Room(NR_BLOCK_BITS, MAX_NR_CSUMS) && NumbersTaken(w, 0)
  {
    hide DecodeDInode, Bits.BitsOf, ToInts, OfInts, TableBlock, CsumLoaded;
    ClearBits();
    AllZeros(w.vol.used);
    AllZeros(w.vol.used[..MAX_NR_CSUMS]);
    assert v.disk[2] == ZERO_BLOCK && v.disk[3] == ZERO_BLOCK && v.disk[1] == ZERO_BLOCK;
    forall i: nat | i < NR_INODES ensures w.inodes[i] == ZERO_DINODE {
      ZeroBlockHoldsNoInode(i);
    }
    assert forall i: nat :: !IsLive(w, i);
    ReloadedTable(v.disk, v.csum, v.csum);
  }

  /** Makes the root directory, its own parent, and puts it back. */
  method MakeRootDir(c: Context)
    requires c.Consistent() && c.table.view == map[] && c.Files() == map[]
    requires RoomOf(c.W().vol) == Room(NR_BLOCK_BITS, MAX_NR_CSUMS) && NumbersTaken(c.W(), 0)
    modifies c.table, c.sb`csumTable, c.sb.dev, c.sb.inodeFreemap.v, c.sb.blockFreemap.v
    ensures c.Consistent() && c.table.view == map[] && JustMade(c.W())
    ensures c.sb.csumDirty == old(c.sb.csumDirty)
  {
    hide SuperBlock.Vol, SuperBlock.Valid, SuperBlock.InodesUsed, InodeTable.Valid, DiskInode;
    hide BlocksConsistent, FilesOf, Context.W, Context.Struct, Context.CachedLive, Context.MapsSaved, Log;
    hide EmptyDir, Bits.Zeros;
    c.LiveIs();
    Bits.FirstClearIs(c.W().live, 0);
    var r, in_ := c.CreateInode(I_DIR);
    c.CachedWorld(in_);
    r := CreateEmptyDir(c, in_.nr, in_);
    c.CachedWorld(in_);
    assert JustMade(c.W());
    var saved := c.SyncInode(in_);
    var clean := c.PutInode(in_);
    assert c.table.view == map[];
  }

  lemma MadeRemounted(w: World, w': World)
    requires JustMade(w) && Remounted(w, w') && TableSaved(w.vol.disk, w.vol.csum)
    ensures JustMade(w') && FilesOf(w') == FilesOf(w)
  {
    hide BlocksConsistent, FilesOf, TableSaved, Bits.Zeros;
    RemountedFiles(w, w');
  }

  /** `mkfs`: a file system that holds nothing but an empty root directory. */
  method CmdMkfs(device: Device) returns (c: Context)
    requires device.Valid() && device.s.pending == []
    modifies device
    ensures fresh(c) && fresh(c.sb) && fresh(c.table) && fresh(c.curDir) && fresh(c.sb.inodeFreemap.v)
    ensures fresh(c.sb.blockFreemap.v)
    ensures c.sb.dev == device && c.Valid() && FromDevice(c) && !c.curDir.dirty
    ensures JustMade(c.W()) && c.shape == ROOT_SHAPE && c.curDir.nr == 0 && TellsRegions(c.sb.Vol().disk[0])
    ensures forall nr: nat :: nr < CSUM_TABLE_SIZE ==> !c.sb.csumDirty[nr]
  {
    hide SuperBlock.Vol, SuperBlock.InodesUsed, SuperBlock.Valid, InodeTable.Valid, DiskInode;
    hide BlocksConsistent, FilesOf, Context.W, Context.Struct, Context.CachedLive, Context.MapsSaved, Log;
    hide EmptyDir, Bits.Zeros, Slots;
    hide TableSaved, TreeOk, Remounted, NumbersTaken, NeededSaved, TellsRegions;
    var c0 := Blank(device);
    MakeRootDir(c0);
    c0.SavedTable();
    ghost var w := c0.W();
    SavedTableServes(w);
    c := Remount(c0);
    c.shape := ROOT_SHAPE;
    RootOk();
    MadeRemounted(w, c.W());
  }

  /** Formats a device and reads it for the first time. */
  method Blank(device: Device) returns (c: Context)
    requires device.Valid() && device.s.pending == []
    modifies device
    ensures fresh(c) && fresh(c.sb) && fresh(c.table) && fresh(c.sb.inodeFreemap.v) && fresh(c.sb.blockFreemap.v)
    ensures c.sb.dev == device && c.Consistent() && c.table.view == map[] && c.Files() == map[]
    ensures RoomOf(c.W().vol) == Room(NR_BLOCK_BITS, MAX_NR_CSUMS) && NumbersTaken(c.W(), 0)
    ensures c.sb.csumDirty == seq(CSUM_TABLE_SIZE, _ => false)
  {
    hide SuperBlock.InodesUsed, InodeTable.Valid, DiskInode, Bits.BitsOf;
    hide BlocksConsistent, FilesOf, Context.W, Bits.Zeros, Slots, Loaded, CsumClean;
    Format(device);
    var sb := new SuperBlock(device);
    c := new Context(sb);
    assert sb.csumDirty == seq(CSUM_TABLE_SIZE, _ => false);
    FormattedWorld(sb.Vol(), c.W());
    BitsAreBlock(sb.Vol().disk[1]);
  }
}
