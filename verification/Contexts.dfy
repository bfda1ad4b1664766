/**
 * The shell's context: super block, table of in-memory inodes, current directory; getting, saving, making and
 * removing inodes.
 */
module Contexts {
  import opened Bytes
  import opened Layout
  import opened Checksum
  import opened Volume
  import Bits = Bitmap
  import opened Device
  import opened Super
  import opened Steps
  import opened Inodes
  import opened World
  import opened Table
  import opened Dirents
  import opened Tree
  import opened DirOps

  /** Inode number `index` taken or given back, and `b` written as the inode freemap. */
  function Renumbered(w: World, index: nat, bit: bool, b: Block): World
    requires index < NR_INODE_BITS
  {
    WorldData.World(WithDisk(w.vol, w.vol.disk[1 := b]), w.live[index := bit], w.inodes)
  }

  class Context {
    const sb: SuperBlock
    const table: InodeTable
    var curDir: Inode
    ghost var shape: Shape

    /** No inode is in use yet, and there is no current directory: the one it starts with stands for none. */
    constructor (sb: SuperBlock)
      requires sb.Valid() && sb.Idle()
      ensures this.sb == sb && fresh(table) && fresh(curDir) && table.view == map[] && Struct() && CachedLive()
      ensures W() == DiskWorld(sb.Vol(), sb.InodesUsed())
    {
      this.sb := sb;
      this.table := new InodeTable();
      this.curDir := new Inode(sb, 0, ZERO_DINODE);
      this.shape := ROOT_SHAPE;
      new;
      NothingCached();
    }

    lemma NothingCached()
      requires sb.Valid() && table.view == map[]
      ensures W() == DiskWorld(sb.Vol(), sb.InodesUsed())
    {
      hide SuperBlock.Vol, SuperBlock.Valid, DecodeDInode, SuperBlock.InodesUsed;
      assert W().inodes == DiskWorld(sb.Vol(), sb.InodesUsed()).inodes;
    }

    /** A cached inode belongs to this file system, and is clean only if it is the same on disk. */
    ghost predicate CacheOk(i: nat)
      requires i in table.view && sb.Valid()
      reads table, table.view.Values, sb, sb.dev, sb.inodeFreemap.v, sb.blockFreemap.v
    {
      var in_ := table.view[i];
      && i < NR_INODES && in_.nr == i && in_.sb == sb && |in_.indirect| == 128 && !in_.indirectDirty && in_.count > 0
      && (!in_.dirty ==> in_.din == DiskInode(sb.Vol().disk, i))
    }

    /** Every cached inode is live. */
    ghost predicate CachedLive()
      reads table, table.view.Values, sb, sb.inodeFreemap.v
    {
      forall i :: i in table.view ==> i < NR_INODE_BITS && sb.InodesUsed()[i]
    }

    /** Everything fits together but, perhaps, the directories. */
    ghost predicate Consistent()
      reads table, table.view.Values, sb, sb.dev, sb.inodeFreemap.v, sb.blockFreemap.v
    {
      sb.Valid() && Struct() && CachedLive() && BlocksConsistent(W()) && MapsSaved()
    }

    ghost function Files(): Files
      requires sb.Valid() && BlocksConsistent(W())
      reads table, table.view.Values, sb, sb.dev, sb.inodeFreemap.v, sb.blockFreemap.v
    {
      FilesOf(W())
    }

    /**
     * Between two commands: all is consistent, the directories are a tree, and only the current directory is in use.
     */
    ghost predicate Valid()
      reads this, table, table.view.Values, sb, sb.dev, sb.inodeFreemap.v, sb.blockFreemap.v
    {
      && curDir.nr in table.view && table.view == map[curDir.nr := table.view[curDir.nr]]
      && table.view[curDir.nr] == curDir && table.view[curDir.nr].count == 1
      && Consistent() && InTree()
    }

    /** The directories form the tree `shape`, and the current directory is one of them. */
    ghost predicate InTree()
      requires Consistent()
      reads this, table, table.view.Values, sb, sb.dev, sb.inodeFreemap.v, sb.blockFreemap.v
    {
      TreeOk(Files(), shape) && IsDir(Files(), curDir.nr)
    }

    /** Checksum table blocks that are not marked dirty are on the disk, and the inode freemap always is. */
    ghost predicate MapsSaved()
      reads sb, sb.dev, sb.inodeFreemap.v, sb.blockFreemap.v
    {
      && sb.Valid() && CsumClean(sb.Vol().disk, sb.csumTable, sb.csumDirty)
      && sb.Vol().disk[1] == Bits.FreemapBlock(sb.InodesUsed(), 0)
    }

    twostate lemma MapsStaySaved()
      requires old(sb.Valid()) && sb.Valid() && sb.csumTable == old(sb.csumTable) && sb.csumDirty == old(sb.csumDirty)
      requires TableKept(old(sb.Vol().disk), sb.Vol().disk)
      requires || sb.Vol().disk[1] == Bits.FreemapBlock(sb.InodesUsed(), 0)
               || (sb.Vol().disk[1] == old(sb.Vol().disk)[1] && sb.InodesUsed() == old(sb.InodesUsed()))
      ensures old(MapsSaved()) ==> MapsSaved()
    {
      hide TableBlock, Bits.FreemapBlock, SuperBlock.InodesUsed;
      CsumCleanKept(old(sb.Vol().disk), sb.Vol().disk, sb.csumTable, sb.csumDirty);
    }

    ghost predicate Struct()
      reads table, table.view.Values, sb, sb.dev, sb.inodeFreemap.v, sb.blockFreemap.v
    {
      table.Valid() && sb.Valid() && sb.Idle() && forall i :: i in table.view ==> CacheOk(i)
    }

    /** The current dinode of an inode number: the cached one, or else the one on disk. */
    ghost function Current(i: nat): DInode
      requires i < NR_INODES && sb.Valid()
      reads table, table.view.Values, sb, sb.dev, sb.inodeFreemap.v, sb.blockFreemap.v
    {
      if i in table.view then table.view[i].din else DiskInode(sb.Vol().disk, i)
    }

    ghost function W(): World
      requires sb.Valid()
      reads table, table.view.Values, sb, sb.dev, sb.inodeFreemap.v, sb.blockFreemap.v
    {
      WorldData.World(sb.Vol(), sb.InodesUsed(), seq(NR_INODES, i requires 0 <= i < NR_INODES && sb.Valid()
        reads table, table.view.Values, sb, sb.dev, sb.inodeFreemap.v, sb.blockFreemap.v => Current(i)))
    }

    twostate lemma SameW()
      requires old(sb.Valid()) && sb.Valid() && sb.Vol() == old(sb.Vol()) && sb.InodesUsed() == old(sb.InodesUsed())
      requires forall i: nat :: i < NR_INODES ==> Current(i) == old(Current(i))
      ensures W() == old(W())
      ensures old(MapsSaved()) && unchanged(sb`csumDirty) ==> MapsSaved()
    {
      hide TableBlock, Bits.FreemapBlock;
      assert W().inodes == old(W().inodes);
    }

    /** Nothing happened but reading. */
    twostate lemma OnlyRead()
      requires old(Consistent()) && unchanged(table) && unchanged(sb)
      requires forall i :: i in table.view ==> unchanged(table.view[i])
      requires sb.Valid() && sb.Idle() && sb.Vol() == old(sb.Vol()) && sb.InodesUsed() == old(sb.InodesUsed())
      ensures Consistent() && W() == old(W())
    {
      hide SuperBlock.Vol, SuperBlock.Valid, SuperBlock.InodesUsed, InodeTable.Valid, DiskInode, BlocksConsistent;
      hide MapsSaved;
      forall i | i in table.view ensures CacheOk(i) {
        assert old(CacheOk(i));
      }
      SameW();
    }

    /** A cached inode is ready to be changed. */
    lemma MayChange(in_: Inode)
      requires Consistent() && in_.nr in table.view && table.view[in_.nr] == in_
      ensures in_.sb == sb && in_.Ready() && !in_.indirectDirty && in_.count > 0 && Sound(sb.Vol(), in_.din)
      ensures sb.inodeFreemap.v != sb.blockFreemap.v && CsumClean(sb.Vol().disk, sb.csumTable, sb.csumDirty)
      ensures forall i :: i in table.view && i != in_.nr ==> table.view[i] != in_
    {
      hide SuperBlock.Vol, Sound, Contents, BlocksConsistent, W, CsumClean;
      CachedSound(in_);
    }

    /** The world has the dinode of a cached inode, and the volume. */
    lemma CachedWorld(in_: Inode)
      requires Consistent() && in_.nr in table.view && table.view[in_.nr] == in_
      ensures in_.nr < NR_INODES && W().inodes[in_.nr] == in_.din && W().vol == sb.Vol() && W().live == sb.InodesUsed()
      ensures in_.din.size >= 0 && W().live[in_.nr]
    {
      hide SuperBlock.Vol, SuperBlock.Valid, SuperBlock.InodesUsed, DiskInode, BlocksConsistent;
      assert CacheOk(in_.nr);
      SizeKnown(W(), in_.nr);
    }

    lemma NumberIs(i: nat)
      requires Struct() && i in table.view
      ensures table.view[i].nr == i && table.Valid()
    {
      assert CacheOk(i);
    }

    lemma CachedCount(i: nat)
      requires Consistent() && i in table.view
      ensures table.view[i].nr == i && table.view[i].count > 0
    {
      assert CacheOk(i);
    }

    /** The freemaps in memory. */
    lemma FreemapsAre()
      requires sb.Valid()
      ensures sb.inodeFreemap.Valid() && sb.inodeFreemap.Bits() == W().live
      ensures sb.blockFreemap.Valid() && sb.blockFreemap.Bits() == W().vol.used
    {
    }

    /** With nothing marked dirty the whole checksum table is on the disk. */
    lemma SavedTable()
      requires Consistent()
      ensures sb.csumDirty == seq(CSUM_TABLE_SIZE, _ => false) ==> TableSaved(W().vol.disk, W().vol.csum)
    {
      hide TableBlock;
    }

    lemma LiveIs()
      requires sb.Valid()
      ensures W().live == sb.InodesUsed() && W().vol == sb.Vol()
    {
    }

    /** A cached directory can be walked. */
    lemma CachedDir(dir: Inode)
      requires Consistent() && dir.nr in table.view && table.view[dir.nr] == dir
      requires IsDir(Files(), dir.nr) && IsLog(Files()[dir.nr].bytes)
      ensures Holds(dir, Entries(Files(), dir.nr)) && dir.sb == sb
    {
      hide SuperBlock.Vol, SuperBlock.Valid, Sound, Contents, Log, Parse, BlocksConsistent, W;
      CachedSound(dir);
    }

    /** A file of the world is live. */
    lemma LiveFile(nr: nat)
      requires sb.Valid() && BlocksConsistent(W()) && nr in FilesOf(W())
      ensures nr < NR_INODES && sb.InodesUsed()[nr]
    {
    }

    lemma CurrentInWorld(nr: nat)
      requires sb.Valid() && nr < NR_INODES
      ensures W().inodes[nr] == Current(nr)
    {
    }

    /** The in-memory inode of a number, read from the disk if it is not cached; null when there is no place for it. */
    method GetInode(nr: nat) returns (found: Inode?)
      requires Struct()
      modifies table, table.view.Values`count, sb.dev
      ensures sb.Valid() && Struct() && W() == old(W()) && sb.Vol() == old(sb.Vol())
        && (found == null <==> nr >= NR_INODES)
      ensures found == null ==> table.view == old(table.view)
      ensures found != null ==> found.sb == sb && found.din == old(W()).inodes[nr]
      ensures found != null ==> table.view == old(table.view)[nr := found] && found.nr == nr
      ensures found != null && nr in old(table.view) ==>
        found == old(table.view[nr]) && found.count == old(table.view[nr].count) + 1
      ensures found != null && nr !in old(table.view) ==> fresh(found) && found.count == 1
      ensures found != null && nr !in old(table.view) ==>
        !found.dirty && !found.indirectLoaded && !found.indirectDirty && found.indirect == seq(128, _ => 0)
      ensures forall i :: i in old(table.view) && i != nr ==> table.view[i].count == old(table.view[i].count)
      ensures old(MapsSaved()) ==> MapsSaved()
      ensures old(CachedLive()) && nr < NR_INODES && sb.InodesUsed()[nr] ==> CachedLive()
      ensures old(Consistent()) && nr < NR_INODES && sb.InodesUsed()[nr] ==> Consistent()
    {
      hide BlocksConsistent, MapsSaved, IsLive, DiskInode;
      hide SuperBlock.Vol, SuperBlock.Valid, SuperBlock.InodesUsed, InodeTable.Valid, DecodeDInode, W;
      found := table.Find(nr);
      if found != null {
        CurrentInWorld(nr);
        found.count := found.count + 1;
        assert CacheOk(nr) && nr < NR_INODES;
        assert table.view == table.view[nr := found];
        SameW();
        return;
      }
      if nr / 16 >= 128 {
        SameW();
        return null;
      }
      found := LoadInode(nr);
    }

    /** Reads an inode that is not cached from its inode block and caches it. */
    method LoadInode(nr: nat) returns (in_: Inode)
      requires Struct() && nr < NR_INODES && nr !in table.view
      modifies table, sb.dev
      ensures Struct() && W() == old(W()) && sb.Vol() == old(sb.Vol()) && table.view == old(table.view)[nr := in_]
      ensures old(MapsSaved()) ==> MapsSaved()
      ensures in_.din == old(W()).inodes[nr]
      ensures fresh(in_) && in_.nr == nr && in_.sb == sb && in_.count == 1
      ensures !in_.dirty && !in_.indirectLoaded && !in_.indirectDirty && in_.indirect == seq(128, _ => 0)
    {
      hide SuperBlock.Vol, SuperBlock.Valid, SuperBlock.InodesUsed, InodeTable.Valid, DecodeDInode, W, MapsSaved;
      CurrentInWorld(nr);
      var block := sb.ReadBlock(INODE_START + nr / 16);
      in_ := new Inode(sb, nr, DecodeDInode(block, nr));
      table.Insert(in_);
      SameW();
    }

    /** Gives an inode back; the program asserts that it is clean. */
    method PutInode(in_: Inode) returns (ok: bool)
      requires Struct() && in_.nr in table.view && table.view[in_.nr] == in_
      modifies table, in_`count
      ensures Struct() && W() == old(W()) && sb.Vol() == old(sb.Vol()) && ok == !in_.dirty
      ensures !ok ==> table.view == old(table.view) && in_.count == old(in_.count)
      ensures ok && old(in_.count) == 1 ==> table.view == old(table.view) - {in_.nr}
      ensures ok && old(in_.count) > 1 ==> table.view == old(table.view) && in_.count == old(in_.count) - 1
      ensures (forall i :: i in table.view ==> i < NR_INODE_BITS && sb.InodesUsed()[i]) ==> CachedLive()
      ensures old(Consistent()) ==> Consistent()
      ensures old(CachedLive()) ==> CachedLive()
    {
      hide BlocksConsistent, MapsSaved;
      hide SuperBlock.Vol, SuperBlock.Valid, SuperBlock.InodesUsed, InodeTable.Valid, DiskInode, W;
      if in_.dirty {
        return false;
      }
      assert CacheOk(in_.nr);
      in_.count := in_.count - 1;
      if in_.count == 0 {
        table.Remove(in_);
      }
      SameW();
      ok := true;
    }

    /** The inodes of the world do not change when inode blocks stay and one cached dinode is replaced. */
    twostate lemma DInodeReplaced(in_: Inode)
      requires old(Struct()) && table.view == old(table.view)
      requires in_.nr in table.view && table.view[in_.nr] == in_
      requires sb.Valid() && sb.InodesUsed() == old(sb.InodesUsed())
      requires forall i :: i in table.view && i != in_.nr ==> table.view[i].din == old(table.view[i].din)
      requires forall p :: INODE_START <= p < DATA_START ==> sb.Vol().disk[p] == old(sb.Vol().disk)[p]
      ensures in_.nr < NR_INODES && W() == With(old(W()), sb.Vol(), in_.nr, in_.din)
    {
      hide SuperBlock.Vol, SuperBlock.Valid, SuperBlock.InodesUsed, InodeTable.Valid, DecodeDInode;
      assert old(CacheOk(in_.nr));
      var w := With(old(W()), sb.Vol(), in_.nr, in_.din);
      forall i: nat | i < NR_INODES ensures W().inodes[i] == w.inodes[i] {
        assert sb.Vol().disk[INODE_START + i / 16] == old(sb.Vol().disk)[INODE_START + i / 16];
      }
      assert W().inodes == w.inodes;
    }

    /** A finished operation on the data of one cached inode, seen from the whole file system. */
    twostate lemma DataChanged(in_: Inode, new bytes: seq<byte>)
      requires old(Consistent()) && unchanged(table)
      requires in_.nr in table.view && table.view[in_.nr] == in_ && in_.Ready() && in_.dirty && in_.count > 0
      requires !in_.indirectDirty
      requires CsumClean(sb.Vol().disk, sb.csumTable, sb.csumDirty)
      requires forall i :: i in table.view && i != in_.nr ==> unchanged(table.view[i])
      requires sb.InodesUsed() == old(sb.InodesUsed())
      requires Changed(old(sb.Vol()), old(in_.din), sb.Vol(), in_.din, bytes)
      ensures Consistent() && in_.nr < NR_INODES && W() == With(old(W()), sb.Vol(), in_.nr, in_.din)
      ensures FilesOf(W()) == FilesOf(old(W()))[in_.nr := Node(old(in_.din.typ), bytes)]
      ensures in_.din.typ == old(in_.din.typ) && Cleared(old(W()).vol, W().vol)
    {
      hide Cleared, SuperBlock.Vol, SuperBlock.Valid, SuperBlock.InodesUsed, DecodeDInode, Contents, Own, Sound;
      hide Bits.FreemapBlock;
      assert old(CacheOk(in_.nr));
      ChangedBlocks(old(sb.Vol()), old(in_.din), sb.Vol(), in_.din, bytes);
      DInodeReplaced(in_);
      forall i | i in table.view ensures CacheOk(i) {
        assert old(CacheOk(i));
        assert sb.Vol().disk[INODE_START + i / 16] == old(sb.Vol().disk)[INODE_START + i / 16];
      }
      assert old(W()).inodes[in_.nr] == old(in_.din);
      StepOne(old(W()), in_.nr, sb.Vol(), in_.din);
    }

    /** One cached inode was saved, together with whatever became of its blocks. */
    twostate lemma InodeSaved(in_: Inode, new v1: Vol)
      requires old(Struct()) && unchanged(table) && in_.nr in table.view && table.view[in_.nr] == in_
      requires in_.Ready() && !in_.dirty && in_.count > 0 && !in_.indirectDirty
      requires sb.InodesUsed() == old(sb.InodesUsed())
      requires in_.nr < NR_INODES && sb.Vol() == WithDisk(v1, WithDInode(v1.disk, in_.nr, in_.din))
      requires FixedKept(old(sb.Vol().disk), v1.disk)
      requires forall i :: i in table.view && i != in_.nr ==> unchanged(table.view[i])
      ensures Struct() && W() == WorldData.World(sb.Vol(), old(W()).live, old(W()).inodes[in_.nr := in_.din])
    {
      hide SuperBlock.Vol, SuperBlock.Valid, SuperBlock.InodesUsed, DecodeDInode, EncodeDInode, DiskInode;
      hide InodeTable.Valid;
      assert old(CacheOk(in_.nr));
      var inodes := old(W()).inodes[in_.nr := in_.din];
      SyncedInodes(v1.disk, in_.nr, in_.din);
      forall i: nat | i < NR_INODES ensures W().inodes[i] == inodes[i] {
        SameInodeBlock(old(sb.Vol().disk), v1.disk, i);
      }
      assert W().inodes == inodes;
      forall i | i in table.view ensures CacheOk(i) {
        assert old(CacheOk(i));
        SameInodeBlock(old(sb.Vol().disk), v1.disk, i);
      }
    }

    /** A finished and saved operation on one cached inode, seen from the whole file system. */
    twostate lemma DataSaved(in_: Inode, new bytes: seq<byte>, new v1: Vol)
      requires old(Consistent()) && unchanged(table)
      requires in_.nr in table.view && table.view[in_.nr] == in_ && in_.Ready() && !in_.dirty && in_.count > 0
      requires !in_.indirectDirty
      requires in_.nr < NR_INODES && sb.Vol() == WithDisk(v1, WithDInode(v1.disk, in_.nr, in_.din))
      requires CsumClean(sb.Vol().disk, sb.csumTable, sb.csumDirty)
      requires forall i :: i in table.view && i != in_.nr ==> unchanged(table.view[i])
      requires sb.InodesUsed() == old(sb.InodesUsed())
      requires Changed(old(sb.Vol()), old(in_.din), v1, in_.din, bytes)
      ensures Consistent() && FilesOf(W()) == FilesOf(old(W()))[in_.nr := Node(old(in_.din.typ), bytes)]
      ensures Cleared(old(W()).vol, W().vol)
    {
      hide Cleared, SuperBlock.Vol, SuperBlock.Valid, SuperBlock.InodesUsed, DecodeDInode, EncodeDInode, Contents, Own;
      hide Sound, DiskInode, BlocksConsistent, FilesOf;
      assert old(CacheOk(in_.nr));
      var d, w := old(in_.din), old(W());
      ChangedBlocks(w.vol, d, v1, in_.din, bytes);
      assert w.inodes[in_.nr] == d;
      assert IsLive(w, in_.nr);
      StepOne(w, in_.nr, v1, in_.din);
      var w1 := With(w, v1, in_.nr, in_.din);
      StepNone(w1, sb.Vol());
      ClearedSame(v1, sb.Vol());
      ClearedTrans(w.vol, v1, sb.Vol());
      SyncedInodes(v1.disk, in_.nr, in_.din);
      forall i: nat | i < NR_INODES ensures W().inodes[i] == w1.inodes[i] {
        SameInodeBlock(old(sb.Vol().disk), v1.disk, i);
      }
      assert W().inodes == w1.inodes;
      forall i | i in table.view ensures CacheOk(i) {
        assert old(CacheOk(i));
        SameInodeBlock(old(sb.Vol().disk), v1.disk, i);
      }
    }

    /** Saves a cached inode. */
    method SyncInode(in_: Inode) returns (ok: bool)
      requires Struct() && in_.nr in table.view && table.view[in_.nr] == in_
      modifies in_`dirty, in_`indirectDirty, sb.dev
      ensures ok == old(in_.dirty) && Struct()
      ensures ok ==> !in_.dirty && sb.Vol() == WithDisk(old(sb.Vol()), WithDInode(old(sb.Vol().disk), in_.nr, in_.din))
      ensures W() == WorldData.World(sb.Vol(), old(W()).live, old(W()).inodes)
      ensures forall p :: IsData(p) ==> sb.Vol().disk[p] == old(sb.Vol().disk)[p]
      ensures sb.Vol().used == old(sb.Vol().used) && sb.Vol().csum == old(sb.Vol().csum)
      ensures old(MapsSaved()) ==> MapsSaved()
      ensures BlocksConsistent(old(W())) ==> BlocksConsistent(W()) && FilesOf(W()) == FilesOf(old(W()))
      ensures old(Consistent()) ==> Consistent()
      ensures Cleared(old(W()).vol, W().vol)
    {
      hide SuperBlock.Vol, SuperBlock.Valid, SuperBlock.InodesUsed, InodeTable.Valid, DiskInode, W, EncodeDInode;
      hide Cleared;
      hide BlocksConsistent, FilesOf, CsumClean, MapsSaved;
      assert CacheOk(in_.nr);
      SyncedInodes(sb.Vol().disk, in_.nr, in_.din);
      ok := in_.Sync();
      ClearedSame(old(sb.Vol()), sb.Vol());
      SameInodes();
      if BlocksConsistent(old(W())) {
        StepNone(old(W()), sb.Vol());
      }
      MapsStaySaved();
    }

    /** The bit of inode number `index` in the freemap was changed and the freemap block written. */
    twostate lemma NumberChanged(new index: nat, new bit: bool, new b: Block)
      requires old(sb.Valid()) && sb.Valid() && sb.Idle() && index < NR_INODE_BITS
      requires sb.InodesUsed() == old(sb.InodesUsed())[index := bit] && b == Bits.FreemapBlock(sb.InodesUsed(), 0)
      requires sb.Vol() == WithDisk(old(sb.Vol()), old(sb.Vol().disk)[1 := b])
      requires old(Struct()) && unchanged(table) && forall i :: i in table.view ==> unchanged(table.view[i])
      ensures Struct() && (old(MapsSaved()) && unchanged(sb`csumTable, sb`csumDirty) ==> MapsSaved())
      ensures old(CachedLive()) && bit ==> CachedLive()
      ensures W().vol == sb.Vol() && W() == Renumbered(old(W()), index, bit, b)
    {
      hide SuperBlock.Vol, SuperBlock.Valid, SuperBlock.InodesUsed, InodeTable.Valid, DecodeDInode;
      forall i | i in table.view ensures CacheOk(i) {
        assert old(CacheOk(i));
      }
      assert W().inodes == old(W()).inodes;
      if unchanged(sb`csumTable, sb`csumDirty) {
        MapsStaySaved();
      }
    }

    /** A number whose bit was clear is not cached, and its dinode is empty. */
    lemma UnusedNumber(index: nat)
      requires Struct() && CachedLive() && BlocksConsistent(W())
      requires index <= NR_INODE_BITS && (index < NR_INODE_BITS ==> !sb.InodesUsed()[index])
      ensures index !in table.view && index !in FilesOf(W()) && (index < NR_INODE_BITS ==> !W().live[index])
      ensures index < NR_INODES ==> W().inodes[index] == ZERO_DINODE
    {
    }

    twostate lemma InodeTyped(in_: Inode, new typ: int32)
      requires old(Struct()) && unchanged(table) && unchanged(sb.dev, sb, sb.inodeFreemap.v, sb.blockFreemap.v)
      requires in_.nr in table.view && table.view[in_.nr] == in_ && in_.dirty
      requires old(in_.din) == ZERO_DINODE && in_.din == ZERO_DINODE.(typ := typ)
      requires in_.count == old(in_.count) && in_.indirect == old(in_.indirect)
      requires in_.indirectDirty == old(in_.indirectDirty)
      requires forall i :: i in table.view && i != in_.nr ==> unchanged(table.view[i])
      ensures Struct() && (old(CachedLive()) ==> CachedLive())
      ensures in_.nr < NR_INODES
      ensures W() == WorldData.World(old(W()).vol, old(W()).live, old(W()).inodes[in_.nr := ZERO_DINODE.(typ := typ)])
    {
      hide SuperBlock.Vol, SuperBlock.Valid, SuperBlock.InodesUsed, InodeTable.Valid, DecodeDInode;
      assert old(CacheOk(in_.nr));
      forall i | i in table.view ensures CacheOk(i) {
        assert old(CacheOk(i));
      }
      DInodeReplaced(in_);
    }

    method SetType(in_: Inode, typ: int32)
      requires Struct() && in_.nr in table.view && table.view[in_.nr] == in_ && in_.din == ZERO_DINODE
      modifies in_`din, in_`dirty
      ensures Struct() && (old(CachedLive()) ==> CachedLive()) && in_.dirty && in_.din == ZERO_DINODE.(typ := typ)
      ensures in_.nr < NR_INODES
      ensures W() == WorldData.World(old(W()).vol, old(W()).live, old(W()).inodes[in_.nr := ZERO_DINODE.(typ := typ)])
    {
      in_.din := in_.din.(typ := typ);
      in_.dirty := true;
      InodeTyped(in_, typ);
    }

    /** Takes the first free inode number; nothing is known yet of the inode that it will be. */
    method TakeNumber() returns (ok: bool, index: nat)
      requires Consistent()
      modifies sb.dev, sb.inodeFreemap.v
      ensures sb.Valid() && index == Bits.FirstClear(old(sb.InodesUsed()), 0) && (ok <==> index < NR_INODE_BITS)
      ensures Struct() && CachedLive() && MapsSaved() && (!ok ==> Consistent() && W() == old(W()))
      ensures ok ==> sb.InodesUsed() == old(sb.InodesUsed())[index := true]
      ensures ok ==> W() == WorldData.World(sb.Vol(), old(W()).live[index := true], old(W()).inodes)
      ensures sb.Vol().used == old(W()).vol.used && sb.Vol().csum == old(W()).vol.csum
      ensures forall p :: IsData(p) ==> sb.Vol().disk[p] == old(W()).vol.disk[p]
    {
      hide SuperBlock.Vol, SuperBlock.Valid, SuperBlock.InodesUsed, InodeTable.Valid, W, Bits.FreemapBlock;
      hide BlocksConsistent, DiskInode, MapsSaved, Current, CacheOk;
      LiveIs();
      ok, index := sb.AllocInode();
      if ok {
        NumberChanged(index, true, Bits.FreemapBlock(sb.InodesUsed(), 0));
      } else {
        OnlyRead();
      }
    }

    /** A new inode with a fresh number. */
    method CreateInode(typ: int32) returns (r: Outcome, in_: Inode?)
      requires Consistent() && (typ == I_FILE || typ == I_DIR)
      modifies table, table.view.Values`count, sb.dev, sb.inodeFreemap.v
      ensures sb.Valid() && (r == Done || r == Failed(ENOSPC) || r == Aborted(InodeSlot))
      ensures r == Failed(ENOSPC) <==> Bits.FirstClear(old(sb.InodesUsed()), 0) == NR_INODE_BITS
      ensures r == Failed(ENOSPC) ==> Consistent() && W() == old(W()) && table.view == old(table.view)
      ensures r == Aborted(InodeSlot) <==> NR_INODES <= Bits.FirstClear(old(sb.InodesUsed()), 0) < NR_INODE_BITS
      ensures r == Done ==> in_ != null && fresh(in_) && in_.nr == Bits.FirstClear(old(sb.InodesUsed()), 0)
      ensures r == Done ==> Consistent() && in_.nr !in old(table.view) && table.view == old(table.view)[in_.nr := in_]
      ensures r == Done ==> in_.nr < NR_INODES && in_.count == 1 && in_.dirty && in_.din == ZERO_DINODE.(typ := typ)
      ensures r == Done ==> in_.nr !in FilesOf(old(W()))
      ensures r == Done ==> FilesOf(W()) == FilesOf(old(W()))[in_.nr := Node(typ, [])]
      ensures r == Done ==> W().vol.used == old(W()).vol.used && W().live == old(W()).live[in_.nr := true]
      ensures r == Done ==> W().inodes == old(W()).inodes[in_.nr := in_.din] && Cleared(old(W()).vol, W().vol)
      ensures forall i :: i in old(table.view) ==> i in table.view && table.view[i].count == old(table.view[i].count)
    {
      hide SuperBlock.Vol, SuperBlock.Valid, SuperBlock.InodesUsed, InodeTable.Valid, W, Bits.FreemapBlock;
      hide BlocksConsistent, FilesOf, DiskInode, MapsSaved, IsLive, Current, CacheOk, CachedLive, Struct, Consistent;
      hide Cleared;
      in_ := null;
      ConsistentParts();
      UnusedNumber(Bits.FirstClear(sb.InodesUsed(), 0));
      var ok, index := TakeNumber();
      if !ok {
        return Failed(ENOSPC), null;
      }
      in_ := GetInode(index);
      if in_ == null {
        return Aborted(InodeSlot), null;
      }
      SetType(in_, typ);
      StepCreate(old(W()), index, sb.Vol(), typ);
      ClearedSame(old(W()).vol, sb.Vol());
      ConsistentParts();
      r := Done;
    }

    lemma ConsistentParts()
      ensures Consistent() <==> sb.Valid() && Struct() && CachedLive() && BlocksConsistent(W()) && MapsSaved()
    {
    }

    /** All blocks of an inode were given back, its dinode zeroed and its number freed. */
    twostate lemma Emptied(in_: Inode, new v1: Vol, new d1: DInode)
      requires old(Struct()) && old(CachedLive()) && BlocksConsistent(old(W())) && unchanged(table) && sb.Valid()
      requires in_.nr in table.view && table.view[in_.nr] == in_ && in_.sb == sb
      requires Changed(old(sb.Vol()), old(in_.din), v1, d1, [])
      requires in_.Ready() && in_.dirty && in_.count > 0 && !in_.indirectDirty && in_.din == ZERO_DINODE
      requires in_.nr < NR_INODES && sb.InodesUsed() == old(sb.InodesUsed())[in_.nr := false]
      requires sb.Vol() == WithDisk(v1, v1.disk[1 := Bits.FreemapBlock(sb.InodesUsed(), 0)])
      requires TableKept(old(sb.Vol().disk), v1.disk) && unchanged(sb`csumTable, sb`csumDirty)
      requires forall i :: i in table.view && i != in_.nr ==> unchanged(table.view[i])
      ensures old(MapsSaved()) ==> MapsSaved()
      ensures Struct() && FileGone(old(W()), in_.nr, W())
      ensures forall i :: i in table.view && i != in_.nr ==> i < NR_INODE_BITS && sb.InodesUsed()[i]
    {
      hide SuperBlock.Vol, SuperBlock.Valid, SuperBlock.InodesUsed, DecodeDInode, BlocksConsistent, FilesOf;
      hide Changed, Bits.FreemapBlock, Cleared;
      assert old(CacheOk(in_.nr));
      ChangedBlocks(old(sb.Vol()), old(in_.din), v1, d1, []);
      assert old(W()).inodes[in_.nr] == old(in_.din);
      WorldEmptied(old(W()), in_.nr, v1, d1, Bits.FreemapBlock(sb.InodesUsed(), 0));
      MapsStaySaved();
      var w2 := WorldData.World(sb.Vol(), old(W()).live[in_.nr := false], old(W()).inodes[in_.nr := ZERO_DINODE]);
      forall i | i in table.view ensures CacheOk(i) {
        assert old(CacheOk(i));
        assert sb.Vol().disk[INODE_START + i / 16] == old(sb.Vol().disk)[INODE_START + i / 16];
      }
      forall i: nat | i < NR_INODES ensures W().inodes[i] == w2.inodes[i] {
        assert sb.Vol().disk[INODE_START + i / 16] == old(sb.Vol().disk)[INODE_START + i / 16];
      }
      assert W().inodes == w2.inodes;
    }

    /** Gives back all blocks of an inode, clears it, and gives back its number. */
    method GiveBack(in_: Inode) returns (r: Outcome)
      requires Consistent() && in_.nr in table.view && table.view[in_.nr] == in_
      modifies in_`din, in_`dirty, sb.dev, sb.inodeFreemap.v, sb.blockFreemap.v
      ensures r == if old(Dangling(in_.din)) then Aborted(NoIndirect) else Done
      ensures r == Done ==> sb.Valid() && Struct() && MapsSaved() && FileGone(old(W()), in_.nr, W())
      ensures r == Done ==> in_.dirty && in_.din == ZERO_DINODE
      ensures r == Done ==>
        forall i :: i in table.view && i != in_.nr ==> i < NR_INODE_BITS && sb.InodesUsed()[i]
    {
      hide MapsSaved, TableKept, Current, Sound, Contents, WithDInode, Bits.FreemapBlock, CacheOk;
      hide SuperBlock.Vol, SuperBlock.Valid, SuperBlock.InodesUsed, InodeTable.Valid, W, DiskInode;
      hide BlocksConsistent, FilesOf, Truncated, Changed, Cleared, FileGone;
      ghost var v0, d0 := sb.Vol(), in_.din;
      CachedSound(in_);
      CachedCount(in_.nr);
      FreemapsDiffer(sb);
      r := in_.Truncate(0);
      if r != Done {
        return;
      }
      ghost var v1, d1 := sb.Vol(), in_.din;
      CutToNothing(v0, d0, v1, d1);
      in_.din := ZERO_DINODE;
      in_.dirty := true;
      sb.FreeInode(in_.nr);
      Emptied(in_, v1, d1);
    }

    /**
     * Gives back an inode; an unneeded indirect block violates an assertion. An inode that is held elsewhere too stays
     * cached, empty, under a number that is free.
     */
    method RemoveInode(in_: Inode) returns (r: Outcome)
      requires Consistent() && in_.nr in table.view && table.view[in_.nr] == in_
      modifies table, in_, sb.dev, sb.inodeFreemap.v, sb.blockFreemap.v
      ensures r == if old(Dangling(in_.din)) then Aborted(NoIndirect) else Done
      ensures r == Done ==> sb.Valid() && Struct() && FileGone(old(W()), in_.nr, W())
      ensures r == Done && old(in_.count) == 1 ==> Consistent() && table.view == old(table.view) - {in_.nr}
      ensures r == Done && old(in_.count) > 1 ==>
        table.view == old(table.view) && in_.count == old(in_.count) - 1 && in_.din == ZERO_DINODE && !in_.dirty
    {
      hide MapsSaved, Current, WithDInode, CacheOk, Dangling, Inode.Ready;
      hide SuperBlock.Vol, SuperBlock.Valid, SuperBlock.InodesUsed, InodeTable.Valid, W, DiskInode;
      hide BlocksConsistent, FilesOf, Cleared, FileGone, CachedLive;
      ConsistentParts();
      CachedCount(in_.nr);
      r := GiveBack(in_);
      if r != Done {
        return;
      }
      ghost var w1 := W();
      var saved := SyncInode(in_);
      LiveIs();
      GoneAndSaved(old(W()), in_.nr, w1, W());
      var clean := PutInode(in_);
      ConsistentParts();
    }

    /** A cached inode is a live inode of the world. */
    lemma CachedSound(in_: Inode)
      requires Struct() && CachedLive() && BlocksConsistent(W()) && in_.nr in table.view && table.view[in_.nr] == in_
      ensures in_.Ready() && in_.nr < NR_INODES && sb.InodesUsed()[in_.nr] && !in_.indirectDirty && in_.sb == sb
      ensures WfInode(sb.Vol().disk, in_.din) && AllUsed(sb.Vol(), Own(sb.Vol().disk, in_.din, BlocksFor(in_.din.size)))
      ensures forall i :: i in table.view && i != in_.nr ==> table.view[i] != in_
      ensures Sound(sb.Vol(), in_.din) && (in_.din.typ == I_FILE || in_.din.typ == I_DIR)
      ensures in_.nr in FilesOf(W()) && FilesOf(W())[in_.nr] == Node(in_.din.typ, Contents(sb.Vol().disk, in_.din))
    {
      hide SuperBlock.Vol, SuperBlock.Valid, Contents, Own;
      assert CacheOk(in_.nr);
      assert W().inodes[in_.nr] == in_.din && IsLive(W(), in_.nr);
      SizeKnown(W(), in_.nr);
    }

    twostate lemma SameInodes()
      requires old(sb.Valid()) && sb.Valid() && sb.InodesUsed() == old(sb.InodesUsed())
      requires forall i: nat :: i < NR_INODES ==> Current(i) == old(Current(i))
      ensures W() == WorldData.World(sb.Vol(), old(W()).live, old(W()).inodes) && old(W()).vol == old(sb.Vol())
    {
      assert W().inodes == old(W().inodes);
    }
  }

  /** One file has gone, what it held is zero, and the others are as they were. */
  ghost predicate FileGone(w: World, nr: nat, w': World) {
    BlocksConsistent(w) && BlocksConsistent(w') && FilesOf(w') == FilesOf(w) - {nr} && Cleared(w.vol, w'.vol)
  }

  ghost predicate SameFiles(w: World, w': World) {
    BlocksConsistent(w) && BlocksConsistent(w') && FilesOf(w') == FilesOf(w) && Cleared(w.vol, w'.vol)
  }

  lemma GoneAndSaved(w: World, nr: nat, w1: World, w2: World)
    requires FileGone(w, nr, w1) && Cleared(w1.vol, w2.vol)
    requires BlocksConsistent(w1) ==> BlocksConsistent(w2) && FilesOf(w2) == FilesOf(w1)
    ensures FileGone(w, nr, w2) && BlocksConsistent(w2)
  {
    hide BlocksConsistent, FilesOf, Cleared;
    ClearedTrans(w.vol, w1.vol, w2.vol);
  }

  lemma ChangedBlocks(v: Vol, d: DInode, v': Vol, d': DInode, bytes: seq<byte>)
    requires Changed(v, d, v', d', bytes)
    ensures forall p :: INODE_START <= p < DATA_START || p == 1 ==> v'.disk[p] == v.disk[p]
    ensures Sound(v', d') && d'.typ == d.typ && d.size >= 0
    ensures OwnStep(v, Own(v.disk, d, BlocksFor(d.size)), v', Own(v'.disk, d', BlocksFor(d'.size))) && Cleared(v, v')
  {
    hide Own, Sound, Contents, Cleared;
  }

  lemma FreemapsDiffer(sb: SuperBlock)
    requires sb.Valid()
    ensures sb.inodeFreemap.v != sb.blockFreemap.v
  {
  }

  /** A live inode that was cut to nothing is zeroed and its number freed. */
  lemma WorldEmptied(w: World, nr: nat, v1: Vol, d1: DInode, b: Block)
    requires BlocksConsistent(w) && IsLive(w, nr) && Changed(w.vol, w.inodes[nr], v1, d1, [])
    ensures var w' := WorldData.World(WithDisk(v1, v1.disk[1 := b]), w.live[nr := false], w.inodes[nr := ZERO_DINODE]);
            BlocksConsistent(w') && FilesOf(w') == FilesOf(w) - {nr} && Cleared(w.vol, w'.vol)
  {
    hide Contents, Own, Sound, OwnStep, Cleared;
    ChangedBlocks(w.vol, w.inodes[nr], v1, d1, []);
    SoundEmpty(v1, d1);
    var w1 := With(w, v1, nr, d1);
    StepOne(w, nr, v1, d1);
    var w' := WorldData.World(WithDisk(v1, v1.disk[1 := b]), w.live[nr := false], w.inodes[nr := ZERO_DINODE]);
    StepRemove(w1, nr, w'.vol);
    ClearedSame(v1, w'.vol);
    ClearedTrans(w.vol, v1, w'.vol);
    assert w'.inodes == w1.inodes[nr := ZERO_DINODE];
  }

  lemma SoundEmpty(v: Vol, d: DInode)
    requires Sound(v, d) && Contents(v.disk, d) == []
    ensures d.size == 0 && Own(v.disk, d, BlocksFor(d.size)) == {}
  {
  }

  lemma CutToNothing(v: Vol, d: DInode, v': Vol, d': DInode)
    requires Sound(v, d)
    requires d.size <= 0 ==> v' == v && d' == d
    requires d.size > 0 ==> Truncated(v, d, BlocksFor(d.size), BlocksFor(0), v', d')
    requires d.size > 0 ==> d' == d.(direct := d'.direct, indirect := d'.indirect, size := 0)
    ensures Changed(v, d, v', d', []) && TableKept(v.disk, v'.disk)
  {
    hide Own, Truncated, Contents;
    if d.size > 0 {
      AfterTruncate(v, d, 0, v', d');
      TruncatedTable(v, d, BlocksFor(d.size), BlocksFor(0), v', d');
    } else {
      OwnStepHere(v, Own(v.disk, d, BlocksFor(d.size)));
    }
  }

  lemma SameInodeBlock(disk: Disk, disk': Disk, i: nat)
    requires i < NR_INODES && disk'[INODE_START + i / 16] == disk[INODE_START + i / 16]
    ensures DiskInode(disk', i) == DiskInode(disk, i)
  {
  }
}
