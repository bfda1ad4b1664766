/** The super block: freemaps, checksum table, and the allocation of blocks and inode numbers. */
module Super {
  import opened Bytes
  import opened Layout
  import opened Checksum
  import opened Volume
  import opened Reactors
  import opened Device
  import opened Bitmap

  /** Block `nr` of the checksum table, as it is kept on disk. */
  function TableBlock(csum: seq<int32>, nr: nat): Block
    requires |csum| == MAX_NR_CSUMS && nr < CSUM_TABLE_SIZE
  {
    OfInts(csum[128 * nr..128 * (nr + 1)])
  }

  /** A table block that is not marked dirty is the same on disk. */
  ghost predicate CsumClean(disk: Disk, csum: seq<int32>, dirty: seq<bool>)
    requires |csum| == MAX_NR_CSUMS && |dirty| == CSUM_TABLE_SIZE
  {
    forall nr: nat :: nr < CSUM_TABLE_SIZE && !dirty[nr] ==> disk[4 + nr] == TableBlock(csum, nr)
  }

  /** All blocks of the checksum table are on the device. */
  ghost predicate TableSaved(disk: Disk, csum: seq<int32>)
    requires |csum| == MAX_NR_CSUMS
  {
    forall nr: nat :: nr < CSUM_TABLE_SIZE ==> disk[4 + nr] == TableBlock(csum, nr)
  }

  /** The in-memory freemap and checksum table are those on the device. */
  ghost predicate Loaded(v: Vol) {
    && v.used == BitsOf(v.disk[2], 4096) + BitsOf(v.disk[3], 4096)
    && CsumLoaded(v.disk, v.csum)
  }

  ghost predicate CsumLoaded(disk: Disk, csum: seq<int32>)
    requires |csum| == MAX_NR_CSUMS
  {
    forall nr: nat :: nr < CSUM_TABLE_SIZE ==> csum[128 * nr..128 * (nr + 1)] == ToInts(disk[4 + nr])
  }

  lemma LoadedBits(a: seq<byte>, b: seq<byte>)
    requires |a| == |b| == 512
    ensures BitsOf(a + b, NR_BLOCK_BITS) == BitsOf(a, 4096) + BitsOf(b, 4096)
  {
  }

  /** Entry `i` of the table is word `i % 128` of its block `i / 128`. */
  lemma EntryAt(csum: seq<int32>, i: nat)
    requires |csum| == MAX_NR_CSUMS && i < MAX_NR_CSUMS
    ensures IntAt(TableBlock(csum, i / 128), i % 128) == csum[i]
  {
    hide OfInts, IntAt;
    var nr := i / 128;
    IntAtOfInts(csum[128 * nr..128 * (nr + 1)], i % 128);
  }

  lemma TableBlockElsewhere(csum: seq<int32>, i: nat, v: int32, nr: nat)
    requires |csum| == MAX_NR_CSUMS && i < MAX_NR_CSUMS && nr < CSUM_TABLE_SIZE && nr != i / 128
    ensures TableBlock(csum[i := v], nr) == TableBlock(csum, nr)
  {
    assert csum[i := v][128 * nr..128 * (nr + 1)] == csum[128 * nr..128 * (nr + 1)];
  }

  /**
   * The bit of data block `p` was set or cleared, in memory and in the block of the freemap on the device that holds
   * it; but for that block, and perhaps `p` itself, the device is as it was.
   */
  ghost predicate Marks(v: Vol, p: int, bit: bool, v': Vol) {
    && IsData(p) && v'.used == v.used[p - DATA_START := bit] && v'.csum == v.csum
    && (forall q :: 0 <= q < DISK_BLOCKS && q != p && q != 2 + (p - DATA_START) / 4096 ==> v'.disk[q] == v.disk[q])
    && var nr := (p - DATA_START) / 4096;
       BitsOf(v'.disk[2 + nr], 4096) == v'.used[4096 * nr..4096 * (nr + 1)]
  }

  /** Block `p` was free and none before it was; it is allocated now, and holds what it held. */
  ghost predicate LeastTaken(v: Vol, p: int, v': Vol) {
    && IsData(p) && !v.used[p - DATA_START] && (forall i :: 0 <= i < p - DATA_START ==> v.used[i])
    && Marks(v, p, true, v') && v'.disk[p] == v.disk[p]
  }

  /** Block `p` is free now, and full of zeroes. */
  ghost predicate ZeroedAndFreed(v: Vol, p: int, v': Vol) {
    Marks(v, p, false, v') && v'.disk[p] == ZERO_BLOCK
  }

  lemma AllocatedMarks(v: Vol, i: nat)
    requires i < NR_BLOCK_BITS
    ensures i == FirstClear(v.used, 0) ==> LeastTaken(v, DATA_START + i, Allocated(v, i))
  {
    hide BitsOf, BitsBlock;
    BitsOfBitsBlock(v.used[i := true][4096 * (i / 4096)..4096 * (i / 4096 + 1)]);
  }

  lemma FreedMarks(v: Vol, i: nat)
    requires i < NR_BLOCK_BITS
    ensures ZeroedAndFreed(v, DATA_START + i, Freed(v, i))
  {
    hide BitsOf, BitsBlock;
    BitsOfBitsBlock(v.used[i := false][4096 * (i / 4096)..4096 * (i / 4096 + 1)]);
  }

  class SuperBlock {
    const dev: Device
    const inodeFreemap: Bitmap
    const blockFreemap: Bitmap
    var csumTable: seq<int32>
    var csumDirty: seq<bool>

    /** Reads the freemaps and the checksum table from the device. */
    constructor (device: Device)
      requires device.Valid() && device.s.pending == []
      modifies device
      ensures Valid() && Idle() && dev == device && fresh(inodeFreemap.v) && fresh(blockFreemap.v)
      ensures fresh(inodeFreemap) && fresh(blockFreemap)
      ensures device.Disk() == old(device.Disk()) && Loaded(Vol()) && InodesUsed() == BitsOf(Vol().disk[1], 4096)
      ensures forall nr: nat :: nr < CSUM_TABLE_SIZE ==> !csumDirty[nr]
    {
      dev := device;
      inodeFreemap := new Bitmap(4096);
      blockFreemap := new Bitmap(NR_BLOCK_BITS);
      csumTable := seq(MAX_NR_CSUMS, _ => 0);
      csumDirty := seq(CSUM_TABLE_SIZE, _ => false);
      new;
      LoadInodeFreemap();
      LoadBlockFreemap();
      LoadCsumTable();
    }

    method LoadInodeFreemap()
      requires Valid() && Idle()
      modifies inodeFreemap.v, dev
      ensures Valid() && Idle() && dev.Disk() == old(dev.Disk()) && InodesUsed() == BitsOf(dev.Disk()[1], 4096)
    {
      hide BitsOf;
      var b := ReadBlock(1);
      inodeFreemap.Load(0, b);
      assert inodeFreemap.v[..] == b;
    }

    method LoadBlockFreemap()
      requires Valid() && Idle()
      modifies blockFreemap.v, dev
      ensures Valid() && Idle() && dev.Disk() == old(dev.Disk())
      ensures Vol().used == BitsOf(dev.Disk()[2], 4096) + BitsOf(dev.Disk()[3], 4096)
    {
      hide BitsOf;
      var b2: seq<byte> := ReadBlock(2);
      blockFreemap.Load(0, b2);
      var b3: seq<byte> := ReadBlock(3);
      blockFreemap.Load(512, b3);
      assert blockFreemap.v[..] == b2 + b3;
      LoadedBits(b2, b3);
    }

    method LoadCsumTable()
      requires Valid() && Idle()
      modifies this`csumTable, dev
      ensures Valid() && Idle() && dev.Disk() == old(dev.Disk()) && CsumLoaded(dev.Disk(), csumTable)
    {
      hide ToInts, IntAt;
      var nr := 0;
      while nr < CSUM_TABLE_SIZE
        invariant 0 <= nr <= CSUM_TABLE_SIZE
        invariant Valid() && Idle() && dev.Disk() == old(dev.Disk())
        invariant forall k: nat :: k < nr ==> csumTable[128 * k..128 * (k + 1)] == ToInts(dev.Disk()[4 + k])
      {
        var b := ReadBlock(4 + nr);
        ghost var was := csumTable;
        csumTable := csumTable[..128 * nr] + ToInts(b) + csumTable[128 * (nr + 1)..];
        forall k: nat | k < nr + 1 ensures csumTable[128 * k..128 * (k + 1)] == ToInts(dev.Disk()[4 + k]) {
          assert k < nr ==> csumTable[128 * k..128 * (k + 1)] == was[128 * k..128 * (k + 1)];
        }
        nr := nr + 1;
      }
    }

    ghost predicate Valid()
      reads this, dev, inodeFreemap.v, blockFreemap.v
    {
      && dev.Valid()
      && inodeFreemap.Valid() && inodeFreemap.nbits == 4096
      && blockFreemap.Valid() && blockFreemap.nbits == NR_BLOCK_BITS
      && inodeFreemap.v != blockFreemap.v
      && |csumTable| == MAX_NR_CSUMS && |csumDirty| == CSUM_TABLE_SIZE
    }

    /** No request is in flight. */
    ghost predicate Idle()
      reads dev
    {
      dev.s.pending == []
    }

    function Vol(): Vol
      requires Valid()
      reads this, dev, inodeFreemap.v, blockFreemap.v
    {
      VolData.Vol(dev.Disk(), blockFreemap.Bits(), csumTable)
    }

    /** The bits of the inode freemap. */
    function InodesUsed(): (s: seq<bool>)
      reads inodeFreemap.v
      ensures |s| == 4096
    {
      if 4096 <= 8 * inodeFreemap.v.Length then BitsOf(inodeFreemap.v[..], 4096) else seq(4096, _ => false)
    }

    method ReadBlock(p: int) returns (b: Block)
      requires Valid() && Idle() && 0 <= p < DISK_BLOCKS
      modifies dev
      ensures Valid() && Idle() && Vol() == old(Vol()) && b == Vol().disk[p]
      ensures dev.readLog == old(dev.readLog) + [Extent(p, 1)] && dev.writeLog == old(dev.writeLog)
    {
      IdleMay(dev.s, p, 1);
      var data := dev.ReadBlocks(p, 1);
      b := data[0];
      IdleAgain(old(dev.s), dev.s, old(dev.Disk()));
    }

    method WriteBlock(b: Block, p: int)
      requires Valid() && Idle() && 0 <= p < DISK_BLOCKS
      modifies dev
      ensures Valid() && Idle() && Vol() == old(Vol().(disk := Vol().disk[p := b]))
      ensures dev.readLog == old(dev.readLog) && dev.writeLog == old(dev.writeLog) + [Extent(p, 1)]
    {
      IdleMay(dev.s, p, 1);
      dev.WriteBlocks([b], p);
      assert Put(old(dev.Disk()), p, [b]) == old(dev.Disk())[p := b];
      IdleAgain(old(dev.s), dev.s, Put(old(dev.Disk()), p, [b]));
    }

    /** Writes the freemap block that holds bit `index`. */
    method WriteBlockFreemap(index: nat)
      requires Valid() && Idle() && index < NR_BLOCK_BITS
      modifies dev
      ensures Valid() && Idle()
      ensures var v := old(Vol()); var nr := index / 4096;
              Vol() == v.(disk := v.disk[2 + nr := FreemapBlock(v.used, nr)])
    {
      var nr := index / 4096;
      FreemapBytes(blockFreemap.v[..], NR_BLOCK_BITS, nr);
      var b: Block := blockFreemap.v[512 * nr..512 * (nr + 1)];
      assert b == blockFreemap.v[..][512 * nr..512 * (nr + 1)];
      WriteBlock(b, 2 + nr);
    }

    method WriteInodeFreemap()
      requires Valid() && Idle()
      modifies dev
      ensures Valid() && Idle()
      ensures var v := old(Vol()); Vol() == v.(disk := v.disk[1 := FreemapBlock(InodesUsed(), 0)])
    {
      FreemapBytes(inodeFreemap.v[..], 4096, 0);
      var b: Block := inodeFreemap.v[..512];
      assert b == inodeFreemap.v[..][512 * 0..512 * (0 + 1)];
      WriteBlock(b, 1);
    }

    /** Writes both blocks of the block freemap with one request. */
    method WriteWholeBlockFreemap()
      requires Valid() && Idle()
      modifies dev
      ensures Valid() && Idle()
      ensures var v := old(Vol());
        Vol() == v.(disk := v.disk[2 := FreemapBlock(v.used, 0)][3 := FreemapBlock(v.used, 1)])
    {
      hide FreemapBlock, BitsOf;
      FreemapBytes(blockFreemap.v[..], NR_BLOCK_BITS, 0);
      FreemapBytes(blockFreemap.v[..], NR_BLOCK_BITS, 1);
      var a: Block := blockFreemap.v[..512];
      var b: Block := blockFreemap.v[512..];
      assert a == blockFreemap.v[..][512 * 0..512 * (0 + 1)] && b == blockFreemap.v[..][512 * 1..512 * (1 + 1)];
      IdleMay(dev.s, 2, 2);
      dev.WriteBlocks([a, b], 2);
      assert Put(old(dev.Disk()), 2, [a, b]) == old(dev.Disk())[2 := a][3 := b];
      IdleAgain(old(dev.s), dev.s, Put(old(dev.Disk()), 2, [a, b]));
    }

    /** Takes the first free inode number, or fails when there is none. */
    method AllocInode() returns (ok: bool, nr: nat)
      requires Valid() && Idle()
      modifies dev, inodeFreemap.v
      ensures Valid() && Idle() && nr == FirstClear(old(InodesUsed()), 0) && (ok <==> nr < 4096)
      ensures !ok ==> Vol() == old(Vol()) && InodesUsed() == old(InodesUsed())
      ensures ok ==> InodesUsed() == old(InodesUsed())[nr := true]
      ensures ok ==> Vol() == old(Vol()).(disk := old(Vol().disk)[1 := FreemapBlock(InodesUsed(), 0)])
    {
      hide FreemapBlock, BitsOf;
      ok, nr := inodeFreemap.Alloc();
      if ok {
        WriteInodeFreemap();
      } else {
        nr := 4096;
      }
    }

    /** Gives an inode number back. */
    method FreeInode(nr: nat)
      requires Valid() && Idle() && nr < 4096 && InodesUsed()[nr]
      modifies dev, inodeFreemap.v
      ensures Valid() && Idle() && InodesUsed() == old(InodesUsed())[nr := false]
      ensures Vol() == old(Vol()).(disk := old(Vol().disk)[1 := FreemapBlock(InodesUsed(), 0)])
    {
      hide FreemapBlock, BitsOf;
      inodeFreemap.Unmark(nr);
      WriteInodeFreemap();
    }

    /** Takes the first free block and returns its number, or fails when there is none. */
    method AllocBlock() returns (ok: bool, p: int)
      requires Valid() && Idle()
      modifies dev, blockFreemap.v
      ensures Valid() && Idle()
      ensures ok <==> FirstClear(old(Vol().used), 0) < NR_BLOCK_BITS
      ensures !ok ==> Vol() == old(Vol())
      ensures ok ==>
        var v, i := old(Vol()), FirstClear(old(Vol().used), 0);
        p == DATA_START + i && Vol() == Allocated(v, i)
      ensures ok ==> LeastTaken(old(Vol()), p, Vol())
    {
      ghost var v := Vol();
      var index;
      ok, index := blockFreemap.Alloc();
      if !ok {
        return false, 0;
      }
      WriteBlockFreemap(index);
      p := DATA_START + index;
      AllocatedMarks(v, index);
    }

    /** Zeroes the block on the device and gives it back. */
    method FreeBlock(p: int)
      requires Valid() && Idle() && IsUsed(Vol(), p)
      modifies dev, blockFreemap.v
      ensures Valid() && Idle()
      ensures Vol() == Freed(old(Vol()), p - DATA_START)
      ensures ZeroedAndFreed(old(Vol()), p, Vol())
    {
      ghost var v := Vol();
      dev.ZeroBlocks(p, 1);
      assert Vol().disk == old(Vol().disk)[p := ZERO_BLOCK];
      blockFreemap.Unmark(p - DATA_START);
      WriteBlockFreemap(p - DATA_START);
      FreedMarks(v, p - DATA_START);
    }

    // Checksums

    /** Sets a table entry and writes its table block. */
    method PutCsum(p: int, csum: int32)
      requires Valid() && Idle() && DATA_START <= p < DATA_START + MAX_NR_CSUMS
      modifies this`csumTable, dev
      ensures Valid() && Idle()
      ensures var v, i := old(Vol()), p - DATA_START; var table := v.csum[i := csum];
              Vol() == v.(csum := table, disk := v.disk[4 + i / 128 := TableBlock(table, i / 128)])
      ensures CsumClean(old(Vol().disk), old(csumTable), csumDirty) ==> CsumClean(Vol().disk, csumTable, csumDirty)
    {
      hide OfInts;
      ghost var was := csumTable;
      var nr := (p - DATA_START) / 128;
      csumTable := csumTable[p - DATA_START := csum];
      WriteBlock(TableBlock(csumTable, nr), 4 + nr);
      forall k: nat | k < CSUM_TABLE_SIZE && k != nr ensures TableBlock(csumTable, k) == TableBlock(was, k) {
        TableBlockElsewhere(was, p - DATA_START, csum, k);
      }
    }

    /** Sets a table entry in memory only and marks its table block dirty. */
    method SetCsum(p: int, csum: int32)
      requires Valid() && DATA_START <= p < DATA_START + MAX_NR_CSUMS
      modifies this`csumTable, this`csumDirty
      ensures Valid() && csumTable == old(csumTable)[p - DATA_START := csum]
      ensures csumDirty == old(csumDirty)[(p - DATA_START) / 128 := true]
      ensures CsumClean(dev.Disk(), old(csumTable), old(csumDirty)) ==> CsumClean(dev.Disk(), csumTable, csumDirty)
    {
      hide OfInts;
      ghost var was := csumTable;
      var nr := (p - DATA_START) / 128;
      csumTable := csumTable[p - DATA_START := csum];
      csumDirty := csumDirty[nr := true];
      forall k: nat | k < CSUM_TABLE_SIZE && k != nr ensures TableBlock(csumTable, k) == TableBlock(was, k) {
        TableBlockElsewhere(was, p - DATA_START, csum, k);
      }
    }

    /** Writes the dirty table blocks. */
    method FlushCsum()
      requires Valid() && Idle()
      modifies this`csumDirty, dev
      ensures Valid() && Idle() && csumDirty == seq(CSUM_TABLE_SIZE, _ => false)
      ensures Vol() == old(Vol()).(disk := CsumFlushed(old(Vol().disk), csumTable, old(csumDirty), CSUM_TABLE_SIZE))
    {
      hide OfInts, TableBlock;
      var nr := 0;
      while nr < CSUM_TABLE_SIZE
        invariant 0 <= nr <= CSUM_TABLE_SIZE && Valid() && Idle()
        invariant forall k: nat :: k < CSUM_TABLE_SIZE ==> csumDirty[k] == (k >= nr && old(csumDirty)[k])
        invariant Vol() == old(Vol()).(disk := CsumFlushed(old(Vol().disk), csumTable, old(csumDirty), nr))
      {
        if csumDirty[nr] {
          WriteBlock(TableBlock(csumTable, nr), 4 + nr);
          csumDirty := csumDirty[nr := false];
        }
        nr := nr + 1;
      }
    }

    /** Whether the block's checksum is the one in the table. */
    method VerifyCsum(p: int) returns (ok: bool)
      requires Valid() && Idle() && DATA_START <= p < DATA_START + MAX_NR_CSUMS
      modifies dev
      ensures Valid() && Idle() && Vol() == old(Vol())
      ensures ok <==> csumTable[p - DATA_START] == Csum(Vol().disk[p])
    {
      var block := ReadBlock(p);
      var csum := CalculateCsum(block);
      ok := csum == csumTable[p - DATA_START];
    }
  }

  /** The device after the dirty ones among the first `n` table blocks were written. */
  function CsumFlushed(disk: Disk, csum: seq<int32>, dirty: seq<bool>, n: nat): Disk
    requires |csum| == MAX_NR_CSUMS && |dirty| == CSUM_TABLE_SIZE && n <= CSUM_TABLE_SIZE
  {
    if n == 0 then disk
    else if dirty[n - 1] then CsumFlushed(disk, csum, dirty, n - 1)[3 + n := TableBlock(csum, n - 1)]
    else CsumFlushed(disk, csum, dirty, n - 1)
  }

  lemma {:induction false} CsumFlushedAt(disk: Disk, csum: seq<int32>, dirty: seq<bool>, n: nat, p: nat)
    requires |csum| == MAX_NR_CSUMS && |dirty| == CSUM_TABLE_SIZE && n <= CSUM_TABLE_SIZE && p < DISK_BLOCKS
    ensures CsumFlushed(disk, csum, dirty, n)[p]
         == if 4 <= p < 4 + n && dirty[p - 4] then TableBlock(csum, p - 4) else disk[p]
  {
    hide OfInts, TableBlock;
    if n > 0 {
      CsumFlushedAt(disk, csum, dirty, n - 1, p);
    }
  }

  /** After a flush the whole table is on the device. */
  lemma FlushedTableIsOnDisk(disk: Disk, csum: seq<int32>, dirty: seq<bool>)
    requires |csum| == MAX_NR_CSUMS && |dirty| == CSUM_TABLE_SIZE && CsumClean(disk, csum, dirty)
    ensures CsumClean(CsumFlushed(disk, csum, dirty, CSUM_TABLE_SIZE), csum, seq(CSUM_TABLE_SIZE, _ => false))
    ensures CsumLoaded(CsumFlushed(disk, csum, dirty, CSUM_TABLE_SIZE), csum)
  {
    hide OfInts;
    var disk' := CsumFlushed(disk, csum, dirty, CSUM_TABLE_SIZE);
    forall nr: nat | nr < CSUM_TABLE_SIZE
      ensures disk'[4 + nr] == TableBlock(csum, nr) && csum[128 * nr..128 * (nr + 1)] == ToInts(disk'[4 + nr]) {
      CsumFlushedAt(disk, csum, dirty, CSUM_TABLE_SIZE, 4 + nr);
      ToIntsOfInts(csum[128 * nr..128 * (nr + 1)]);
    }
  }

  /** New freemap bits, with freemap block `nr` written to the device. */
  function WithBits(v: Vol, used: seq<bool>, nr: nat): Vol
    requires |used| == NR_BLOCK_BITS && nr < 2
  {
    VolData.Vol(v.disk[2 + nr := FreemapBlock(used, nr)], used, v.csum)
  }

  /** Block bit `i` is taken and its freemap block written. */
  function Allocated(v: Vol, i: nat): Vol
    requires i < NR_BLOCK_BITS
  {
    WithBits(v, v.used[i := true], i / 4096)
  }

  function Freed(v: Vol, i: nat): Vol
    requires i < NR_BLOCK_BITS
  {
    WithBits(VolData.Vol(v.disk[DATA_START + i := ZERO_BLOCK], v.used, v.csum), v.used[i := false], i / 4096)
  }
}
