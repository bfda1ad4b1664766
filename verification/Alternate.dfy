/** The alternate write path as functions on values: one inode with its cached indirect block. */
module Alternate {
  import opened Bytes
  import opened Layout
  import opened Checksum
  import opened Volume
  import Bits = Bitmap
  import opened Super
  import opened Steps
  import opened Inodes

  /** What the path works on: volume, dirty flags of the checksum table, dinode, cached indirect block and its flags. */
  datatype AltData = Alt(v: Vol, csumDirty: seq<bool>, d: DInode, table: seq<int32>, loaded: bool, tableDirty: bool,
    dirty: bool)

  type Alt = a: AltData | |a.csumDirty| == CSUM_TABLE_SIZE && |a.table| == 128
    witness Alt(VolData.Vol(seq<Block>(DISK_BLOCKS, _ => ZERO_BLOCK), seq(NR_BLOCK_BITS, _ => false),
      seq<int32>(MAX_NR_CSUMS, _ => 0)),
                seq(CSUM_TABLE_SIZE, _ => false), ZERO_DINODE, seq(128, _ => 0), false, false, false)

  /** The device as it will be when a changed indirect block has been written. */
  function VDisk(a: Alt): Disk {
    if a.tableDirty && IsData(a.d.indirect) then a.v.disk[a.d.indirect := OfInts(a.table)] else a.v.disk
  }

  function VVol(a: Alt): Vol {
    VolData.Vol(VDisk(a), a.v.used, a.v.csum)
  }

  /** A loaded table is the indirect block, up to changes that are marked dirty. */
  ghost predicate Coherent(a: Alt) {
    && (a.d.indirect == 0 || IsData(a.d.indirect))
    && (a.tableDirty ==> a.loaded && a.d.indirect != 0)
    && (a.loaded && a.d.indirect != 0 ==> VDisk(a)[a.d.indirect] == OfInts(a.table))
  }

  // The steps of the path

  /** `testfs_ensure_indirect_loaded` */
  function EnsureLoaded(a: Alt): Alt {
    if a.loaded || !IsData(a.d.indirect) then a
    else Alt(a.v, a.csumDirty, a.d, ToInts(a.v.disk[a.d.indirect]), true, a.tableDirty, a.dirty)
  }

  /** `testfs_inode_log_to_phy`: the inode after a possible load, and the block number. */
  function LogToPhy(a: Alt, l: nat): (Alt, int) {
    if l < 4 then (a, a.d.direct[l])
    else if l - 4 >= 128 then (a, -EFBIG)
    else if a.d.indirect == 0 then (a, 0)
    else (EnsureLoaded(a), EnsureLoaded(a).table[l - 4])
  }

  /** The first free block is taken in memory only. */
  function Take(v: Vol): Vol {
    var i := Bits.FirstClear(v.used, 0);
    if i < NR_BLOCK_BITS then VolData.Vol(v.disk, v.used[i := true], v.csum) else v
  }

  /** `testfs_allocate_block_alternate`: the data block first, then an indirect block if there must be one. */
  function Allocate(a: Alt, l: nat): (Alt, int)
    requires l < NR_MAPPED
  {
    var i := Bits.FirstClear(a.v.used, 0);
    var v1 := Take(a.v);
    if i >= NR_BLOCK_BITS then (a, -ENOSPC)
    else if l < 4 then (Alt(v1, a.csumDirty, WithDirect(a.d, l, DATA_START + i), a.table, a.loaded, a.tableDirty, true),
      DATA_START + i)
    else if a.d.indirect == 0 then
      var j := Bits.FirstClear(v1.used, 0);
      if j >= NR_BLOCK_BITS then (Alt(v1, a.csumDirty, a.d, a.table, a.loaded, a.tableDirty, true), -ENOSPC)
      else
        var table := seq(128, _ => 0)[l - 4 := DATA_START + i];
        (Alt(Take(v1), a.csumDirty, WithIndirectAt(a.d, DATA_START + j), table, true, true, true), DATA_START + i)
    else
      var b := EnsureLoaded(a);
      (Alt(v1, a.csumDirty, a.d, b.table[l - 4 := DATA_START + i], b.loaded, true, true), DATA_START + i)
  }

  function WithDirect(d: DInode, l: nat, p: int32): DInode
    requires l < 4
  {
    DInode(d.typ, d.size, d.mtime, d.direct[l := p], d.indirect)
  }

  function WithIndirectAt(d: DInode, p: int32): DInode {
    DInode(d.typ, d.size, d.mtime, d.direct, p)
  }

  function WithSize(d: DInode, size: int32): DInode {
    DInode(d.typ, size, d.mtime, d.direct, d.indirect)
  }

  /** Block `p` is written, and its checksum is set in memory. */
  function Store(a: Alt, p: int, b: Block): Alt
    requires DATA_START <= p < DATA_START + MAX_NR_CSUMS
  {
    var v := VolData.Vol(a.v.disk[p := b], a.v.used, a.v.csum[p - DATA_START := Csum(b)]);
    Alt(v, a.csumDirty[(p - DATA_START) / 128 := true], a.d, a.table, a.loaded, a.tableDirty, a.dirty)
  }

  /** Where logical block `l` goes: its block, or a new one. */
  function Place(a: Alt, l: nat): (Alt, int) {
    var (a1, p) := LogToPhy(a, l);
    if p == 0 && l < NR_MAPPED then Allocate(a1, l) else (a1, p)
  }

  /** `testfs_file_write_block` */
  function WriteBlock(a: Alt, l: nat, b: Block): (Alt, Outcome) {
    var (a1, p) := Place(a, l);
    if p < 0 then (a1, Failed(-p))
    else if DATA_START <= p < DATA_START + MAX_NR_CSUMS then (Store(a1, p, b), Done)
    else (a1, Aborted(CsumSlot))
  }

  /** `testfs_file_read_block`: a block that is not mapped reads as zeroes. */
  function ReadBlock(a: Alt, l: nat): (Alt, Block) {
    var (a1, p) := LogToPhy(a, l);
    (a1, if 0 < p < DISK_BLOCKS then a1.v.disk[p] else ZERO_BLOCK)
  }

  /** The loop over the whole blocks: `nr` of them from logical block `k` on. */
  function WriteRun(a: Alt, k: nat, nr: nat, buf: seq<byte>): (Alt, Outcome)
    requires 512 * nr <= |buf|
  {
    if nr == 0 then (a, Done)
    else
      var (a1, r) := WriteRun(a, k, nr - 1, buf);
      if r != Done then (a1, r) else WriteBlock(a1, k + nr - 1, buf[512 * (nr - 1)..512 * nr])
  }

  /** The first `|src|` bytes of a block replaced. */
  function Front(block: Block, src: seq<byte>): Block
    requires |src| <= 512
  {
    src + block[|src|..]
  }

  /** `testfs_write_data_alternate` from a block boundary on: there is no head, and the tail is read first. */
  function Write(a: Alt, start: nat, buf: seq<byte>): (Alt, Outcome)
    requires start % 512 == 0
  {
    var tail, body, s := |buf| % 512, |buf| / 512, start / 512;
    var end := s + body + (if tail != 0 then 1 else 0) - 1;
    if |buf| == 0 then (a, Done)
    else if end >= NR_MAPPED then (a, Failed(EFBIG))
    else if tail == 0 then
      var (a1, r) := WriteRun(a, s, body, buf);
      if r != Done then (a1, r) else (Closed(a1, start + |buf|), Done)
    else
      var (a1, block) := ReadBlock(a, end);
      var (a2, r) := WriteRun(a1, s, body, buf);
      if r != Done then (a2, r)
      else
        var (a3, r3) := WriteBlock(a2, end, Front(block, buf[512 * body..]));
        if r3 != Done then (a3, r3) else (Closed(a3, start + |buf|), Done)
  }

  /** The size is raised and the inode marked dirty. */
  function Closed(a: Alt, reached: nat): Alt {
    if reached < 0x8000_0000 then
      Alt(a.v, a.csumDirty, WithSize(a.d, Max(a.d.size, reached)), a.table, a.loaded, a.tableDirty, true)
    else a
  }

  // What the steps mean on the volume with the indirect block applied

  lemma EnsureLoadedIs(a: Alt)
    requires Coherent(a)
    ensures var b := EnsureLoaded(a);
            Coherent(b) && VVol(b) == VVol(a) && b.d == a.d && b.v == a.v && b.dirty == a.dirty
              && b.csumDirty == a.csumDirty
    ensures a.d.indirect != 0 ==> EnsureLoaded(a).loaded && VDisk(a)[a.d.indirect] == OfInts(EnsureLoaded(a).table)
  {
    hide OfInts, ToInts;
    if !a.loaded && IsData(a.d.indirect) {
      OfIntsToInts(a.v.disk[a.d.indirect]);
    }
  }

  /** The cached indirect block never lies: the answer is that of the logical block map. */
  lemma LogToPhyIs(a: Alt, l: nat)
    requires Coherent(a)
    ensures var (b, p) := LogToPhy(a, l);
            && Coherent(b) && VVol(b) == VVol(a) && b.d == a.d && b.v == a.v && b.dirty == a.dirty
                 && b.csumDirty == a.csumDirty
            && p == if l < NR_MAPPED then Lookup(VDisk(a), a.d, l) else -EFBIG
  {
    hide OfInts, ToInts, IntAt;
    EnsureLoadedIs(a);
    if 4 <= l < NR_MAPPED && a.d.indirect != 0 {
      IntAtOfInts(EnsureLoaded(a).table, l - 4);
    }
  }

  lemma SetIntOfInts(s: seq<int32>, i: nat, v: int32)
    requires |s| == 128 && i < 128
    ensures SetInt(OfInts(s), i, v) == OfInts(s[i := v])
  {
    hide OfInts, SetInt, IntAt;
    forall j | 0 <= j < 128 ensures ToInts(SetInt(OfInts(s), i, v))[j] == s[i := v][j] {
      IntAtSetInt(OfInts(s), i, v, j);
      IntAtOfInts(s, j);
    }
    assert ToInts(SetInt(OfInts(s), i, v)) == s[i := v];
    OfIntsToInts(SetInt(OfInts(s), i, v));
  }

  lemma ZeroTable()
    ensures OfInts(seq(128, _ => 0)) == ZERO_BLOCK
  {
    hide OfInts, IntAt;
    forall j | 0 <= j < 128 ensures ToInts(ZERO_BLOCK)[j] == 0 {
      ZeroBlockInts(j);
    }
    assert ToInts(ZERO_BLOCK) == seq(128, _ => 0);
    OfIntsToInts(ZERO_BLOCK);
  }

  lemma TakeIs(v: Vol)
    requires Bits.FirstClear(v.used, 0) < NR_BLOCK_BITS
    ensures Taken(v, Bits.FirstClear(v.used, 0), Take(v)) && !v.used[Bits.FirstClear(v.used, 0)]
    ensures Took(v, Take(v), 1) && (Slots(v) > 0 <==> Bits.FirstClear(v.used, 0) < MAX_NR_CSUMS)
  {
    TakenFacts(v, Bits.FirstClear(v.used, 0), Take(v));
  }

  lemma TakeFull(v: Vol)
    requires Bits.FirstClear(v.used, 0) >= NR_BLOCK_BITS
    ensures Take(v) == v
  {
  }

  /** Taking a block or marking the inode dirty does not touch the indirect block. */
  lemma TakeKeepsCoherent(a: Alt, b: Alt)
    requires Coherent(a) && b == Alt(b.v, a.csumDirty, a.d, a.table, a.loaded, a.tableDirty, b.dirty)
    requires b.v.disk == a.v.disk
    ensures Coherent(b)
  {
    hide OfInts;
  }

  /** `phy` was mapped as block `n`, or there were not enough free blocks. */
  ghost predicate Obtained(a: Alt, n: nat, b: Alt, p: int) {
    && (p > 0 ==> GrownBy(VVol(a), a.d, n, VVol(b), b.d, p) && Coherent(b) && b.dirty && b.csumDirty == a.csumDirty)
    && (p > 0 ==> b.v.disk == a.v.disk && b.v.csum == a.v.csum && !IsUsed(a.v, p) && IsData(p))
    && (p > 0 ==> Bits.Zeros(a.v.used) >= NeedFor(a.d, n) && (HasSlot(p) <==> Slots(a.v) > 0))
    && (p <= 0 ==> p == -ENOSPC && Bits.Zeros(a.v.used) < NeedFor(a.d, n))
  }

  lemma AllocateDirectIs(a: Alt, n: nat)
    requires Coherent(a) && Mapped(VVol(a), a.d, n) && n < 4
    ensures Obtained(a, n, Allocate(a, n).0, Allocate(a, n).1)
  {
    hide OfInts, Mapped, Grown, Bits.Zeros, Bits.FirstClear;
    var i := Bits.FirstClear(a.v.used, 0);
    if i < NR_BLOCK_BITS {
      var (b, p) := Allocate(a, n);
      TakeIs(a.v);
      TakeIs(VVol(a));
      IndirectIsData(VVol(a), a.d, n);
      GrowDirect(VVol(a), a.d, n, i, VVol(b));
    } else {
      Bits.AllSet(a.v.used);
    }
  }

  lemma AllocateKnownIs(a: Alt, n: nat)
    requires Coherent(a) && Mapped(VVol(a), a.d, n) && 4 <= n < NR_MAPPED && a.d.indirect != 0
    ensures Obtained(a, n, Allocate(a, n).0, Allocate(a, n).1)
  {
    hide OfInts, SetInt, Mapped, Grown, Bits.Zeros, Bits.FirstClear;
    var i := Bits.FirstClear(a.v.used, 0);
    EnsureLoadedIs(a);
    if i < NR_BLOCK_BITS {
      var (b, p) := Allocate(a, n);
      TakeIs(a.v);
      var v1 := VolData.Vol(VDisk(a), Take(a.v).used, a.v.csum);
      GrowIndirect(VVol(a), a.d, n, i, v1);
      SetIntOfInts(EnsureLoaded(a).table, n - 4, DATA_START + i);
      assert VVol(b).disk == v1.disk[a.d.indirect := SetInt(v1.disk[a.d.indirect], n - 4, DATA_START + i)];
    } else {
      Bits.AllSet(a.v.used);
    }
  }

  lemma AllocateFreshIs(a: Alt, n: nat)
    requires Coherent(a) && Mapped(VVol(a), a.d, n) && n == 4 && a.d.indirect == 0
    ensures Obtained(a, n, Allocate(a, n).0, Allocate(a, n).1)
  {
    hide OfInts, SetInt, Mapped, Grown, Bits.Zeros, Bits.FirstClear;
    var i := Bits.FirstClear(a.v.used, 0);
    if i >= NR_BLOCK_BITS {
      Bits.AllSet(a.v.used);
      return;
    }
    TakeIs(a.v);
    var v1 := Take(a.v);
    var j := Bits.FirstClear(v1.used, 0);
    if j >= NR_BLOCK_BITS {
      Bits.AllSet(v1.used);
      return;
    }
    TakeIs(v1);
    var (b, p) := Allocate(a, n);
    var m := VolData.Vol(a.v.disk, a.v.used[j := true], a.v.csum);
    assert Take(v1).used == m.used[i := true];
    GrowBoth(VVol(a), a.d, j, m, i, Take(v1));
    ZeroTable();
    SetIntOfInts(seq(128, _ => 0), 0, DATA_START + i);
    assert VVol(b).disk == a.v.disk[DATA_START + j := SetInt(ZERO_BLOCK, 0, DATA_START + i)];
  }

  lemma AllocateIs(a: Alt, n: nat)
    requires Coherent(a) && Mapped(VVol(a), a.d, n) && n < NR_MAPPED
    ensures Obtained(a, n, Allocate(a, n).0, Allocate(a, n).1)
  {
    hide Allocate, Obtained, Own;
    IndirectIsData(VVol(a), a.d, n);
    if n < 4 {
      AllocateDirectIs(a, n);
    } else if a.d.indirect != 0 {
      AllocateKnownIs(a, n);
    } else {
      AllocateFreshIs(a, n);
    }
  }

  /** The contents of logical block `k` when the first `n` are mapped. */
  function BlockAt(a: Alt, n: nat, k: nat): Block {
    var p := Lookup(VDisk(a), a.d, k);
    if k < n && IsData(p) then VDisk(a)[p] else ZERO_BLOCK
  }

  /** One block was written as the write loop of the ordinary path would, or why not. */
  ghost predicate BlockWritten(a: Alt, n: nat, k: nat, src: seq<byte>, b: Alt, r: Outcome) {
    && (r == Done ==> WroteOne(VVol(a), a.d, n, k, 0, src, VVol(b), b.d) && Coherent(b))
    && (r.Failed? ==> k == n && r == Failed(if n == NR_MAPPED then EFBIG else ENOSPC))
    && (r.Failed? && n < NR_MAPPED ==> Bits.Zeros(a.v.used) < NeedFor(a.d, n))
    && (k == n && r == Done ==> Slots(a.v) > 0)
    && (r.Aborted? ==>
         r == Aborted(CsumSlot) && k == n < NR_MAPPED && Slots(a.v) == 0 && Bits.Zeros(a.v.used) >= NeedFor(a.d, n))
  }

  lemma StoreIs(a: Alt, n: nat, k: nat, p: int, b: Block)
    requires Coherent(a) && Mapped(VVol(a), a.d, n) && k < n && p == Lookup(VDisk(a), a.d, k)
    requires DATA_START <= p < DATA_START + MAX_NR_CSUMS
    ensures Stored(VVol(a), a.d, n, k, b, VVol(Store(a, p, b))) && Coherent(Store(a, p, b)) && Store(a, p, b).d == a.d
  {
    hide OfInts, Csum;
  }

  lemma PlaceKnown(a: Alt, n: nat, k: nat)
    requires Coherent(a) && Mapped(VVol(a), a.d, n) && CsumOk(VVol(a), a.d, n) && k < n
    ensures var (b, p) := Place(a, k);
            && Coherent(b) && VVol(b) == VVol(a) && b.d == a.d && b.v == a.v
            && p == Lookup(VDisk(a), a.d, k) && DATA_START <= p < DATA_START + MAX_NR_CSUMS
  {
    hide Own, Csum;
    LogToPhyIs(a, k);
    MappedBound(VVol(a), a.d, n);
    assert CsumAt(VVol(a), a.d, k);
  }

  lemma PlaceNew(a: Alt, n: nat)
    requires Coherent(a) && Mapped(VVol(a), a.d, n)
    ensures var (b, p) := Place(a, n);
            && (n == NR_MAPPED ==> p == -EFBIG)
            && (n < NR_MAPPED ==> Obtained(a, n, b, p))
  {
    hide Own, Allocate, GrownBy, VDisk, Bits.Zeros, Coherent;
    LogToPhyIs(a, n);
    MappedBound(VVol(a), a.d, n);
    MappedLookup(VDisk(a), a.d, n, n);
    if n < NR_MAPPED {
      AllocateIs(LogToPhy(a, n).0, n);
    }
  }

  lemma WriteBlockIs(a: Alt, n: nat, k: nat, src: seq<byte>)
    requires Coherent(a) && Mapped(VVol(a), a.d, n) && CsumOk(VVol(a), a.d, n) && k <= n && |src| <= 512
    ensures var (b, r) := WriteBlock(a, k, Front(BlockAt(a, n, k), src)); BlockWritten(a, n, k, src, b, r)
  {
    hide Own, Lookup, Csum, WroteOne, Place, Mapped, CsumOk, VDisk;
    var blk := BlockAt(a, n, k);
    var b := Front(blk, src);
    var (a1, p) := Place(a, k);
    MappedBound(VVol(a), a.d, n);
    if k < n {
      PlaceKnown(a, n, k);
      StoreIs(a1, n, k, p, b);
      MappedMap(VVol(a), a.d, n);
      WroteOneBlock(VVol(a), a.d, n, k, 0, src, VVol(a1), a1.d, blk, b, p, VVol(Store(a1, p, b)));
    } else {
      PlaceNew(a, n);
      if n < NR_MAPPED && p > 0 {
        GrownMap(VVol(a), a.d, n, VVol(a1), a1.d, p);
        if p < DATA_START + MAX_NR_CSUMS {
          StoreIs(a1, n + 1, n, p, b);
          WroteOneBlock(VVol(a), a.d, n, n, 0, src, VVol(a1), a1.d, blk, b, p, VVol(Store(a1, p, b)));
        }
      }
    }
  }

  lemma MappedMap(v: Vol, d: DInode, n: nat)
    requires Mapped(v, d, n)
    ensures WfMap(v.disk, d, n)
  {
  }

  lemma GrownMap(v: Vol, d: DInode, n: nat, v': Vol, d': DInode, p: int)
    requires GrownBy(v, d, n, v', d', p)
    ensures Mapped(v', d', n + 1) && WfMap(v'.disk, d', n + 1) && Lookup(v'.disk, d', n) == p
  {
  }

  // The whole write

  /** How many blocks are mapped when the path that places data first has no slot left for the next one. */
  function AltFailsAt(n: nat, indirect: bool, slots: nat): nat {
    if indirect || n + slots <= NR_DIRECT then n + slots else Max(NR_DIRECT + 1, n + slots - 1)
  }

  /** How growing a file from `n` to `m` blocks ends. */
  function GrowOutcome(indirect: bool, n: nat, m: nat, room: Room): Outcome {
    var k := AltFailsAt(n, indirect, room.slots);
    if k < m && Cost(indirect, n, k + 1) <= room.free then Aborted(CsumSlot)
    else if room.free >= Cost(indirect, n, m) then Done
    else Failed(ENOSPC)
  }

  /** What ended the growth ends any longer growth. */
  lemma GrowEnds(indirect: bool, n: nat, m: nat, m': nat, room: Room)
    requires n <= m <= m' && (n > NR_DIRECT ==> indirect) && GrowOutcome(indirect, n, m, room) != Done
    ensures GrowOutcome(indirect, n, m', room) == GrowOutcome(indirect, n, m, room)
  {
  }

  /** The first `nr` whole blocks were written, or why not. */
  ghost predicate RunWritten(a: Alt, start: nat, nr: nat, buf: seq<byte>, b: Alt, r: Outcome)
    requires a.d.size >= 0 && 512 * nr <= |buf|
  {
    var n0, n := BlocksFor(a.d.size), Max(BlocksFor(a.d.size), start / 512 + nr);
    && (r == Done ==> Coherent(b) && Underway(VVol(a), a.d, n0, start, buf[..512 * nr], VVol(b), b.d, n))
    && r == GrowOutcome(a.d.indirect != 0, n0, n, RoomOf(a.v))
  }

  lemma FrontWhole(block: Block, src: seq<byte>)
    requires |src| == 512
    ensures Front(block, src) == src
  {
  }

  /** The next block of a write under way. */
  lemma NextBlock(a: Alt, start: nat, w: seq<byte>, b: Alt, n: nat, k: nat, src: seq<byte>, c: Alt, r: Outcome)
    requires a.d.size >= 0 && |src| <= 512
    requires Underway(VVol(a), a.d, BlocksFor(a.d.size), start, w, VVol(b), b.d, n) && k <= n && k < NR_MAPPED
    requires k * 512 == start + |w| && BlocksFor(a.d.size) <= n && (w == [] || start + |w| <= n * 512)
    requires BlockWritten(b, n, k, src, c, r) && BlocksFor(a.d.size) <= NR_MAPPED
    requires (BlocksFor(a.d.size) > NR_DIRECT ==> a.d.indirect != 0)
    requires GrowOutcome(a.d.indirect != 0, BlocksFor(a.d.size), n, RoomOf(a.v)) == Done
    ensures r == Done ==> Coherent(c)
                          && Underway(VVol(a), a.d, BlocksFor(a.d.size), start, w + src, VVol(c), c.d, Max(n, k + 1))
    ensures r == GrowOutcome(a.d.indirect != 0, BlocksFor(a.d.size), Max(n, k + 1), RoomOf(a.v))
  {
    hide Mapped, CsumOk, OwnStep, BytesWritten, Lookup, WroteOne, VDisk, Coherent, Bits.Zeros;
    if r == Done {
      BlockRoom(b, n, k, src, c);
      WriteGoesOn(VVol(a), a.d, BlocksFor(a.d.size), start, w, VVol(b), b.d, n, k, 0, src, VVol(c), c.d);
    }
  }

  lemma BlockRoom(a: Alt, n: nat, k: nat, src: seq<byte>, b: Alt)
    requires WroteOne(VVol(a), a.d, n, k, 0, src, VVol(b), b.d)
    ensures k == n ==> Bits.Zeros(a.v.used) >= NeedFor(a.d, n)
  {
  }

  lemma {:induction false} WriteRunIs(a: Alt, start: nat, nr: nat, buf: seq<byte>)
    requires Coherent(a) && Sound(VVol(a), a.d) && start % 512 == 0 && start <= a.d.size
    requires 512 * nr <= |buf| && start / 512 + nr <= NR_MAPPED
    ensures var (b, r) := WriteRun(a, start / 512, nr, buf); RunWritten(a, start, nr, buf, b, r)
  {
    hide Mapped, CsumOk, Coherent, WriteBlock, VDisk, Underway, BlockWritten, WroteOne;
    hide Bits.Zeros, Slots;
    var s, n0 := start / 512, BlocksFor(a.d.size);
    SoundBound(VVol(a), a.d);
    if nr == 0 {
      WriteStarts(VVol(a), a.d, start, buf);
    } else {
      WriteRunIs(a, start, nr - 1, buf);
      var (b, r) := WriteRun(a, s, nr - 1, buf);
      if r == Done {
        var w, src, n, k := buf[..512 * (nr - 1)], buf[512 * (nr - 1)..512 * nr], Max(n0, s + nr - 1), s + nr - 1;
        WritingSound(VVol(a), a.d, n0, start, w, VVol(b), b.d, n);
        FrontWhole(BlockAt(b, n, k), src);
        WriteBlockIs(b, n, k, src);
        var (c, r1) := WriteBlock(b, k, src);
        NextBlock(a, start, w, b, n, k, src, c, r1);
        assert w + src == buf[..512 * nr];
      } else {
        GrowEnds(a.d.indirect != 0, n0, Max(n0, s + nr - 1), Max(n0, s + nr), RoomOf(a.v));
      }
    }
  }

  /** The tail block is still what was read before the body was written. */
  lemma TailUntouched(a: Alt, start: nat, w: seq<byte>, b: Alt, n: nat, k: nat)
    requires a.d.size >= 0 && Mapped(VVol(a), a.d, BlocksFor(a.d.size))
    requires Underway(VVol(a), a.d, BlocksFor(a.d.size), start, w, VVol(b), b.d, n)
    requires start + |w| <= k * 512 && n == Max(BlocksFor(a.d.size), k)
    ensures BlockAt(b, n, k) == BlockAt(a, BlocksFor(a.d.size), k)
  {
    hide Lookup, VDisk, OwnStep, CsumOk, Own, Bits.Zeros;
    var n0 := BlocksFor(a.d.size);
    if k < n0 {
      var p := Lookup(VDisk(a), a.d, k);
      MappedLookup(VDisk(a), a.d, n0, k);
      forall i | 0 <= i < 512 ensures VDisk(b)[p][i] == VDisk(a)[p][i] {
        var pos: nat := k * 512 + i;
        assert pos / 512 == k && pos % 512 == i;
        assert RawByte(VDisk(b), b.d, pos) == OldByte(VDisk(a), a.d, n0, pos);
      }
    }
  }

  lemma ReadBlockIs(a: Alt, k: nat)
    requires Coherent(a) && Sound(VVol(a), a.d) && k < NR_MAPPED
    ensures var (b, block) := ReadBlock(a, k);
            && Coherent(b) && VVol(b) == VVol(a) && b.d == a.d && b.v == a.v && b.csumDirty == a.csumDirty
                 && b.dirty == a.dirty
            && block == BlockAt(a, BlocksFor(a.d.size), k)
  {
    hide Own, CsumOk;
    LogToPhyIs(a, k);
    MappedLookup(VDisk(a), a.d, BlocksFor(a.d.size), k);
  }

  /** How the write ends: content that fits no file changes nothing. */
  function AltOutcome(size: nat, indirect: bool, last: nat, room: Room): Outcome {
    if last >= NR_MAPPED then Failed(EFBIG)
    else GrowOutcome(indirect, BlocksFor(size), Max(BlocksFor(size), last + 1), room)
  }

  /**
   * The last free block with a checksum slot decides between the paths: it is to be the data block that a new
   * indirect block comes with. The ordinary path gives it to the indirect block.
   */
  predicate OnlyAlternate(size: nat, indirect: bool, last: nat, room: Room) {
    && !indirect && last == NR_DIRECT && BlocksFor(size) + room.slots == NR_DIRECT + 1
    && room.free > room.slots
  }

  /** The paths succeed on the same writes, but for this one case. */
  lemma PathsAgree(size: nat, indirect: bool, last: nat, room: Room)
    requires BlocksFor(size) <= NR_MAPPED && (BlocksFor(size) > NR_DIRECT ==> indirect) && room.slots <= room.free
    ensures AltOutcome(size, indirect, last, room) == Done
      <==> WriteOutcome(size, indirect, last, room) == Done || OnlyAlternate(size, indirect, last, room)
    ensures OnlyAlternate(size, indirect, last, room) ==> WriteOutcome(size, indirect, last, room) == Aborted(CsumSlot)
  {
  }

  lemma BodyAndTail(start: nat, len: nat)
    requires start % 512 == 0 && len > 0
    ensures var end := start / 512 + len / 512 + (if len % 512 != 0 then 1 else 0) - 1;
            end == LastBlock(start, len) && (len % 512 == 0 ==> start / 512 + len / 512 == end + 1)
  {
  }

  lemma CloseIs(a: Alt, start: nat, buf: seq<byte>, b: Alt)
    requires Sound(VVol(a), a.d) && start <= a.d.size && buf != [] && LastBlock(start, |buf|) < NR_MAPPED && Coherent(b)
    requires Underway(VVol(a), a.d, BlocksFor(a.d.size), start, buf, VVol(b), b.d,
      Max(BlocksFor(a.d.size), LastBlock(start, |buf|) + 1))
    ensures var c := Closed(b, start + |buf|);
            Coherent(c) && c.dirty && Wrote(VVol(a), a.d, start, buf, VVol(c), c.d)
  {
    hide Wrote, OfInts, Own, OwnStep, CsumOk, BytesWritten, Bits.Zeros, Lookup;
    assert buf[..|buf|] == buf;
    SoundBlocks(VVol(a), a.d);
    WriteEnds(VVol(a), a.d, start, buf, VVol(b), b.d, Max(BlocksFor(a.d.size), LastBlock(start, |buf|) + 1));
  }

  lemma SoundBlocks(v: Vol, d: DInode)
    requires Sound(v, d)
    ensures d.size >= 0 && BlocksFor(d.size) <= NR_MAPPED
  {
  }

  /**
   * A write from a block boundary on has the very effect that the ordinary path promises: the file is
   * overlaid with the bytes, its blocks stay its own, and nothing else changes.
   */
  lemma WriteIs(a: Alt, start: nat, buf: seq<byte>)
    requires Coherent(a) && Sound(VVol(a), a.d) && start % 512 == 0 && start <= a.d.size && buf != []
    ensures var (b, r) := Write(a, start, buf);
            && (r == Done ==> Coherent(b) && b.dirty && Wrote(VVol(a), a.d, start, buf, VVol(b), b.d))
            && r == AltOutcome(a.d.size, a.d.indirect != 0, LastBlock(start, |buf|), RoomOf(a.v))
  {
    hide Mapped, CsumOk, Coherent, WriteBlock, VDisk, Underway, BlockWritten, WroteOne, WriteRun, ReadBlock, Wrote;
    hide Closed;
    hide Bits.Zeros, Slots, GrowOutcome;
    SoundBound(VVol(a), a.d);
    var tail, body, s, n0 := |buf| % 512, |buf| / 512, start / 512, BlocksFor(a.d.size);
    var end := LastBlock(start, |buf|);
    BodyAndTail(start, |buf|);
    if end >= NR_MAPPED {
      return;
    }
    if tail == 0 {
      WriteRunIs(a, start, body, buf);
      var (a1, r) := WriteRun(a, s, body, buf);
      if r == Done {
        assert buf[..512 * body] == buf;
        CloseIs(a, start, buf, a1);
      }
    } else {
      ReadBlockIs(a, end);
      var (a1, block) := ReadBlock(a, end);
      WriteRunIs(a1, start, body, buf);
      var (a2, r) := WriteRun(a1, s, body, buf);
      if r == Done {
        var w, src, n := buf[..512 * body], buf[512 * body..], Max(n0, end);
        TailUntouched(a1, start, w, a2, n, end);
        WritingSound(VVol(a1), a1.d, n0, start, w, VVol(a2), a2.d, n);
        WriteBlockIs(a2, n, end, src);
        var (a3, r3) := WriteBlock(a2, end, Front(block, src));
        NextBlock(a1, start, w, a2, n, end, src, a3, r3);
        assert w + src == buf;
        if r3 == Done {
          CloseIs(a, start, buf, a3);
        }
      } else {
        GrowEnds(a.d.indirect != 0, n0, Max(n0, s + body), Max(n0, end + 1), RoomOf(a.v));
      }
    }
  }

  // Where the blocks go, for requests that stay in flight

  lemma PlaceSafe(a: Alt, n: nat, k: nat)
    requires Coherent(a) && Mapped(VVol(a), a.d, n) && CsumOk(VVol(a), a.d, n) && k <= n
    ensures Place(a, k).1 < 0 || IsData(Place(a, k).1)
    ensures k < n ==> Place(a, k).1 == Lookup(VDisk(a), a.d, k) > 0
    ensures k == n && Place(a, k).1 >= 0 ==> !IsUsed(a.v, Place(a, k).1)
    ensures a.d.indirect == 0 || IsData(a.d.indirect)
  {
    hide Own, Place, VDisk, GrownBy;
    if k < n {
      PlaceKnown(a, n, k);
    } else {
      MappedBound(VVol(a), a.d, n);
      PlaceNew(a, n);
    }
  }

  /** Afterwards the block is where it was placed, and those before it are where they were. */
  lemma WrittenWhere(a: Alt, n: nat, k: nat, b: Block)
    requires Coherent(a) && Mapped(VVol(a), a.d, n) && CsumOk(VVol(a), a.d, n) && k <= n
    requires WriteBlock(a, k, b).1 == Done
    ensures var c := WriteBlock(a, k, b).0;
            && Lookup(VDisk(c), c.d, k) == Place(a, k).1
            && forall l: nat :: l < n ==> Lookup(VDisk(c), c.d, l) == Lookup(VDisk(a), a.d, l)
  {
    hide Own, Place, VDisk, Csum;
    var (a1, p) := Place(a, k);
    MappedBound(VVol(a), a.d, n);
    if k < n {
      PlaceKnown(a, n, k);
      StoreLooksUp(a1, n, k, p, b);
    } else {
      PlaceNew(a, n);
      GrownMap(VVol(a), a.d, n, VVol(a1), a1.d, p);
      GrownKeeps(VVol(a), a.d, n, VVol(a1), a1.d, p);
      StoreLooksUp(a1, n + 1, n, p, b);
    }
  }

  lemma GrownKeeps(v: Vol, d: DInode, n: nat, v': Vol, d': DInode, p: int)
    requires GrownBy(v, d, n, v', d', p)
    ensures forall l: nat :: l < n ==> Lookup(v'.disk, d', l) == Lookup(v.disk, d, l)
  {
  }

  lemma StoreLooksUp(a: Alt, n: nat, k: nat, p: int, b: Block)
    requires Coherent(a) && Mapped(VVol(a), a.d, n) && k < n && p == Lookup(VDisk(a), a.d, k)
    requires DATA_START <= p < DATA_START + MAX_NR_CSUMS
    ensures forall l: nat :: Lookup(VDisk(Store(a, p, b)), a.d, l) == Lookup(VDisk(a), a.d, l)
  {
    hide OfInts, Csum;
    StoreIs(a, n, k, p, b);
    StoreStep(VVol(a), a.d, n, k, b, VVol(Store(a, p, b)));
  }

  /** Blocks of other files stay allocated and apart while this one is written. */
  lemma OutStays(a: Alt, start: nat, w: seq<byte>, b: Alt, n: nat, out: set<int>)
    requires a.d.size >= 0 && Underway(VVol(a), a.d, BlocksFor(a.d.size), start, w, VVol(b), b.d, n)
    requires out !! Own(VDisk(a), a.d, BlocksFor(a.d.size)) && AllUsed(VVol(a), out)
    ensures out !! Own(VDisk(b), b.d, n) && AllUsed(VVol(b), out)
  {
    hide Mapped, CsumOk, BytesWritten, Bits.Zeros, Own, VDisk;
    var own' := Own(VVol(b).disk, b.d, n);
    var own := Own(VVol(a).disk, a.d, BlocksFor(a.d.size));
    forall p | p in out ensures p !in own && p !in own' {
      assert IsUsed(VVol(a), p);
    }
    forall p | p in out ensures IsUsed(VVol(b), p) {
      assert IsUsed(VVol(a), p) && OtherKept(VVol(a), VVol(b), p);
    }
    assert out * own' == {};
  }

  /**
   * While blocks `s` up to `k` of this file and the blocks `out` of others are being written, the next
   * block goes somewhere else, and the indirect block is not among them either.
   */
  lemma RoomForNext(a: Alt, start: nat, w: seq<byte>, b: Alt, n: nat, s: nat, k: nat, out: set<int>)
    requires a.d.size >= 0 && Underway(VVol(a), a.d, BlocksFor(a.d.size), start, w, VVol(b), b.d, n) && Coherent(b)
    requires out !! Own(VDisk(a), a.d, BlocksFor(a.d.size)) && AllUsed(VVol(a), out) && s <= k <= n
    ensures var p := Place(b, k).1;
            && (p < 0 || (IsData(p) && p !in out && p !in Range(VDisk(b), b.d, s, k)))
            && (forall l: nat :: l < n && l != k && Lookup(VDisk(b), b.d, l) == p ==> p < 0)
            && (b.d.indirect == 0
                 || (IsData(b.d.indirect) && b.d.indirect !in out && b.d.indirect !in Range(VDisk(b), b.d, s, k)))
  {
    hide VDisk, BytesWritten, Bits.Zeros, Place, Lookup, CsumAt, OwnStep;
    OutStays(a, start, w, b, n, out);
    PlaceSafe(b, n, k);
    var p := Place(b, k).1;
    if p >= 0 && k < n {
      InOwn(VDisk(b), b.d, n, k);
    }
    forall l: nat | l < n && l != k ensures Lookup(VDisk(b), b.d, l) != p || p < 0 {
      InOwn(VDisk(b), b.d, n, l);
    }
  }

  // What the write leaves alone

  ghost predicate CleanTable(a: Alt) {
    CsumClean(a.v.disk, a.v.csum, a.csumDirty)
  }

  lemma StoreClean(a: Alt, p: int, b: Block)
    requires CleanTable(a) && DATA_START <= p < DATA_START + MAX_NR_CSUMS
    ensures CleanTable(Store(a, p, b))
  {
    hide OfInts, Csum;
    var c := Store(a, p, b);
    forall nr: nat | nr < CSUM_TABLE_SIZE && !c.csumDirty[nr] ensures c.v.disk[4 + nr] == TableBlock(c.v.csum, nr) {
      TableBlockElsewhere(a.v.csum, p - DATA_START, Csum(b), nr);
    }
  }

  /** One block: table blocks not marked dirty stay saved, and the indirect block changes only when one is mapped. */
  lemma WriteBlockClean(a: Alt, l: nat, b: Block)
    requires CleanTable(a)
    ensures CleanTable(WriteBlock(a, l, b).0)
    ensures LogToPhy(a, l).1 != 0 ==> WriteBlock(a, l, b).0.tableDirty == a.tableDirty
  {
    hide Csum, OfInts, ToInts, TableBlock;
    var (a1, p) := Place(a, l);
    assert CleanTable(a1);
    if DATA_START <= p < DATA_START + MAX_NR_CSUMS {
      StoreClean(a1, p, b);
    }
  }

  lemma {:induction false} WriteRunClean(a: Alt, start: nat, nr: nat, buf: seq<byte>)
    requires CleanTable(a) && Coherent(a) && Sound(VVol(a), a.d) && start % 512 == 0 && start <= a.d.size
    requires 512 * nr <= |buf| && start / 512 + nr <= NR_MAPPED
    ensures var (b, r) := WriteRun(a, start / 512, nr, buf);
            CleanTable(b) && (r == Done && start / 512 + nr <= BlocksFor(a.d.size) ==> b.tableDirty == a.tableDirty)
  {
    hide Mapped, CsumOk, Coherent, WriteBlock, VDisk, Underway, CleanTable, LogToPhy;
    if nr > 0 {
      WriteRunClean(a, start, nr - 1, buf);
      WriteRunIs(a, start, nr - 1, buf);
      var (b, r) := WriteRun(a, start / 512, nr - 1, buf);
      var n, k := Max(BlocksFor(a.d.size), start / 512 + nr - 1), start / 512 + nr - 1;
      if r == Done {
        WritingSound(VVol(a), a.d, BlocksFor(a.d.size), start, buf[..512 * (nr - 1)], VVol(b), b.d, n);
        if k < BlocksFor(a.d.size) {
          MappedIsPlaced(b, n, k);
        }
        WriteBlockClean(b, k, buf[512 * (nr - 1)..512 * nr]);
      }
    }
  }

  lemma MappedIsPlaced(a: Alt, n: nat, k: nat)
    requires Coherent(a) && Mapped(VVol(a), a.d, n) && k < n
    ensures LogToPhy(a, k).1 > 0
  {
    LogToPhyIs(a, k);
    MappedLookup(VDisk(a), a.d, n, k);
  }

  /** The indirect block is changed in memory only by a write that makes the file longer, up to its own end. */
  lemma WriteClean(a: Alt, start: nat, buf: seq<byte>)
    requires CleanTable(a) && Coherent(a) && Sound(VVol(a), a.d) && start % 512 == 0 && start <= a.d.size && buf != []
    ensures var (b, r) := Write(a, start, buf);
            CleanTable(b) && (r == Done && b.tableDirty && !a.tableDirty ==> b.d.size == start + |buf|)
  {
    hide Mapped, CsumOk, Coherent, WriteBlock, VDisk, Underway, WriteRun, ReadBlock, LogToPhy, Lookup, TableBlock, Csum;
    var tail, body, s, n0 := |buf| % 512, |buf| / 512, start / 512, BlocksFor(a.d.size);
    var end := LastBlock(start, |buf|);
    BodyAndTail(start, |buf|);
    SoundBlocks(VVol(a), a.d);
    if end >= NR_MAPPED {
      return;
    }
    WrittenSize(a, start, buf);
    var a1 := a;
    if tail != 0 {
      ReadBlockIs(a, end);
      ReadBlockFlags(a, end);
      a1 := ReadBlock(a, end).0;
    }
    WriteRunClean(a1, start, body, buf);
    WriteRunIs(a1, start, body, buf);
    var (a2, r) := WriteRun(a1, s, body, buf);
    if r == Done && tail != 0 {
      var n := Max(n0, end);
      WritingSound(VVol(a1), a1.d, n0, start, buf[..512 * body], VVol(a2), a2.d, n);
      if end < n0 {
        MappedIsPlaced(a2, n, end);
      }
      WriteBlockClean(a2, end, Front(ReadBlock(a, end).1, buf[512 * body..]));
    }
  }

  lemma WrittenSize(a: Alt, start: nat, buf: seq<byte>)
    requires Coherent(a) && Sound(VVol(a), a.d) && start % 512 == 0 && start <= a.d.size && buf != []
    ensures Write(a, start, buf).1 == Done ==> Write(a, start, buf).0.d.size == Max(a.d.size, start + |buf|)
    ensures LastBlock(start, |buf|) >= BlocksFor(a.d.size) ==> start + |buf| >= a.d.size
  {
    hide Mapped, CsumOk, Write, Own, OwnStep, Contents;
    WriteIs(a, start, buf);
  }

  lemma ReadBlockFlags(a: Alt, k: nat)
    ensures ReadBlock(a, k).0.tableDirty == a.tableDirty
    ensures CleanTable(a) ==> CleanTable(ReadBlock(a, k).0)
  {
    hide ToInts, OfInts, TableBlock;
  }

  // The checksum table on the device

  /** Finding a place for a block writes nothing. */
  lemma PlaceWritesNothing(a: Alt, l: nat)
    ensures Place(a, l).0.v.disk == a.v.disk
  {
    hide ToInts, Bits.FirstClear;
  }

  lemma WriteBlockTable(a: Alt, l: nat, b: Block)
    ensures TableKept(a.v.disk, WriteBlock(a, l, b).0.v.disk)
  {
    hide Csum, Place;
    PlaceWritesNothing(a, l);
  }

  lemma {:induction false} WriteRunTable(a: Alt, k: nat, nr: nat, buf: seq<byte>)
    requires 512 * nr <= |buf|
    ensures TableKept(a.v.disk, WriteRun(a, k, nr, buf).0.v.disk)
  {
    hide WriteBlock;
    if nr > 0 {
      WriteRunTable(a, k, nr - 1, buf);
      WriteBlockTable(WriteRun(a, k, nr - 1, buf).0, k + nr - 1, buf[512 * (nr - 1)..512 * nr]);
    }
  }

  /** A write enters its checksums in memory only. */
  lemma WriteTable(a: Alt, start: nat, buf: seq<byte>)
    requires start % 512 == 0
    ensures TableKept(a.v.disk, Write(a, start, buf).0.v.disk)
  {
    hide WriteBlock, WriteRun;
    var body, end := |buf| / 512, start / 512 + |buf| / 512;
    WriteRunTable(a, start / 512, body, buf);
    if |buf| % 512 != 0 {
      var (a1, block) := ReadBlock(a, end);
      WriteRunTable(a1, start / 512, body, buf);
      WriteBlockTable(WriteRun(a1, start / 512, body, buf).0, end, Front(block, buf[512 * body..]));
    }
  }

  // Saving, and the ordinary operations on an inode whose indirect block is cached

  /** `testfs_sync_inode`: the dinode and a changed indirect block are written, and nothing is dirty any more. */
  function Synced(a: Alt, nr: nat): Alt
    requires nr < NR_INODES && (a.tableDirty ==> IsData(a.d.indirect))
  {
    var disk := SyncedDisk(a.v.disk, nr, a.d, a.tableDirty, a.table);
    Alt(VolData.Vol(disk, a.v.used, a.v.csum), a.csumDirty, a.d, a.table, a.loaded, false, false)
  }

  /** The cached indirect block is the one on the device. */
  predicate InStep(a: Alt) {
    a.loaded && IsData(a.d.indirect) ==> a.v.disk[a.d.indirect] == OfInts(a.table)
  }

  /** Saving an inode makes its cached indirect block that of the device, and the file is what it was. */
  lemma SyncedIs(a: Alt, nr: nat)
    requires Coherent(a) && nr < NR_INODES
    ensures var b := Synced(a, nr); Coherent(b) && InStep(b) && VDisk(b) == b.v.disk == WithDInode(VDisk(a), nr, a.d)
  {
    hide OfInts, EncodeDInode;
  }

  /** What an ordinary operation, which knows nothing of the cache, leaves of it. */
  function Past(a: Alt, v: Vol, d: DInode): Alt {
    Alt(v, a.csumDirty, d, a.table, a.loaded, a.tableDirty, a.dirty)
  }

  /** Two indirect blocks that map the same are the same. */
  lemma SameEntries(b: Block, c: Block)
    requires forall i: nat :: i < 128 ==> IntAt(b, i) == IntAt(c, i)
    ensures b == c
  {
    hide IntAt, OfInts;
    assert ToInts(b) == ToInts(c);
    OfIntsToInts(b);
    OfIntsToInts(c);
  }

  /**
   * `testfs_truncate_data` changes the indirect block on the device only: a cached one is right afterwards, unless
   * the file gives up some but not all of the blocks that it maps.
   */
  lemma TruncateBreaks(a: Alt, size: nat, v': Vol, d': DInode)
    requires Coherent(a) && !a.tableDirty && Sound(a.v, a.d) && size < a.d.size && !Dangling(a.d)
    requires Truncated(a.v, a.d, BlocksFor(a.d.size), BlocksFor(size), v', d')
    ensures Coherent(Past(a, v', d')) <==> !(a.loaded && NR_DIRECT < BlocksFor(size) < BlocksFor(a.d.size))
  {
    hide OfInts, IntAt, Own, OwnStep, CsumOk, Bits.Zeros;
    var n, m, p := BlocksFor(a.d.size), BlocksFor(size), a.d.indirect;
    if a.loaded && m > NR_DIRECT {
      assert IsData(p) && d'.indirect == p && a.v.disk[p] == OfInts(a.table);
      if m < n {
        IndirectLookup(a.v.disk, a.d, n - 1 - 4);
        IndirectLookup(v'.disk, d', n - 1 - 4);
        assert Lookup(v'.disk, d', n - 1) == 0 && Lookup(a.v.disk, a.d, n - 1) != 0;
      } else {
        forall i: nat | i < 128 ensures IntAt(v'.disk[p], i) == IntAt(a.v.disk[p], i) {
          IndirectLookup(a.v.disk, a.d, i);
          IndirectLookup(v'.disk, d', i);
        }
        SameEntries(v'.disk[p], a.v.disk[p]);
      }
    }
  }

  /**
   * `testfs_allocate_block` enters the new block in the indirect block on the device only: a cached one is wrong
   * afterwards, or, when the indirect block is new, right by coincidence at best.
   */
  lemma GrowBreaks(a: Alt, n: nat, v': Vol, d': DInode, p: int)
    requires Coherent(a) && !a.tableDirty && Mapped(a.v, a.d, n) && n < NR_MAPPED && GrownBy(a.v, a.d, n, v', d', p)
    ensures Coherent(Past(a, v', d')) <==>
      !a.loaded || n < NR_DIRECT || (a.d.indirect == 0 && a.table == seq(128, _ => 0)[0 := p])
  {
    hide OfInts, IntAt, Own, OwnStep, CsumOk, Took;
    IndirectIsData(a.v, a.d, n);
    if a.loaded && n >= NR_DIRECT {
      GrownTable(a.v, a.d, n, v', d', p);
      if a.d.indirect != 0 {
        IndirectLookup(a.v.disk, a.d, n - 4);
        MappedLookup(a.v.disk, a.d, n, n);
      } else {
        SameInts(v'.disk[d'.indirect], a.table, p);
      }
    }
  }

  /** The same when there was no room, and the last free block went into a new indirect block. */
  lemma NotGrownBreaks(a: Alt, n: nat, v': Vol, d': DInode)
    requires Coherent(a) && !a.tableDirty && Mapped(a.v, a.d, n) && n < NR_MAPPED && NotGrown(a.v, a.d, n, v', d')
    ensures Coherent(Past(a, v', d')) <==> !a.loaded || Bits.Zeros(a.v.used) == 0 || a.table == seq(128, _ => 0)
  {
    hide OfInts, IntAt, Own, OwnStep, CsumOk, Bits.Zeros;
    if a.loaded && Bits.Zeros(a.v.used) == 1 {
      IndirectIsData(v', d', n);
      forall i: nat | i < 128 ensures IntAt(v'.disk[d'.indirect], i) == 0 {
        IndirectLookup(v'.disk, d', i);
        MappedLookup(v'.disk, d', n, 4 + i);
      }
      SameInts(v'.disk[d'.indirect], a.table, 0);
      assert seq(128, _ => 0)[0 := 0] == seq(128, _ => 0);
    }
  }

  lemma GrownTable(v: Vol, d: DInode, n: nat, v': Vol, d': DInode, p: int)
    requires Mapped(v, d, n) && NR_DIRECT <= n < NR_MAPPED && GrownBy(v, d, n, v', d', p)
    ensures IsData(d'.indirect) && (d.indirect != 0 ==> d'.indirect == d.indirect) && IsData(p)
    ensures IntAt(v'.disk[d'.indirect], n - 4) == p
    ensures d.indirect == 0 ==> n == 4 && forall i: nat :: 0 < i < 128 ==> IntAt(v'.disk[d'.indirect], i) == 0
  {
    hide IntAt, Own, OwnStep, Took;
    IndirectIsData(v', d', n + 1);
    forall i: nat | i < 128 ensures IntAt(v'.disk[d'.indirect], i) == Lookup(v'.disk, d', 4 + i) {
      IndirectLookup(v'.disk, d', i);
    }
    MappedLookup(v'.disk, d', n + 1, n);
  }

  lemma SameInts(b: Block, table: seq<int32>, p: int32)
    requires |table| == 128 && IntAt(b, 0) == p && forall i: nat :: 0 < i < 128 ==> IntAt(b, i) == 0
    ensures b == OfInts(table) <==> table == seq(128, _ => 0)[0 := p]
  {
    hide IntAt, OfInts;
    assert ToInts(b) == seq(128, _ => 0)[0 := p];
    OfIntsToInts(b);
    ToIntsOfInts(table);
  }

  // Running out of space

  /**
   * What a write leaves that ran out of space: it has taken every free block, and the file has the size it had.
   * An indirect block that it got cost a second free block.
   */
  ghost predicate SpaceGone(a: Alt, b: Alt) {
    && Coherent(b) && CleanTable(b) && Bits.Zeros(b.v.used) == 0
    && b.d.size == a.d.size && b.d.typ == a.d.typ && b.d.mtime == a.d.mtime && FixedKept(a.v.disk, b.v.disk)
    && (a.d.indirect != 0 ==> b.d.indirect != 0)
    && (a.d.indirect == 0 && b.d.indirect != 0 ==> Bits.Zeros(a.v.used) >= 2)
    && (b.dirty <==> a.dirty || Bits.Zeros(a.v.used) > 0)
    && a.d.size >= 0 && OthersKept(a, b)
  }

  /** Blocks of other files have kept their bytes, and none of them became this file's indirect block. */
  ghost predicate OthersKept(a: Alt, b: Alt)
    requires a.d.size >= 0
  {
    forall p :: IsUsed(a.v, p) && p !in Own(VDisk(a), a.d, BlocksFor(a.d.size)) ==>
      VDisk(b)[p] == VDisk(a)[p] && p != b.d.indirect
  }

  lemma AllTaken(used: seq<bool>)
    requires Bits.FirstClear(used, 0) >= |used|
    ensures Bits.Zeros(used) == 0
  {
    Bits.AllSet(used);
  }

  /** One block that could not be had. */
  lemma BlockNoSpace(a: Alt, n: nat, blk: Block)
    requires Coherent(a) && Mapped(VVol(a), a.d, n) && n < NR_MAPPED && WriteBlock(a, n, blk).1.Failed?
    ensures var c := WriteBlock(a, n, blk).0;
            && Coherent(c) && c.d == a.d && c.v.disk == a.v.disk && c.v.csum == a.v.csum && c.csumDirty == a.csumDirty
            && Bits.Zeros(c.v.used) == 0 && (c.dirty <==> a.dirty || Bits.Zeros(a.v.used) > 0) && VDisk(c) == VDisk(a)
            && (a.d.indirect == 0 || IsData(a.d.indirect))
  {
    hide Own, OfInts, ToInts, Csum, Bits.Zeros, Bits.FirstClear;
    LogToPhyIs(a, n);
    MappedLookup(VDisk(a), a.d, n, n);
    var a1 := LogToPhy(a, n).0;
    var i := Bits.FirstClear(a.v.used, 0);
    if i >= NR_BLOCK_BITS {
      AllTaken(a.v.used);
    } else {
      TakeIs(a.v);
      var v1 := Take(a.v);
      if n >= 4 && a.d.indirect == 0 {
        AllTaken(v1.used);
      }
    }
  }

  /** A block that was written made the inode dirty exactly when it was a new one. */
  lemma BlockDirty(a: Alt, n: nat, k: nat, blk: Block)
    requires Coherent(a) && Mapped(VVol(a), a.d, n) && CsumOk(VVol(a), a.d, n) && k <= n
    requires WriteBlock(a, k, blk).1 == Done
    ensures WriteBlock(a, k, blk).0.dirty <==> a.dirty || k == n
  {
    hide Own, OfInts, ToInts, Csum, Place, VDisk, GrownBy, Bits.Zeros, Lookup;
    MappedBound(VVol(a), a.d, n);
    if k < n {
      PlaceKnownDirty(a, n, k);
    } else {
      PlaceNew(a, n);
    }
  }

  lemma PlaceKnownDirty(a: Alt, n: nat, k: nat)
    requires Coherent(a) && Mapped(VVol(a), a.d, n) && CsumOk(VVol(a), a.d, n) && k < n
    ensures Place(a, k).0.dirty == a.dirty
  {
    hide Own, Csum;
    PlaceKnown(a, n, k);
    LogToPhyIs(a, k);
  }

  lemma {:induction false} RunDirty(a: Alt, start: nat, nr: nat, buf: seq<byte>)
    requires Coherent(a) && Sound(VVol(a), a.d) && start % 512 == 0 && start <= a.d.size
    requires 512 * nr <= |buf| && start / 512 + nr <= NR_MAPPED && WriteRun(a, start / 512, nr, buf).1 == Done
    ensures WriteRun(a, start / 512, nr, buf).0.dirty <==> a.dirty || start / 512 + nr > BlocksFor(a.d.size)
  {
    hide Mapped, CsumOk, Coherent, WriteBlock, VDisk, Underway;
    SoundBlocks(VVol(a), a.d);
    if nr > 0 {
      RunDirty(a, start, nr - 1, buf);
      WriteRunIs(a, start, nr - 1, buf);
      var b, n, k := WriteRun(a, start / 512, nr - 1, buf).0, Max(BlocksFor(a.d.size), start / 512 + nr - 1),
        start / 512 + nr - 1;
      WritingSound(VVol(a), a.d, BlocksFor(a.d.size), start, buf[..512 * (nr - 1)], VVol(b), b.d, n);
      BlockDirty(b, n, k, buf[512 * (nr - 1)..512 * nr]);
    }
  }

  /** After a part of the write the next block could not be had. */
  lemma PartThenNoSpace(a: Alt, start: nat, w: seq<byte>, b: Alt, n: nat, blk: Block)
    requires a.d.size >= 0 && n == Max(BlocksFor(a.d.size), n) && n < NR_MAPPED && CleanTable(b)
    requires Underway(VVol(a), a.d, BlocksFor(a.d.size), start, w, VVol(b), b.d, n) && Coherent(b)
    requires b.dirty <==> a.dirty || n > BlocksFor(a.d.size)
    requires WriteBlock(b, n, blk).1.Failed?
    requires BlocksFor(a.d.size) > 4 ==> a.d.indirect != 0
    ensures SpaceGone(a, WriteBlock(b, n, blk).0)
  {
    hide Mapped, CsumOk, Coherent, WriteBlock, VDisk, Bits.Zeros, BytesWritten, OwnStep, TableBlock, Own, Lookup;
    WritingSound(VVol(a), a.d, BlocksFor(a.d.size), start, w, VVol(b), b.d, n);
    BlockNoSpace(b, n, blk);
    PartKeepsFixed(a, start, w, b, n);
    PartKeepsOthers(a, start, w, b, n, WriteBlock(b, n, blk).0);
  }

  lemma PartKeepsOthers(a: Alt, start: nat, w: seq<byte>, b: Alt, n: nat, c: Alt)
    requires a.d.size >= 0 && Underway(VVol(a), a.d, BlocksFor(a.d.size), start, w, VVol(b), b.d, n)
    requires c.d == b.d && VDisk(c) == VDisk(b) && (b.d.indirect == 0 || IsData(b.d.indirect))
    ensures OthersKept(a, c)
  {
    hide Mapped, CsumOk, BytesWritten, Bits.Zeros, Lookup, VDisk;
    var o, o' := Own(VVol(a).disk, a.d, BlocksFor(a.d.size)), Own(VVol(b).disk, b.d, n);
    forall p | IsUsed(a.v, p) && p !in o ensures VDisk(c)[p] == VDisk(a)[p] && p != c.d.indirect {
      assert IsUsed(VVol(a), p);
      assert p !in o';
      assert OtherKept(VVol(a), VVol(b), p);
    }
  }

  lemma PartKeepsFixed(a: Alt, start: nat, w: seq<byte>, b: Alt, n: nat)
    requires a.d.size >= 0 && Underway(VVol(a), a.d, BlocksFor(a.d.size), start, w, VVol(b), b.d, n)
    ensures FixedKept(a.v.disk, b.v.disk)
  {
    hide Own, OfInts, OtherKept, Mapped, CsumOk, BytesWritten, Bits.Zeros, Lookup;
  }

  lemma {:induction false} RunNoSpace(a: Alt, start: nat, nr: nat, buf: seq<byte>)
    requires CleanTable(a) && Coherent(a) && Sound(VVol(a), a.d) && start % 512 == 0 && start <= a.d.size
    requires 512 * nr <= |buf| && start / 512 + nr <= NR_MAPPED && WriteRun(a, start / 512, nr, buf).1.Failed?
    ensures SpaceGone(a, WriteRun(a, start / 512, nr, buf).0)
  {
    hide Mapped, CsumOk, Coherent, WriteBlock, VDisk, Underway, CleanTable, SpaceGone, BlockWritten;
    SoundBlocks(VVol(a), a.d);
    var s, n0 := start / 512, BlocksFor(a.d.size);
    if WriteRun(a, s, nr - 1, buf).1 == Done {
      var k := s + nr - 1;
      var b, n, blk := WriteRun(a, s, nr - 1, buf).0, Max(n0, k), buf[512 * (nr - 1)..512 * nr];
      WriteRunIs(a, start, nr - 1, buf);
      WriteRunClean(a, start, nr - 1, buf);
      RunDirty(a, start, nr - 1, buf);
      WritingSound(VVol(a), a.d, n0, start, buf[..512 * (nr - 1)], VVol(b), b.d, n);
      FailsAtEnd(b, n, k, blk);
      SoundNeedsIndirect(VVol(a), a.d);
      PartThenNoSpace(a, start, buf[..512 * (nr - 1)], b, n, blk);
    } else {
      RunNoSpace(a, start, nr - 1, buf);
    }
  }

  /** Only a block that is not mapped yet can fail. */
  lemma FailsAtEnd(a: Alt, n: nat, k: nat, blk: Block)
    requires Coherent(a) && Mapped(VVol(a), a.d, n) && CsumOk(VVol(a), a.d, n) && k <= n && k < NR_MAPPED
    requires WriteBlock(a, k, blk).1.Failed?
    ensures k == n < NR_MAPPED && WriteBlock(a, k, blk).1 == Failed(ENOSPC)
  {
    hide Mapped, CsumOk, Coherent, WriteBlock, VDisk;
    FrontWhole(BlockAt(a, n, k), blk);
    WriteBlockIs(a, n, k, blk);
  }

  lemma SoundNeedsIndirect(v: Vol, d: DInode)
    requires Sound(v, d)
    ensures BlocksFor(d.size) > 4 ==> d.indirect != 0
  {
  }

  /** A write that runs out of space has taken all that was free. */
  lemma WriteNoSpace(a: Alt, start: nat, buf: seq<byte>)
    requires CleanTable(a) && Coherent(a) && Sound(VVol(a), a.d) && start % 512 == 0 && start <= a.d.size && buf != []
    requires Write(a, start, buf).1 == Failed(ENOSPC)
    ensures SpaceGone(a, Write(a, start, buf).0)
  {
    hide Mapped, CsumOk, Coherent, WriteBlock, VDisk, Underway, CleanTable, SpaceGone, BlockWritten, WriteRun;
    hide ReadBlock;
    var tail, body, s, n0 := |buf| % 512, |buf| / 512, start / 512, BlocksFor(a.d.size);
    var end := LastBlock(start, |buf|);
    BodyAndTail(start, |buf|);
    SoundBlocks(VVol(a), a.d);
    if tail == 0 {
      RunNoSpace(a, start, body, buf);
    } else {
      ReadBlockIs(a, end);
      ReadBlockFlags(a, end);
      var (a1, block) := ReadBlock(a, end);
      var (a2, r) := WriteRun(a1, s, body, buf);
      if r != Done {
        RunNoSpace(a1, start, body, buf);
        SpaceGoneFrom(a, a1, a2);
      } else {
        var n, blk := Max(n0, end), Front(block, buf[512 * body..]);
        WriteRunIs(a1, start, body, buf);
        WriteRunClean(a1, start, body, buf);
        RunDirty(a1, start, body, buf);
        WritingSound(VVol(a1), a1.d, n0, start, buf[..512 * body], VVol(a2), a2.d, n);
        FailsAtEnd(a2, n, end, blk);
        SoundNeedsIndirect(VVol(a), a.d);
        PartThenNoSpace(a1, start, buf[..512 * body], a2, n, blk);
        SpaceGoneFrom(a, a1, WriteBlock(a2, end, blk).0);
      }
    }
  }

  lemma SpaceGoneFrom(a: Alt, a1: Alt, b: Alt)
    requires VDisk(a1) == VDisk(a) && a1.v == a.v && a1.d == a.d && a1.dirty == a.dirty && SpaceGone(a1, b)
    ensures SpaceGone(a, b)
  {
    hide Coherent, CleanTable, Bits.Zeros;
  }
}
