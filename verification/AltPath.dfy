/** The alternate write path on in-memory inodes, synchronous and asynchronous. */
module AltPath {
  import opened Bytes
  import opened Layout
  import opened Checksum
  import opened Volume
  import Bits = Bitmap
  import opened Reactors
  import opened Device
  import opened Super
  import opened Steps
  import opened Inodes
  import Alternate

  /** What the path works on, taken from the inode and its super block. */
  ghost function State(in_: Inode): Alternate.Alt
    requires in_.sb.Valid() && |in_.indirect| == 128
    reads in_, in_.sb, in_.sb.dev, in_.sb.inodeFreemap.v, in_.sb.blockFreemap.v
  {
    Alternate.Alt(in_.sb.Vol(), in_.sb.csumDirty, in_.din, in_.indirect, in_.indirectLoaded, in_.indirectDirty,
      in_.dirty)
  }

  ghost predicate Able(in_: Inode)
    reads in_, in_.sb, in_.sb.dev, in_.sb.inodeFreemap.v, in_.sb.blockFreemap.v
  {
    in_.sb.Valid() && |in_.indirect| == 128 && Alternate.Coherent(State(in_))
  }

  /** Reads the indirect block into memory unless it is there. */
  method EnsureIndirectLoaded(in_: Inode)
    requires Able(in_) && in_.din.indirect != 0 && MayRead(in_.sb.dev.s, in_.din.indirect, 1)
    modifies in_`indirect, in_`indirectLoaded, in_.sb.dev`s, in_.sb.dev`readLog
    ensures Able(in_) && State(in_) == Alternate.EnsureLoaded(old(State(in_)))
    ensures Quiet(old(in_.sb.dev.s), in_.sb.dev.s)
  {
    hide ToInts, OfInts, Quiet, Device.Valid, MayRead;
    Alternate.EnsureLoadedIs(State(in_));
    DeviceValid(in_.sb);
    if in_.indirectLoaded {
      QuietRefl(in_.sb.dev.s);
      return;
    }
    var data := in_.sb.dev.ReadAndWait(METADATA_REACTOR, in_.din.indirect, 1);
    QuietSettled(old(in_.sb.dev.s), in_.sb.dev.s);
    in_.indirect := ToInts(data[0]);
    in_.indirectLoaded := true;
  }

  lemma QuietSettled(s: Io, s': Io)
    requires Inv(s) && Quiet(s, s')
    ensures Settled(s') == Settled(s) && Inv(s') && |s'.futures| >= |s.futures| && |s'.bufs| >= |s.bufs|
  {
    hide Settled;
  }

  /** Physical block of a logical one, through the cached indirect block. */
  method LogToPhy(in_: Inode, l: nat) returns (p: int)
    requires Able(in_) && (in_.din.indirect != 0 ==> MayRead(in_.sb.dev.s, in_.din.indirect, 1))
    modifies in_`indirect, in_`indirectLoaded, in_.sb.dev`s, in_.sb.dev`readLog
    ensures Able(in_) && (State(in_), p) == Alternate.LogToPhy(old(State(in_)), l)
    ensures Quiet(old(in_.sb.dev.s), in_.sb.dev.s)
  {
    hide ToInts, OfInts, Quiet, Device.Valid, MayRead;
    Alternate.LogToPhyIs(State(in_), l);
    DeviceValid(in_.sb);
    QuietRefl(in_.sb.dev.s);
    if l < 4 {
      return in_.din.direct[l];
    }
    if l - 4 >= 128 {
      return -EFBIG;
    }
    if in_.din.indirect == 0 {
      return 0;
    }
    EnsureIndirectLoaded(in_);
    p := in_.indirect[l - 4];
  }

  lemma DeviceValid(sb: SuperBlock)
    requires sb.Valid()
    ensures sb.dev.Valid() && Inv(sb.dev.s)
  {
  }

  /** Takes a free block in memory; the freemap is to be flushed later. */
  method AllocBlockAlternate(sb: SuperBlock) returns (p: int)
    requires sb.Valid()
    modifies sb.blockFreemap.v
    ensures sb.Valid() && sb.Vol() == Alternate.Take(old(sb.Vol()))
    ensures p == var i := Bits.FirstClear(old(sb.Vol().used), 0); if i < NR_BLOCK_BITS then DATA_START + i else -ENOSPC
  {
    var ok, index := sb.blockFreemap.Alloc();
    assert !ok ==> sb.Vol().used == old(sb.Vol().used);
    p := if ok then DATA_START + index else -ENOSPC;
  }

  /** Maps a new block; when the indirect block cannot be had the data block stays taken. */
  method AllocateBlockAlternate(in_: Inode, l: nat) returns (p: int)
    requires Able(in_) && l < NR_MAPPED && (in_.din.indirect != 0 ==> MayRead(in_.sb.dev.s, in_.din.indirect, 1))
    modifies in_`din, in_`dirty, in_`indirect, in_`indirectLoaded, in_`indirectDirty, in_.sb.dev`s,
      in_.sb.dev`readLog, in_.sb.blockFreemap.v
    ensures in_.sb.Valid() && |in_.indirect| == 128 && (State(in_), p) == Alternate.Allocate(old(State(in_)), l)
    ensures Quiet(old(in_.sb.dev.s), in_.sb.dev.s)
  {
    hide ToInts, OfInts, Quiet, Device.Valid, MayRead, SuperBlock.Vol, SuperBlock.Valid, Bits.FirstClear;
    hide Alternate.Coherent;
    DeviceValid(in_.sb);
    QuietRefl(in_.sb.dev.s);
    p := AllocBlockAlternate(in_.sb);
    if p < 0 {
      Alternate.TakeFull(old(in_.sb.Vol()));
      return;
    }
    in_.dirty := true;
    if l < 4 {
      in_.din := in_.din.(direct := in_.din.direct[l := p]);
      return;
    }
    if in_.din.indirect == 0 {
      var q := AllocBlockAlternate(in_.sb);
      if q < 0 {
        Alternate.TakeFull(Alternate.Take(old(in_.sb.Vol())));
        return q;
      }
      in_.indirect := seq(128, _ => 0);
      in_.din := in_.din.(indirect := q);
      in_.indirectLoaded := true;
    } else {
      Alternate.TakeKeepsCoherent(old(State(in_)), State(in_));
      EnsureIndirectLoaded(in_);
    }
    in_.indirect := in_.indirect[l - 4 := p];
    in_.indirectDirty := true;
  }

  /** Where the next block goes is on the device, and no request in flight is in the way. */
  ghost predicate Clear(in_: Inode, l: nat)
    requires in_.sb.Valid() && |in_.indirect| == 128
    reads in_, in_.sb, in_.sb.dev, in_.sb.inodeFreemap.v, in_.sb.blockFreemap.v
  {
    var p := Alternate.Place(State(in_), l).1;
    && (in_.din.indirect != 0 ==> MayRead(in_.sb.dev.s, in_.din.indirect, 1))
    && (p < 0 || (IsData(p) && MayWrite(in_.sb.dev.s, p, 1)))
  }

  /** Gets the place for a logical block, mapping a new one if need be. */
  method PlaceBlock(in_: Inode, l: nat) returns (p: int)
    requires Able(in_) && Clear(in_, l)
    modifies in_`din, in_`dirty, in_`indirect, in_`indirectLoaded, in_`indirectDirty, in_.sb.dev`s,
      in_.sb.dev`readLog, in_.sb.blockFreemap.v
    ensures in_.sb.Valid() && |in_.indirect| == 128 && (State(in_), p) == Alternate.Place(old(State(in_)), l)
    ensures Quiet(old(in_.sb.dev.s), in_.sb.dev.s) && (p < 0 || (IsData(p) && MayWrite(in_.sb.dev.s, p, 1)))
  {
    hide ToInts, OfInts, Quiet, Device.Valid, MayRead, MayWrite, SuperBlock.Vol, SuperBlock.Valid, Bits.FirstClear;
    hide Alternate.Coherent;
    hide Alternate.Allocate;
    DeviceValid(in_.sb);
    ghost var s0 := in_.sb.dev.s;
    p := LogToPhy(in_, l);
    ghost var s1 := in_.sb.dev.s;
    QuietMay(s0, s1);
    if p == 0 {
      p := AllocateBlockAlternate(in_, l);
      QuietTrans(s0, s1, in_.sb.dev.s);
    }
    QuietMay(s0, in_.sb.dev.s);
  }

  lemma QuietMay(s: Io, s': Io)
    requires Inv(s) && Quiet(s, s')
    ensures forall start: int, nr: nat :: MayWrite(s, start, nr) ==> MayWrite(s', start, nr)
    ensures forall start: int, nr: nat :: MayRead(s, start, nr) ==> MayRead(s', start, nr)
  {
    hide MayWrite, MayRead, Became;
    forall start: int, nr: nat ensures MayWrite(s, start, nr) ==> MayWrite(s', start, nr) {
      StillMay(s, s', Settled(s), start, nr);
    }
    forall start: int, nr: nat ensures MayRead(s, start, nr) ==> MayRead(s', start, nr) {
      StillMay(s, s', Settled(s), start, nr);
    }
  }

  /** Writes one block of the file; the request stays in flight on future `f`. */
  method FileWriteBlockAsync(in_: Inode, f: nat, l: nat, b: Block) returns (r: Outcome)
    requires Able(in_) && Clear(in_, l) && f < |in_.sb.dev.s.futures|
    modifies in_`din, in_`dirty, in_`indirect, in_`indirectLoaded, in_`indirectDirty
    modifies in_.sb`csumTable, in_.sb`csumDirty, in_.sb.dev, in_.sb.blockFreemap.v
    ensures in_.sb.Valid() && |in_.indirect| == 128 && r == Alternate.WriteBlock(old(State(in_)), l, b).1
    ensures !r.Aborted? ==> State(in_) == Alternate.WriteBlock(old(State(in_)), l, b).0
    ensures !r.Aborted? ==> Issued(old(in_.sb.dev.s), in_.sb.dev.s, f, {Alternate.Place(old(State(in_)), l).1})
    ensures r == Done ==>
      in_.sb.dev.writeLog == old(in_.sb.dev.writeLog) + [Extent(Alternate.Place(old(State(in_)), l).1, 1)]
  {
    hide ToInts, OfInts, Quiet, Issued, Device.Valid, MayRead, MayWrite, Bits.FirstClear, Alternate.Coherent;
    hide Alternate.Place, Csum;
    DeviceValid(in_.sb);
    ghost var s0 := in_.sb.dev.s;
    var p := PlaceBlock(in_, l);
    DeviceValid(in_.sb);
    ghost var s1 := in_.sb.dev.s;
    QuietSettled(s0, s1);
    if p < 0 {
      QuietIssued(s0, s1, f);
      IssuedWider(s0, s1, f, {}, {p});
      return Failed(-p);
    }
    in_.sb.dev.WriteBlocksAsync(DATA_REACTOR, f, [b], p);
    WriteIsIssued(s1, in_.sb.dev.s, f, p, b);
    IssuedAfterQuiet(s0, s1, in_.sb.dev.s, {p}, f);
    if p - DATA_START >= MAX_NR_CSUMS {
      return Aborted(CsumSlot);
    }
    var csum := CalculateCsum(b);
    in_.sb.SetCsum(p, csum);
    r := Done;
  }

  lemma IssuedWider(s: Io, s': Io, f: nat, ps: set<int>, qs: set<int>)
    requires Inv(s) && Issued(s, s', f, ps) && ps <= qs
    ensures Issued(s, s', f, qs)
  {
    hide Settled, FinalBuf, WritingOn, ReadingOn, PendingOn, Into;
  }

  lemma IssuedAfterQuiet(s: Io, s1: Io, s2: Io, ps: set<int>, f: nat)
    requires Inv(s) && Quiet(s, s1) && Issued(s1, s2, f, ps)
    ensures Issued(s, s2, f, ps)
  {
    hide Issued, Quiet;
    QuietIssued(s, s1, f);
    IssuedTrans(s, s1, {}, s2, ps, f);
    assert {} + ps == ps;
  }

  /** Writes one block of the file and waits. */
  method FileWriteBlock(in_: Inode, l: nat, b: Block) returns (r: Outcome)
    requires Able(in_) && in_.sb.Idle()
    requires in_.din.indirect == 0 || IsData(in_.din.indirect)
    requires var p := Alternate.Place(State(in_), l).1; p < 0 || IsData(p)
    modifies in_`din, in_`dirty, in_`indirect, in_`indirectLoaded, in_`indirectDirty
    modifies in_.sb`csumTable, in_.sb`csumDirty, in_.sb.dev, in_.sb.blockFreemap.v
    ensures in_.sb.Valid() && in_.sb.Idle() && |in_.indirect| == 128
    ensures r == Alternate.WriteBlock(old(State(in_)), l, b).1
    ensures !r.Aborted? ==> State(in_) == Alternate.WriteBlock(old(State(in_)), l, b).0
    ensures r == Done ==>
      in_.sb.dev.writeLog == old(in_.sb.dev.writeLog) + [Extent(Alternate.Place(old(State(in_)), l).1, 1)]
  {
    hide ToInts, OfInts, Quiet, Device.Valid, MayRead, MayWrite, Bits.FirstClear, Alternate.Coherent;
    hide Alternate.Place, Csum;
    DeviceValid(in_.sb);
    ghost var s0 := in_.sb.dev.s;
    IdleMayAll(s0);
    var p := PlaceBlock(in_, l);
    DeviceValid(in_.sb);
    QuietSettled(s0, in_.sb.dev.s);
    QuietIdle(s0, in_.sb.dev.s);
    if p < 0 {
      return Failed(-p);
    }
    in_.sb.WriteBlock(b, p);
    if p - DATA_START >= MAX_NR_CSUMS {
      return Aborted(CsumSlot);
    }
    var csum := CalculateCsum(b);
    in_.sb.SetCsum(p, csum);
    r := Done;
  }

  lemma QuietIdle(s: Io, s': Io)
    requires Inv(s) && s.pending == [] && Quiet(s, s')
    ensures s'.pending == []
  {
    IdleAgain(s, s', Settled(s));
  }

  lemma IdleMayAll(s: Io)
    requires s.pending == []
    ensures forall p :: 0 <= p < DISK_BLOCKS ==> MayWrite(s, p, 1) && MayRead(s, p, 1)
  {
    hide MayWrite, MayRead;
    forall p | 0 <= p < DISK_BLOCKS ensures MayWrite(s, p, 1) && MayRead(s, p, 1) {
      IdleMay(s, p, 1);
    }
  }

  // The synchronous write

  /** The inode is sound when its indirect block, as it is cached, is applied. */
  ghost predicate Fit(a: Alternate.Alt, start: nat) {
    Alternate.Coherent(a) && Sound(Alternate.VVol(a), a.d) && start % 512 == 0 && start <= a.d.size
  }

  lemma FitBound(a: Alternate.Alt, start: nat)
    requires Fit(a, start)
    ensures start % 512 == 0 && Alternate.Coherent(a) && a.d.size >= 0 && BlocksFor(a.d.size) <= NR_MAPPED
    ensures start / 512 <= BlocksFor(a.d.size)
    ensures Mapped(Alternate.VVol(a), a.d, BlocksFor(a.d.size)) && CsumOk(Alternate.VVol(a), a.d, BlocksFor(a.d.size))
  {
    hide Own, Lookup, Alternate.VDisk;
  }

  /** After `k` blocks: the state, and that the next block can be placed. */
  lemma RunReady(a: Alternate.Alt, start: nat, k: nat, buf: seq<byte>)
    requires Fit(a, start) && 512 * k <= |buf| && start / 512 + k < NR_MAPPED
    requires Alternate.WriteRun(a, start / 512, k, buf).1 == Done
    ensures var b := Alternate.WriteRun(a, start / 512, k, buf).0;
            var n := Max(BlocksFor(a.d.size), start / 512 + k);
            && Alternate.Coherent(b) && a.d.size >= 0
            && Underway(Alternate.VVol(a), a.d, BlocksFor(a.d.size), start, buf[..512 * k], Alternate.VVol(b), b.d, n)
            && Mapped(Alternate.VVol(b), b.d, n) && CsumOk(Alternate.VVol(b), b.d, n)
            && (b.d.indirect == 0 || IsData(b.d.indirect))
            && var p := Alternate.Place(b, start / 512 + k).1; p < 0 || IsData(p)
  {
    hide Alternate.VDisk, Alternate.WriteRun, Underway, Mapped, CsumOk, Alternate.Place;
    FitBound(a, start);
    Alternate.WriteRunIs(a, start, k, buf);
    var b, n := Alternate.WriteRun(a, start / 512, k, buf).0, Max(BlocksFor(a.d.size), start / 512 + k);
    WritingSound(Alternate.VVol(a), a.d, BlocksFor(a.d.size), start, buf[..512 * k], Alternate.VVol(b), b.d, n);
    Alternate.PlaceSafe(b, n, start / 512 + k);
  }

  lemma RunStep(a: Alternate.Alt, s: nat, k: nat, buf: seq<byte>)
    requires 512 * (k + 1) <= |buf| && Alternate.WriteRun(a, s, k, buf).1 == Done
    ensures Alternate.WriteRun(a, s, k + 1, buf)
         == Alternate.WriteBlock(Alternate.WriteRun(a, s, k, buf).0, s + k, buf[512 * k..512 * (k + 1)])
  {
    hide Alternate.WriteBlock;
  }

  /** One request for each of the logical blocks from `s` up to `e`. */
  ghost function Requests(a: Alternate.Alt, s: nat, e: nat): seq<Extent>
    requires s <= e
  {
    seq(e - s, i requires 0 <= i < e - s => Extent(Lookup(Alternate.VDisk(a), a.d, s + i), 1))
  }

  /** The blocks of a file are different ones, so that no two of these requests are for the same block. */
  lemma RequestsDiffer(a: Alternate.Alt, n: nat, s: nat, e: nat)
    requires WfMap(Alternate.VDisk(a), a.d, n) && s <= e <= n
    ensures forall i, j :: 0 <= i < j < e - s ==> Requests(a, s, e)[i].start != Requests(a, s, e)[j].start
  {
    hide Lookup, Alternate.VDisk;
    forall i, j | 0 <= i < j < e - s ensures Requests(a, s, e)[i].start != Requests(a, s, e)[j].start {
      assert Lookup(Alternate.VDisk(a), a.d, s + i) != Lookup(Alternate.VDisk(a), a.d, s + j);
    }
  }

  /** Where block `k` of a run went, and that the blocks before it are where they were. */
  lemma RunWhere(a: Alternate.Alt, start: nat, k: nat, buf: seq<byte>)
    requires Fit(a, start) && 512 * (k + 1) <= |buf| && start / 512 + k < NR_MAPPED
    requires Alternate.WriteRun(a, start / 512, k, buf).1 == Done
    requires Alternate.WriteRun(a, start / 512, k + 1, buf).1 == Done
    ensures var b, c := Alternate.WriteRun(a, start / 512, k, buf).0, Alternate.WriteRun(a, start / 512, k + 1, buf).0;
            Followed(b, c, start / 512 + k)
  {
    hide Alternate.VDisk, Alternate.WriteRun, Alternate.WriteBlock, Mapped, CsumOk, Alternate.Place, Lookup, Fit;
    FitBound(a, start);
    RunReady(a, start, k, buf);
    RunStep(a, start / 512, k, buf);
    var b := Alternate.WriteRun(a, start / 512, k, buf).0;
    Alternate.WrittenWhere(b, Max(BlocksFor(a.d.size), start / 512 + k), start / 512 + k, buf[512 * k..512 * (k + 1)]);
  }

  ghost predicate Followed(b: Alternate.Alt, c: Alternate.Alt, k: nat) {
    && Lookup(Alternate.VDisk(c), c.d, k) == Alternate.Place(b, k).1
    && forall l: nat :: l < k ==> Lookup(Alternate.VDisk(c), c.d, l) == Lookup(Alternate.VDisk(b), b.d, l)
  }

  lemma RequestsMore(b: Alternate.Alt, c: Alternate.Alt, s: nat, k: nat)
    requires s <= k && Followed(b, c, k)
    ensures Requests(c, s, k + 1) == Requests(b, s, k) + [Extent(Alternate.Place(b, k).1, 1)]
  {
    hide Lookup, Alternate.VDisk, Alternate.Place;
  }

  /** Writes the whole blocks one after another, each once. */
  method WriteBody(in_: Inode, start: nat, nr: nat, buf: seq<byte>) returns (r: Outcome)
    requires Able(in_) && in_.sb.Idle() && Fit(State(in_), start) && 512 * nr <= |buf| && start / 512 + nr <= NR_MAPPED
    modifies in_`din, in_`dirty, in_`indirect, in_`indirectLoaded, in_`indirectDirty
    modifies in_.sb`csumTable, in_.sb`csumDirty, in_.sb.dev, in_.sb.blockFreemap.v
    ensures in_.sb.Valid() && in_.sb.Idle() && |in_.indirect| == 128
    ensures r == Alternate.WriteRun(old(State(in_)), start / 512, nr, buf).1
    ensures !r.Aborted? ==> State(in_) == Alternate.WriteRun(old(State(in_)), start / 512, nr, buf).0
    ensures r == Done ==>
      in_.sb.dev.writeLog == old(in_.sb.dev.writeLog) + Requests(State(in_), start / 512, start / 512 + nr)
  {
    hide SuperBlock.Vol, SuperBlock.Valid, Alternate.VDisk, Alternate.WriteRun, Alternate.WriteBlock, Alternate.Place;
    hide Alternate.Coherent, Underway, Mapped, CsumOk, Fit, Requests, Followed;
    ghost var a := State(in_);
    var k := 0;
    RunNothing(a, start / 512, buf);
    r := Done;
    while k < nr
      invariant 0 <= k <= nr && in_.sb.Valid() && in_.sb.Idle() && |in_.indirect| == 128 && r == Done
      invariant Alternate.WriteRun(a, start / 512, k, buf) == (State(in_), Done)
      invariant in_.sb.dev.writeLog == old(in_.sb.dev.writeLog) + Requests(State(in_), start / 512, start / 512 + k)
    {
      ghost var b := State(in_);
      RunReady(a, start, k, buf);
      RunStep(a, start / 512, k, buf);
      r := FileWriteBlock(in_, start / 512 + k, buf[512 * k..512 * (k + 1)]);
      if r != Done {
        RunFails(a, start / 512, k + 1, nr, buf);
        return;
      }
      RunWhere(a, start, k, buf);
      RequestsMore(b, State(in_), start / 512, start / 512 + k);
      k := k + 1;
    }
  }

  lemma RunNothing(a: Alternate.Alt, s: nat, buf: seq<byte>)
    ensures Alternate.WriteRun(a, s, 0, buf) == (a, Done) && Requests(a, s, s) == []
  {
  }

  lemma {:induction false} RunFails(a: Alternate.Alt, s: nat, k: nat, nr: nat, buf: seq<byte>)
    requires k <= nr && 512 * nr <= |buf| && Alternate.WriteRun(a, s, k, buf).1 != Done
    ensures Alternate.WriteRun(a, s, nr, buf) == Alternate.WriteRun(a, s, k, buf)
  {
    hide Alternate.WriteBlock;
    if nr > k {
      RunFails(a, s, k, nr - 1, buf);
    }
  }

  /** Reads a block of the file, or zeroes where there is none. */
  method FileReadBlock(in_: Inode, l: nat) returns (b: Block)
    requires Able(in_) && in_.sb.Idle() && (in_.din.indirect == 0 || IsData(in_.din.indirect))
    requires Alternate.LogToPhy(State(in_), l).1 < DISK_BLOCKS
    modifies in_`indirect, in_`indirectLoaded, in_.sb.dev
    ensures Able(in_) && in_.sb.Idle() && (State(in_), b) == Alternate.ReadBlock(old(State(in_)), l)
    ensures in_.sb.dev.writeLog == old(in_.sb.dev.writeLog)
  {
    hide ToInts, OfInts, Quiet, Device.Valid, MayRead, MayWrite, SuperBlock.Vol, SuperBlock.Valid;
    hide Alternate.Coherent, Alternate.LogToPhy;
    DeviceValid(in_.sb);
    ghost var s0 := in_.sb.dev.s;
    IdleMayAll(s0);
    var p := LogToPhy(in_, l);
    DeviceValid(in_.sb);
    QuietSettled(s0, in_.sb.dev.s);
    QuietIdle(s0, in_.sb.dev.s);
    b := ZERO_BLOCK;
    if p > 0 {
      b := in_.sb.ReadBlock(p);
    }
  }

  /**
   * Writes bytes from a block boundary on: whole blocks first, then the tail, whose old bytes are read
   * beforehand. There is no head at a block boundary. Each block of the range is written once.
   */
  method WriteDataAlternate(in_: Inode, start: nat, buf: seq<byte>) returns (r: Outcome)
    requires Able(in_) && in_.sb.Idle() && Fit(State(in_), start)
    modifies in_`din, in_`dirty, in_`indirect, in_`indirectLoaded, in_`indirectDirty
    modifies in_.sb`csumTable, in_.sb`csumDirty, in_.sb.dev, in_.sb.blockFreemap.v
    ensures in_.sb.Valid() && in_.sb.Idle() && |in_.indirect| == 128
    ensures r == Alternate.Write(old(State(in_)), start, buf).1
    ensures !r.Aborted? ==> State(in_) == Alternate.Write(old(State(in_)), start, buf).0
    ensures r == Done && buf != [] ==>
      in_.sb.dev.writeLog == old(in_.sb.dev.writeLog) + Requests(State(in_), start / 512, LastBlock(start, |buf|) + 1)
  {
    hide SuperBlock.Vol, SuperBlock.Valid, Alternate.VDisk, Alternate.WriteRun, Alternate.WriteBlock;
    hide Alternate.ReadBlock;
    hide Alternate.Place, Alternate.Coherent, Alternate.LogToPhy, Underway, Mapped, CsumOk, Fit, LastBlock;
    hide Alternate.Front;
    hide Requests, Followed;
    if |buf| == 0 {
      return Done;
    }
    var tailSize := |buf| % BLOCK_SIZE;
    var bodySize := |buf| - tailSize;
    assert bodySize == 512 * (|buf| / 512) && bodySize / 512 == |buf| / 512;
    var first := start / BLOCK_SIZE;
    var last := first + bodySize / BLOCK_SIZE + (if tailSize != 0 then 1 else 0) - 1;
    if last >= NR_DIRECT && last - NR_DIRECT >= INTS_PER_BLOCK {
      return Failed(EFBIG);
    }
    ghost var a := State(in_);
    FitBound(a, start);
    if tailSize != 0 {
      r := WriteWithTail(in_, start, buf, last);
    } else {
      r := WriteBody(in_, start, bodySize / BLOCK_SIZE, buf);
    }
    if r != Done {
      return;
    }
    Alternate.BodyAndTail(start, |buf|);
    SizedRequests(State(in_), first, last + 1, start + |buf|);
    BodyFits(a, start, buf, last);
    in_.din := in_.din.(size := Max(in_.din.size, start + |buf|));
    in_.dirty := true;
  }

  /** The outcome and state of a body with a tail, before the size is raised. */
  ghost function TailWrite(a: Alternate.Alt, start: nat, buf: seq<byte>, last: nat): (Outcome, Alternate.Alt) {
    var (a1, block) := Alternate.ReadBlock(a, last);
    var (a2, r) := Alternate.WriteRun(a1, start / 512, |buf| / 512, buf);
    if r != Done then (r, a2)
    else
      var (a3, r3) := Alternate.WriteBlock(a2, last, Alternate.Front(block, buf[512 * (|buf| / 512)..]));
      (r3, a3)
  }

  /** The bytes end inside a block, whose old bytes are read before anything is written. */
  method WriteWithTail(in_: Inode, start: nat, buf: seq<byte>, last: nat) returns (r: Outcome)
    requires Able(in_) && in_.sb.Idle() && Fit(State(in_), start) && |buf| % 512 != 0
    requires last == start / 512 + |buf| / 512 && last < NR_MAPPED
    modifies in_`din, in_`dirty, in_`indirect, in_`indirectLoaded, in_`indirectDirty
    modifies in_.sb`csumTable, in_.sb`csumDirty, in_.sb.dev, in_.sb.blockFreemap.v
    ensures in_.sb.Valid() && in_.sb.Idle() && |in_.indirect| == 128
    ensures r == TailWrite(old(State(in_)), start, buf, last).0
    ensures !r.Aborted? ==> State(in_) == TailWrite(old(State(in_)), start, buf, last).1
    ensures r == Done ==> in_.sb.dev.writeLog == old(in_.sb.dev.writeLog) + Requests(State(in_), start / 512, last + 1)
  {
    hide SuperBlock.Vol, SuperBlock.Valid, Alternate.VDisk, Alternate.WriteRun, Alternate.WriteBlock;
    hide Alternate.ReadBlock;
    hide Alternate.Place, Alternate.Coherent, Alternate.LogToPhy, Fit, Alternate.Front, Requests, Followed;
    ghost var a := State(in_);
    var body := |buf| / 512;
    TailReadable(a, start, last);
    var tail := FileReadBlock(in_, last);
    r := WriteBody(in_, start, body, buf);
    if r == Done {
      ghost var b := State(in_);
      TailFollows(Alternate.ReadBlock(a, last).0, start, body, buf, Alternate.Front(tail, buf[512 * body..]));
      r := FileWriteBlock(in_, last, Alternate.Front(tail, buf[512 * body..]));
      if r == Done {
        RequestsMore(b, State(in_), start / 512, last);
      }
    }
  }

  /** The tail can be written, and then it follows the body. */
  lemma TailFollows(a: Alternate.Alt, start: nat, nr: nat, buf: seq<byte>, blk: Block)
    requires Fit(a, start) && 512 * nr <= |buf| && start / 512 + nr < NR_MAPPED
    requires Alternate.WriteRun(a, start / 512, nr, buf).1 == Done
    ensures var b := Alternate.WriteRun(a, start / 512, nr, buf).0; var k := start / 512 + nr;
            && Alternate.Coherent(b) && (b.d.indirect == 0 || IsData(b.d.indirect))
            && (Alternate.Place(b, k).1 < 0 || IsData(Alternate.Place(b, k).1))
            && (Alternate.WriteBlock(b, k, blk).1 == Done ==> Followed(b, Alternate.WriteBlock(b, k, blk).0, k))
  {
    hide Alternate.VDisk, Alternate.WriteRun, Alternate.WriteBlock, Mapped, CsumOk, Alternate.Place, Lookup, Fit;
    FitBound(a, start);
    RunReady(a, start, nr, buf);
    var b, k := Alternate.WriteRun(a, start / 512, nr, buf).0, start / 512 + nr;
    if Alternate.WriteBlock(b, k, blk).1 == Done {
      Alternate.WrittenWhere(b, Max(BlocksFor(a.d.size), k), k, blk);
    }
  }

  lemma SizedRequests(a: Alternate.Alt, s: nat, e: nat, reached: nat)
    requires s <= e
    ensures Requests(Alternate.Closed(a, reached), s, e) == Requests(a, s, e)
  {
    hide Alternate.VDisk;
    SizedLookup(Alternate.VDisk(a), a.d, Alternate.Closed(a, reached).d.size);
    SameVDisk(a, reached);
  }

  lemma SameVDisk(a: Alternate.Alt, reached: nat)
    ensures Alternate.VDisk(Alternate.Closed(a, reached)) == Alternate.VDisk(a)
  {
  }

  lemma TailReadable(a: Alternate.Alt, start: nat, k: nat)
    requires Fit(a, start) && k < NR_MAPPED
    ensures var (b, block) := Alternate.ReadBlock(a, k); Fit(b, start)
    ensures Alternate.LogToPhy(a, k).1 < DISK_BLOCKS && (a.d.indirect == 0 || IsData(a.d.indirect))
  {
    hide Own, CsumOk, Alternate.VDisk;
    Alternate.ReadBlockIs(a, k);
    Alternate.LogToPhyIs(a, k);
    MappedLookup(Alternate.VDisk(a), a.d, BlocksFor(a.d.size), k);
  }

  lemma BodyFits(a: Alternate.Alt, start: nat, buf: seq<byte>, last: nat)
    requires Fit(a, start) && last < NR_MAPPED
    requires last == start / 512 + |buf| / 512 + (if |buf| % 512 != 0 then 1 else 0) - 1
    ensures start + |buf| < 0x8000_0000
  {
  }

  // The asynchronous write

  /** In flight are only writes to blocks in `out`, on future `f`, and reads of blocks in `tail`, on future `h`. */
  ghost predicate Flying(s: Io, f: nat, out: set<int>, h: nat, tail: set<int>) {
    && (forall g: nat, p :: WritingOn(s, g, p) ==> g == f && p in out)
    && (forall g: nat, p :: ReadingOn(s, g, p) ==> g == h && p in tail)
  }

  /** The blocks of others that are being written are allocated and none of this file's. */
  ghost predicate Beside(a: Alternate.Alt, out: set<int>)
    requires a.d.size >= 0
  {
    out !! Own(Alternate.VDisk(a), a.d, BlocksFor(a.d.size)) && AllUsed(Alternate.VVol(a), out)
  }

  /** The tail that is being read is the block behind the body, if it is there. */
  ghost predicate TailIs(a: Alternate.Alt, k: nat, tail: set<int>)
    requires a.d.size >= 0
  {
    tail == {} || (k < BlocksFor(a.d.size) && tail == {Lookup(Alternate.VDisk(a), a.d, k)})
  }

  lemma MayIssue(s0: Io, s: Io, f: nat, out: set<int>, h: nat, tail: set<int>, ps: set<int>, p: int)
    requires Inv(s0) && Flying(s0, f, out, h, tail) && Issued(s0, s, f, ps) && 0 <= p < DISK_BLOCKS && p !in out
    requires p !in ps
    ensures MayRead(s, p, 1) && (p !in tail ==> MayWrite(s, p, 1))
  {
    hide WritingOn, ReadingOn, PendingOn, Into, FinalBuf, Settled;
  }

  lemma BlockClear(a: Alternate.Alt, start: nat, k: nat, buf: seq<byte>, nr: nat, out: set<int>, tail: set<int>,
                   s0: Io, s: Io, f: nat, h: nat)
    requires Fit(a, start) && k <= nr && 512 * nr <= |buf| && start / 512 + k < NR_MAPPED
    requires Alternate.WriteRun(a, start / 512, k, buf).1 == Done
    requires a.d.size >= 0 && Beside(a, out) && (tail == {} || (k < nr && TailIs(a, start / 512 + nr, tail)))
    requires Inv(s0) && Flying(s0, f, out, h, tail)
    requires var b := Alternate.WriteRun(a, start / 512, k, buf).0;
             Issued(s0, s, f, Range(Alternate.VDisk(b), b.d, start / 512, start / 512 + k))
    ensures var b := Alternate.WriteRun(a, start / 512, k, buf).0;
            var p := Alternate.Place(b, start / 512 + k).1;
            && Alternate.Coherent(b)
            && (b.d.indirect != 0 ==> IsData(b.d.indirect) && MayRead(s, b.d.indirect, 1))
            && (p < 0 || (IsData(p) && MayWrite(s, p, 1)))
  {
    hide Alternate.VDisk, Alternate.WriteRun, Mapped, CsumOk, Alternate.Place, Issued, Flying, MayRead, MayWrite;
    hide Lookup, Fit, Range;
    FitBound(a, start);
    RunReady(a, start, k, buf);
    var b := Alternate.WriteRun(a, start / 512, k, buf).0;
    var n, l := Max(BlocksFor(a.d.size), start / 512 + k), start / 512 + k;
    var ps := Range(Alternate.VDisk(b), b.d, start / 512, l);
    Alternate.RoomForNext(a, start, buf[..512 * k], b, n, start / 512, l, out);
    var p := Alternate.Place(b, l).1;
    if b.d.indirect != 0 {
      MayIssue(s0, s, f, out, h, tail, ps, b.d.indirect);
    }
    if p >= 0 {
      MayIssue(s0, s, f, out, h, tail, ps, p);
    }
  }

  lemma RunRange(a: Alternate.Alt, start: nat, k: nat, buf: seq<byte>)
    requires Fit(a, start) && 512 * (k + 1) <= |buf| && start / 512 + k < NR_MAPPED
    requires Alternate.WriteRun(a, start / 512, k, buf).1 == Done
    requires Alternate.WriteRun(a, start / 512, k + 1, buf).1 == Done
    ensures var b, c := Alternate.WriteRun(a, start / 512, k, buf).0, Alternate.WriteRun(a, start / 512, k + 1, buf).0;
            var s := start / 512;
            Range(Alternate.VDisk(c), c.d, s, s + k + 1)
              == Range(Alternate.VDisk(b), b.d, s, s + k) + {Alternate.Place(b, s + k).1}
  {
    hide Alternate.VDisk, Alternate.WriteRun, Alternate.Place, Lookup, Fit;
    RunWhere(a, start, k, buf);
    var b, c := Alternate.WriteRun(a, start / 512, k, buf).0, Alternate.WriteRun(a, start / 512, k + 1, buf).0;
    RangeMore(Alternate.VDisk(b), b.d, Alternate.VDisk(c), c.d, start / 512, start / 512 + k, start / 512 + k,
      Alternate.Place(b, start / 512 + k).1);
  }

  /** Issues the writes of the whole blocks. */
  method WriteBodyAsync(in_: Inode, f: nat, start: nat, nr: nat, buf: seq<byte>, ghost out: set<int>, ghost h: nat,
      ghost tail: set<int>)
  returns (r: Outcome, ghost ps: set<int>)
    requires Able(in_) && Fit(State(in_), start) && 512 * nr <= |buf| && start / 512 + nr <= NR_MAPPED
    requires in_.din.size >= 0
    requires f < |in_.sb.dev.s.futures| && Flying(in_.sb.dev.s, f, out, h, tail)
    requires Beside(State(in_), out) && TailIs(State(in_), start / 512 + nr, tail)
    modifies in_`din, in_`dirty, in_`indirect, in_`indirectLoaded, in_`indirectDirty
    modifies in_.sb`csumTable, in_.sb`csumDirty, in_.sb.dev, in_.sb.blockFreemap.v
    ensures in_.sb.Valid() && |in_.indirect| == 128
    ensures r == Alternate.WriteRun(old(State(in_)), start / 512, nr, buf).1
    ensures !r.Aborted? ==> State(in_) == Alternate.WriteRun(old(State(in_)), start / 512, nr, buf).0
    ensures !r.Aborted? ==> Issued(old(in_.sb.dev.s), in_.sb.dev.s, f, ps)
    ensures r == Done ==> ps == Range(Alternate.VDisk(State(in_)), in_.din, start / 512, start / 512 + nr)
    ensures r == Done ==>
      in_.sb.dev.writeLog == old(in_.sb.dev.writeLog) + Requests(State(in_), start / 512, start / 512 + nr)
  {
    hide Requests, Followed;
    hide SuperBlock.Vol, SuperBlock.Valid, Alternate.VDisk, Alternate.WriteRun, Alternate.WriteBlock;
    hide Alternate.Place, Alternate.Coherent;
    hide Mapped, CsumOk, Fit, Issued, Flying, MayRead, MayWrite, Range, Beside, TailIs;
    ghost var a, s0 := State(in_), in_.sb.dev.s;
    DeviceValid(in_.sb);
    ps := {};
    IssuedNothing(s0, f);
    RunNothing(a, start / 512, buf);
    RangeNothing(a, start / 512);
    var k := 0;
    r := Done;
    while k < nr
      invariant 0 <= k <= nr && in_.sb.Valid() && |in_.indirect| == 128 && r == Done
      invariant Alternate.WriteRun(a, start / 512, k, buf) == (State(in_), Done)
      invariant Issued(s0, in_.sb.dev.s, f, ps) && f < |in_.sb.dev.s.futures|
      invariant ps == Range(Alternate.VDisk(State(in_)), in_.din, start / 512, start / 512 + k)
      invariant in_.sb.dev.writeLog == old(in_.sb.dev.writeLog) + Requests(State(in_), start / 512, start / 512 + k)
    {
      ghost var b, s1 := State(in_), in_.sb.dev.s;
      BlockClear(a, start, k, buf, nr, out, tail, s0, s1, f, h);
      RunStep(a, start / 512, k, buf);
      DeviceValid(in_.sb);
      r := FileWriteBlockAsync(in_, f, start / 512 + k, buf[512 * k..512 * (k + 1)]);
      if r.Aborted? {
        RunFails(a, start / 512, k + 1, nr, buf);
        return;
      }
      IssuedTrans(s0, s1, ps, in_.sb.dev.s, {Alternate.Place(b, start / 512 + k).1}, f);
      IssuedGrows(s1, in_.sb.dev.s, f, {Alternate.Place(b, start / 512 + k).1});
      ps := ps + {Alternate.Place(b, start / 512 + k).1};
      if r != Done {
        RunFails(a, start / 512, k + 1, nr, buf);
        return;
      }
      RunRange(a, start, k, buf);
      RunWhere(a, start, k, buf);
      RequestsMore(b, State(in_), start / 512, start / 512 + k);
      k := k + 1;
    }
  }

  lemma IssuedNothing(s: Io, f: nat)
    requires Inv(s)
    ensures Issued(s, s, f, {})
  {
    QuietRefl(s);
    QuietIssued(s, s, f);
  }

  lemma IssuedGrows(s: Io, s': Io, f: nat, ps: set<int>)
    requires Inv(s) && Issued(s, s', f, ps)
    ensures |s'.futures| >= |s.futures| && |s'.bufs| >= |s.bufs| && Inv(s')
  {
  }

  lemma RangeNothing(a: Alternate.Alt, s: nat)
    ensures Range(Alternate.VDisk(a), a.d, s, s) == {}
  {
  }

  lemma ReadAfterQuiet(s: Io, s1: Io, s2: Io, f: nat, p: int, dest: nat)
    requires Inv(s) && 0 <= p < DISK_BLOCKS && Quiet(s, s1) && ReadIssued(s1, s2, f, p, 1, dest)
    ensures ReadIssued(s, s2, f, p, 1, dest)
  {
    hide WritingOn, ReadingOn, PendingOn, Into, FinalBuf, Settled;
  }

  /** Starts reading a block of the file on future `h`, if there is one. */
  method FileReadBlockAsync(in_: Inode, h: nat, l: nat) returns (mapped: bool, dest: nat)
    requires Able(in_) && h < |in_.sb.dev.s.futures|
      && (in_.din.indirect != 0 ==> MayRead(in_.sb.dev.s, in_.din.indirect, 1))
    requires var p := Alternate.LogToPhy(State(in_), l).1; p <= 0 || (IsData(p) && MayRead(in_.sb.dev.s, p, 1))
    modifies in_`indirect, in_`indirectLoaded, in_.sb.dev`s, in_.sb.dev`readLog
    ensures Able(in_) && State(in_) == Alternate.ReadBlock(old(State(in_)), l).0
    ensures mapped == (Alternate.LogToPhy(old(State(in_)), l).1 > 0)
    ensures !mapped ==> Quiet(old(in_.sb.dev.s), in_.sb.dev.s)
    ensures mapped ==> ReadIssued(old(in_.sb.dev.s), in_.sb.dev.s, h, Alternate.LogToPhy(old(State(in_)), l).1, 1, dest)
  {
    hide ToInts, OfInts, Quiet, Device.Valid, MayRead, MayWrite, Alternate.Coherent, Alternate.LogToPhy, ReadIssued;
    DeviceValid(in_.sb);
    ghost var s0 := in_.sb.dev.s;
    var p := LogToPhy(in_, l);
    DeviceValid(in_.sb);
    ghost var s1 := in_.sb.dev.s;
    QuietSettled(s0, s1);
    QuietMay(s0, s1);
    mapped := p > 0;
    dest := 0;
    if mapped {
      dest := in_.sb.dev.ReadBlocksAsync(DATA_REACTOR, h, p, 1);
      ReadSettled(s1, in_.sb.dev.s, h, p, dest);
      ReadAfterQuiet(s0, s1, in_.sb.dev.s, h, p, dest);
    }
  }

  lemma ReadSettled(s: Io, s': Io, f: nat, p: int, dest: nat)
    requires Inv(s) && 0 <= p < DISK_BLOCKS && ReadIssued(s, s', f, p, 1, dest)
    ensures Inv(s') && Settled(s') == Settled(s) && |s'.futures| >= |s.futures| && dest < |s'.bufs|
    ensures |s'.bufs| >= |s.bufs|
    ensures FinalBuf(s', dest) == [Settled(s)[p]]
  {
    hide Settled, WritingOn, ReadingOn, PendingOn, Into, FinalBuf;
    assert Settled(s)[p..p + 1] == [Settled(s)[p]];
  }

  /** What is known of the tail while it may still be on its way. */
  ghost predicate TailComing(s: Io, h: nat, mapped: bool, dest: nat, block: Block)
    requires Inv(s)
  {
    && (mapped ==> dest < |s.bufs| && FinalBuf(s, dest) == [block] && forall g: nat :: Into(s, g, dest) ==> g == h)
    && (!mapped ==> block == ZERO_BLOCK)
  }

  /** Starts reading the tail block with a future of its own. */
  method StartTail(in_: Inode, f: nat, start: nat, last: nat, ghost out: set<int>)
    returns (h: nat, mapped: bool, dest: nat)
    requires Able(in_) && Fit(State(in_), start) && last < NR_MAPPED && in_.din.size >= 0 && Beside(State(in_), out)
    requires f < |in_.sb.dev.s.futures| && Flying(in_.sb.dev.s, f, out, 0, {})
    modifies in_`indirect, in_`indirectLoaded, in_.sb.dev`s, in_.sb.dev`readLog
    ensures Able(in_) && State(in_) == Alternate.ReadBlock(old(State(in_)), last).0
    ensures Inv(in_.sb.dev.s) && h < |in_.sb.dev.s.futures| && |old(in_.sb.dev.s.futures)| <= |in_.sb.dev.s.futures|
    ensures TailComing(in_.sb.dev.s, h, mapped, dest, Alternate.ReadBlock(old(State(in_)), last).1)
    ensures in_.din.size >= 0 && Flying(in_.sb.dev.s, f, out, h, TailSet(State(in_), last))
    ensures forall g: nat :: PendingOn(in_.sb.dev.s, g) ==> PendingOn(old(in_.sb.dev.s), g) || (g == h && mapped)
    ensures mapped <==> last < BlocksFor(old(in_.din.size))
  {
    hide ToInts, OfInts, Quiet, Device.Valid, MayRead, MayWrite, Alternate.Coherent, Alternate.LogToPhy;
    hide ReadIssued, Fit, Beside, Lookup;
    hide Alternate.VDisk, TailComing, Flying, PendingOn, TailSet, Alternate.ReadBlock;
    DeviceValid(in_.sb);
    ghost var s0, a := in_.sb.dev.s, State(in_);
    TailApart(a, start, last, out, s0, f);
    h := in_.sb.dev.FutureInit();
    ghost var s1 := in_.sb.dev.s;
    QuietSettled(s0, s1);
    QuietMay(s0, s1);
    mapped, dest := FileReadBlockAsync(in_, h, last);
    TailReadable(a, start, last);
    DeviceValid(in_.sb);
    TailStarted(s0, s1, in_.sb.dev.s, f, out, h, a, last, mapped, dest);
  }

  lemma TailStarted(s0: Io, s1: Io, s2: Io, f: nat, out: set<int>, h: nat, a: Alternate.Alt, k: nat, mapped: bool,
      dest: nat)
    requires a.d.size >= 0 && k < NR_MAPPED && Inv(s0) && Flying(s0, f, out, 0, {}) && f < |s0.futures|
    requires Quiet(s0, s1) && h < |s1.futures| && Settled(s0) == a.v.disk
    requires mapped == (Alternate.LogToPhy(a, k).1 > 0) == (k < BlocksFor(a.d.size))
    requires mapped ==>
      Alternate.LogToPhy(a, k).1 == Lookup(Alternate.VDisk(a), a.d, k) && IsData(Alternate.LogToPhy(a, k).1)
    requires mapped ==> ReadIssued(s1, s2, h, Alternate.LogToPhy(a, k).1, 1, dest)
    requires !mapped ==> Quiet(s1, s2)
    requires Alternate.LogToPhy(a, k).0.v == a.v
    ensures Inv(s2) && h < |s2.futures| && |s0.futures| <= |s2.futures|
    ensures TailComing(s2, h, mapped, dest, Alternate.ReadBlock(a, k).1)
    ensures Flying(s2, f, out, h, TailSet(a, k))
    ensures forall g: nat :: PendingOn(s2, g) ==> PendingOn(s0, g) || (g == h && mapped)
  {
    hide WritingOn, ReadingOn, PendingOn, Into, FinalBuf, Settled, Alternate.VDisk, Lookup, Alternate.LogToPhy;
    if mapped {
      ReadSettled(s1, s2, h, Alternate.LogToPhy(a, k).1, dest);
      forall g: nat | Into(s2, g, dest) ensures g == h {
        if g != h {
          IntoOld(s1, g, dest);
        }
      }
    }
  }

  lemma IntoOld(s: Io, g: nat, dest: nat)
    requires Inv(s) && Into(s, g, dest)
    ensures dest < |s.bufs|
  {
    var i: nat :| i < |s.pending| && s.pending[i].Read? && s.pending[i].f == g && s.pending[i].dest == dest;
    assert WfReq(s, s.pending[i]);
  }

  /** The block at `k`, when the file has one. */
  ghost function TailSet(a: Alternate.Alt, k: nat): set<int>
    requires a.d.size >= 0
  {
    if k < BlocksFor(a.d.size) then {Lookup(Alternate.VDisk(a), a.d, k)} else {}
  }

  lemma TailApart(a: Alternate.Alt, start: nat, k: nat, out: set<int>, s: Io, f: nat)
    requires Fit(a, start) && k < NR_MAPPED && a.d.size >= 0 && Beside(a, out) && Inv(s) && Flying(s, f, out, 0, {})
    ensures var p := Alternate.LogToPhy(a, k).1; p <= 0 || (IsData(p) && MayRead(s, p, 1))
    ensures a.d.indirect != 0 ==> IsData(a.d.indirect) && MayRead(s, a.d.indirect, 1)
    ensures Alternate.LogToPhy(a, k).0.v == a.v && Alternate.ReadBlock(a, k).0.d == a.d
    ensures TailSet(Alternate.ReadBlock(a, k).0, k) == TailSet(a, k)
    ensures Alternate.LogToPhy(a, k).1 > 0 <==> k < BlocksFor(a.d.size)
    ensures k < BlocksFor(a.d.size) ==> Alternate.LogToPhy(a, k).1 == Lookup(Alternate.VDisk(a), a.d, k)
  {
    hide CsumOk, Alternate.VDisk, WritingOn, ReadingOn, Lookup;
    var n := BlocksFor(a.d.size);
    Alternate.LogToPhyIs(a, k);
    MappedLookup(Alternate.VDisk(a), a.d, n, k);
    if k < n {
      InOwn(Alternate.VDisk(a), a.d, n, k);
    }
  }

  /** When the wait for the tail is over its bytes are there, and no read is in flight any more. */
  lemma TailArrived(s2: Io, s3: Io, s4: Io, f: nat, out: set<int>, h: nat, tail: set<int>, ps: set<int>,
                    mapped: bool, dest: nat, block: Block)
    requires Inv(s2) && TailComing(s2, h, mapped, dest, block) && Flying(s2, f, out, h, tail)
    requires Issued(s2, s3, f, ps) && Quiet(s3, s4) && !PendingOn(s4, h)
    ensures mapped ==> dest < |s4.bufs| && s4.bufs[dest] == [block]
    ensures Flying(s4, f, out + ps, 0, {}) && Inv(s4) && |s4.futures| >= |s2.futures|
    ensures forall g: nat :: PendingOn(s4, g) ==> g != h && (PendingOn(s2, g) || g == f)
  {
    hide WritingOn, Settled, FinalBuf;
    if mapped {
      assert forall g: nat :: !Into(s4, g, dest) by {
        forall g: nat ensures !Into(s4, g, dest) {
          assert Into(s4, g, dest) ==> Into(s3, g, dest) && Into(s2, g, dest) && PendingOn(s4, g);
        }
      }
      NotComing(s4, dest);
    }
    forall g: nat, p ensures !ReadingOn(s4, g, p) {
      NotOn(s4, h, p);
      assert ReadingOn(s4, g, p) ==> ReadingOn(s3, g, p) && ReadingOn(s2, g, p);
    }
  }

  /** A buffer that no read in flight fills has its final contents. */
  lemma NotComing(s: Io, b: nat)
    requires Inv(s) && b < |s.bufs| && forall g: nat :: !Into(s, g, b)
    ensures FinalBuf(s, b) == s.bufs[b]
  {
    forall i: nat | i < |s.pending| && s.pending[i].Read? ensures s.pending[i].dest != b {
      assert !Into(s, s.pending[i].f, b);
    }
  }

  /** Waits for the tail block. */
  method AwaitTail(in_: Inode, f: nat, h: nat, mapped: bool, dest: nat, ghost s2: Io, ghost out: set<int>,
      ghost tail: set<int>,
                   ghost ps: set<int>, ghost was: Block) returns (block: Block)
    requires in_.sb.Valid() && |in_.indirect| == 128 && h < |in_.sb.dev.s.futures|
    requires Inv(s2) && TailComing(s2, h, mapped, dest, was) && Flying(s2, f, out, h, tail)
    requires Issued(s2, in_.sb.dev.s, f, ps)
    modifies in_.sb.dev`s
    ensures in_.sb.Valid() && State(in_) == old(State(in_)) && block == was
    ensures Inv(in_.sb.dev.s) && Flying(in_.sb.dev.s, f, out + ps, 0, {}) && |in_.sb.dev.s.futures| >= |s2.futures|
    ensures forall g: nat :: PendingOn(in_.sb.dev.s, g) ==> g != h && (PendingOn(s2, g) || g == f)
  {
    hide Quiet, Settled, FinalBuf, PendingOn, Flying, Issued;
    DeviceValid(in_.sb);
    ghost var s3 := in_.sb.dev.s;
    in_.sb.dev.SpinWait(h);
    TailArrived(s2, s3, in_.sb.dev.s, f, out, h, tail, ps, mapped, dest, was);
    QuietSettled(s3, in_.sb.dev.s);
    block := if mapped then in_.sb.dev.s.bufs[dest][0] else ZERO_BLOCK;
  }

  /** Issues the write of the tail block. */
  method WriteTailAsync(in_: Inode, f: nat, start: nat, nr: nat, buf: seq<byte>, b: Block, ghost a: Alternate.Alt,
      ghost out: set<int>)
  returns (r: Outcome)
    requires Able(in_) && Fit(a, start) && 512 * nr <= |buf| && start / 512 + nr < NR_MAPPED && a.d.size >= 0
    requires Beside(a, out)
    requires Alternate.WriteRun(a, start / 512, nr, buf) == (State(in_), Done) && f < |in_.sb.dev.s.futures|
    requires Flying(in_.sb.dev.s, f, out + Range(Alternate.VDisk(State(in_)), in_.din, start / 512, start / 512 + nr),
      0, {})
    modifies in_`din, in_`dirty, in_`indirect, in_`indirectLoaded, in_`indirectDirty
    modifies in_.sb`csumTable, in_.sb`csumDirty, in_.sb.dev, in_.sb.blockFreemap.v
    ensures in_.sb.Valid() && |in_.indirect| == 128 && r == Alternate.WriteBlock(old(State(in_)), start / 512 + nr, b).1
    ensures !r.Aborted? ==> State(in_) == Alternate.WriteBlock(old(State(in_)), start / 512 + nr, b).0
    ensures r == Done ==>
      Flying(in_.sb.dev.s, f, out + Range(Alternate.VDisk(State(in_)), in_.din, start / 512, start / 512 + nr + 1), 0,
        {})
    ensures !r.Aborted? ==> forall g: nat :: PendingOn(in_.sb.dev.s, g) ==> PendingOn(old(in_.sb.dev.s), g) || g == f
    ensures !r.Aborted? ==> Inv(in_.sb.dev.s) && |in_.sb.dev.s.futures| >= |old(in_.sb.dev.s.futures)|
    ensures r == Done ==> Followed(old(State(in_)), State(in_), start / 512 + nr)
    ensures r == Done ==>
      in_.sb.dev.writeLog == old(in_.sb.dev.writeLog) + [Extent(Alternate.Place(old(State(in_)), start / 512 + nr).1,
        1)]
  {
    hide SuperBlock.Vol, SuperBlock.Valid, Alternate.VDisk, Alternate.WriteRun, Alternate.WriteBlock;
    hide Alternate.Place, Alternate.Coherent;
    hide Mapped, CsumOk, Fit, Issued, Flying, MayRead, MayWrite, Range, Beside, PendingOn;
    var k := start / 512 + nr;
    ghost var st, s0 := State(in_), in_.sb.dev.s;
    DeviceValid(in_.sb);
    FitBound(a, start);
    RunReady(a, start, nr, buf);
    ghost var n := Max(BlocksFor(a.d.size), k);
    ghost var range := Range(Alternate.VDisk(st), st.d, start / 512, k);
    TailClear(a, start, nr, buf, out, s0, f);
    r := FileWriteBlockAsync(in_, f, k, b);
    if r.Aborted? {
      return;
    }
    IssuedGrows(s0, in_.sb.dev.s, f, {Alternate.Place(st, k).1});
    FlyingMore(s0, in_.sb.dev.s, f, out + range, {Alternate.Place(st, k).1});
    if r == Done {
      Alternate.WrittenWhere(st, n, k, b);
      RangeMore(Alternate.VDisk(st), st.d, Alternate.VDisk(State(in_)), in_.din, start / 512, k, n,
        Alternate.Place(st, k).1);
      assert out + range + {Alternate.Place(st, k).1} == out + (range + {Alternate.Place(st, k).1});
    }
  }

  lemma RangeMore(disk: Disk, d: DInode, disk': Disk, d': DInode, s: nat, k: nat, n: nat, p: int)
    requires s <= k <= n && Lookup(disk', d', k) == p && forall l: nat :: l < n ==>
      Lookup(disk', d', l) == Lookup(disk, d, l)
    ensures Range(disk', d', s, k + 1) == Range(disk, d, s, k) + {p}
  {
    hide Lookup;
  }

  lemma FlyingMore(s: Io, s': Io, f: nat, out: set<int>, ps: set<int>)
    requires Inv(s) && Flying(s, f, out, 0, {}) && Issued(s, s', f, ps)
    ensures Flying(s', f, out + ps, 0, {})
    ensures forall g: nat :: PendingOn(s', g) ==> PendingOn(s, g) || g == f
  {
    hide WritingOn, ReadingOn, PendingOn, Settled, FinalBuf, Into;
  }

  lemma TailClear(a: Alternate.Alt, start: nat, nr: nat, buf: seq<byte>, out: set<int>, s: Io, f: nat)
    requires Fit(a, start) && 512 * nr <= |buf| && start / 512 + nr < NR_MAPPED && a.d.size >= 0 && Beside(a, out)
    requires Inv(s)
    requires Alternate.WriteRun(a, start / 512, nr, buf).1 == Done
    requires var b := Alternate.WriteRun(a, start / 512, nr, buf).0;
             Flying(s, f, out + Range(Alternate.VDisk(b), b.d, start / 512, start / 512 + nr), 0, {})
    ensures var b := Alternate.WriteRun(a, start / 512, nr, buf).0;
            var p := Alternate.Place(b, start / 512 + nr).1;
            && (b.d.indirect != 0 ==> IsData(b.d.indirect) && MayRead(s, b.d.indirect, 1))
            && (p < 0 || (IsData(p) && MayWrite(s, p, 1)))
  {
    hide Alternate.VDisk, Alternate.WriteRun, Mapped, CsumOk, Alternate.Place, MayRead, MayWrite, Lookup, Fit;
    hide Range, Issued, Flying;
    FitBound(a, start);
    RunReady(a, start, nr, buf);
    var b, k := Alternate.WriteRun(a, start / 512, nr, buf).0, start / 512 + nr;
    var ps := Range(Alternate.VDisk(b), b.d, start / 512, k);
    Alternate.RoomForNext(a, start, buf[..512 * nr], b, Max(BlocksFor(a.d.size), k), start / 512, k, out);
    IssuedNothing(s, f);
    var p := Alternate.Place(b, k).1;
    if b.d.indirect != 0 {
      MayIssue(s, s, f, out + ps, 0, {}, {}, b.d.indirect);
    }
    if p >= 0 {
      MayIssue(s, s, f, out + ps, 0, {}, {}, p);
    }
  }

  /** Requests were issued on future `f` only. */
  ghost predicate OnlyMoreOn(s: Io, s': Io, f: nat) {
    && Inv(s') && |s'.futures| >= |s.futures|
    && forall g: nat :: PendingOn(s', g) ==> PendingOn(s, g) || g == f
  }

  /** With the block behind the body mapped the body needs no free block. */
  lemma MappedTailBody(a: Alternate.Alt, start: nat, nr: nat, buf: seq<byte>)
    requires Fit(a, start) && a.d.size >= 0 && 512 * nr <= |buf| && start / 512 + nr < BlocksFor(a.d.size)
    ensures start / 512 + nr <= NR_MAPPED && !Alternate.WriteRun(a, start / 512, nr, buf).1.Failed?
  {
    hide Own, CsumOk, Alternate.VDisk, Alternate.Coherent, Alternate.WriteRun, Lookup;
    FitBound(a, start);
    Alternate.WriteRunIs(a, start, nr, buf);
    Alternate.SoundNeedsIndirect(Alternate.VVol(a), a.d);
  }

  /** What is in flight when a write that was issued has returned. */
  ghost predicate WriteFlying(s: Io, s': Io, f: nat, out: set<int>, b: Alternate.Alt, start: nat, len: nat) {
    && Inv(s') && |s'.futures| >= |s.futures|
    && Flying(s', f, out + Range(Alternate.VDisk(b), b.d, start / 512, LastBlock(start, len) + 1), 0, {})
    && forall g: nat :: PendingOn(s', g) ==> PendingOn(s, g) || g == f
  }

  /**
   * The write with its requests left in flight on future `f`; the blocks `out` of other files may still be
   * in flight too. The state it leaves is the very one that the synchronous write leaves, and each block of the range
   * is written once.
   */
  method WriteDataAlternateAsync(in_: Inode, f: nat, start: nat, buf: seq<byte>, ghost out: set<int>)
    returns (r: Outcome)
    requires Able(in_) && Fit(State(in_), start) && in_.din.size >= 0 && Beside(State(in_), out)
    requires f < |in_.sb.dev.s.futures| && Flying(in_.sb.dev.s, f, out, 0, {})
    modifies in_`din, in_`dirty, in_`indirect, in_`indirectLoaded, in_`indirectDirty
    modifies in_.sb`csumTable, in_.sb`csumDirty, in_.sb.dev, in_.sb.blockFreemap.v
    ensures in_.sb.Valid() && |in_.indirect| == 128
    ensures r == Alternate.Write(old(State(in_)), start, buf).1
    ensures !r.Aborted? ==> State(in_) == Alternate.Write(old(State(in_)), start, buf).0
    ensures buf == [] || r == Failed(EFBIG) ==> in_.sb.dev.s == old(in_.sb.dev.s)
    ensures buf != [] && r == Done ==> WriteFlying(old(in_.sb.dev.s), in_.sb.dev.s, f, out, State(in_), start, |buf|)
    ensures r.Failed? ==> OnlyMoreOn(old(in_.sb.dev.s), in_.sb.dev.s, f)
    ensures r == Done && buf != [] ==>
      in_.sb.dev.writeLog == old(in_.sb.dev.writeLog) + Requests(State(in_), start / 512, LastBlock(start, |buf|) + 1)
  {
    hide SuperBlock.Vol, SuperBlock.Valid, Alternate.VDisk, Alternate.WriteRun, Alternate.WriteBlock;
    hide Alternate.ReadBlock, Alternate.Place;
    hide Alternate.Coherent, Alternate.LogToPhy, Underway, Mapped, CsumOk, Fit, Flying, Beside, Issued, Range;
    hide PendingOn, Requests;
    DeviceValid(in_.sb);
    if |buf| == 0 {
      return Done;
    }
    var tailSize := |buf| % BLOCK_SIZE;
    var bodySize := |buf| - tailSize;
    assert bodySize == 512 * (|buf| / 512) && bodySize / 512 == |buf| / 512;
    var first := start / BLOCK_SIZE;
    var last := first + bodySize / BLOCK_SIZE + (if tailSize != 0 then 1 else 0) - 1;
    if last >= NR_DIRECT && last - NR_DIRECT >= INTS_PER_BLOCK {
      return Failed(EFBIG);
    }
    ghost var a := State(in_);
    FitBound(a, start);
    Alternate.BodyAndTail(start, |buf|);
    BodyFits(a, start, buf, last);
    if tailSize != 0 {
      r := BodyThenTail(in_, f, start, buf, last, out);
    } else {
      r := BodyAlone(in_, f, start, buf, out);
    }
    if r != Done {
      return;
    }
    ghost var c := State(in_);
    in_.din := in_.din.(size := Max(in_.din.size, start + |buf|));
    in_.dirty := true;
    SizedRange(c, start / 512, LastBlock(start, |buf|) + 1, start + |buf|);
    SizedRequests(c, start / 512, LastBlock(start, |buf|) + 1, start + |buf|);
    assert State(in_) == Alternate.Closed(c, start + |buf|);
  }

  lemma SizedRange(a: Alternate.Alt, s: nat, e: nat, reached: nat)
    ensures var b := Alternate.Closed(a, reached);
            Range(Alternate.VDisk(b), b.d, s, e) == Range(Alternate.VDisk(a), a.d, s, e)
  {
    SizedLookup(Alternate.VDisk(a), a.d, Alternate.Closed(a, reached).d.size);
  }

  /** The bytes end with a whole block. */
  method BodyAlone(in_: Inode, f: nat, start: nat, buf: seq<byte>, ghost out: set<int>) returns (r: Outcome)
    requires Able(in_) && Fit(State(in_), start) && in_.din.size >= 0 && Beside(State(in_), out)
    requires f < |in_.sb.dev.s.futures| && Flying(in_.sb.dev.s, f, out, 0, {})
    requires |buf| > 0 && |buf| % 512 == 0 && start / 512 + |buf| / 512 <= NR_MAPPED
    requires LastBlock(start, |buf|) + 1 == start / 512 + |buf| / 512
    modifies in_`din, in_`dirty, in_`indirect, in_`indirectLoaded, in_`indirectDirty
    modifies in_.sb`csumTable, in_.sb`csumDirty, in_.sb.dev, in_.sb.blockFreemap.v
    ensures in_.sb.Valid() && |in_.indirect| == 128
    ensures r == Alternate.WriteRun(old(State(in_)), start / 512, |buf| / 512, buf).1
    ensures !r.Aborted? ==> State(in_) == Alternate.WriteRun(old(State(in_)), start / 512, |buf| / 512, buf).0
    ensures r == Done ==> WriteFlying(old(in_.sb.dev.s), in_.sb.dev.s, f, out, State(in_), start, |buf|)
    ensures r.Failed? ==> OnlyMoreOn(old(in_.sb.dev.s), in_.sb.dev.s, f)
    ensures r != Failed(EFBIG)
    ensures r == Done ==>
      in_.sb.dev.writeLog == old(in_.sb.dev.writeLog) + Requests(State(in_), start / 512, LastBlock(start, |buf|) + 1)
  {
    hide SuperBlock.Vol, SuperBlock.Valid, Alternate.VDisk, Alternate.WriteRun, Alternate.Coherent, Fit, Flying;
    hide Beside, Issued, Range, PendingOn;
    hide TailIs, Requests;
    ghost var a, s0, ps := State(in_), in_.sb.dev.s, {};
    DeviceValid(in_.sb);
    NoTail(a, start / 512 + |buf| / 512);
    RunNotTooBig(a, start, |buf| / 512, buf);
    r, ps := WriteBodyAsync(in_, f, start, |buf| / 512, buf, out, 0, {});
    if !r.Aborted? {
      IssuedGrows(s0, in_.sb.dev.s, f, ps);
      FlyingMore(s0, in_.sb.dev.s, f, out, ps);
    }
  }

  lemma NoTail(a: Alternate.Alt, k: nat)
    requires a.d.size >= 0
    ensures TailIs(a, k, {})
  {
  }

  lemma RunNotTooBig(a: Alternate.Alt, start: nat, nr: nat, buf: seq<byte>)
    requires Fit(a, start) && 512 * nr <= |buf| && start / 512 + nr <= NR_MAPPED
    ensures Alternate.WriteRun(a, start / 512, nr, buf).1 != Failed(EFBIG)
  {
    hide Sound, Alternate.Coherent, Alternate.WriteRun;
    FitBound(a, start);
    Alternate.WriteRunIs(a, start, nr, buf);
  }

  /** The bytes end inside a block, whose old bytes are read while the body is being written. */
  method BodyThenTail(in_: Inode, f: nat, start: nat, buf: seq<byte>, last: nat, ghost out: set<int>)
    returns (r: Outcome)
    requires Able(in_) && Fit(State(in_), start) && in_.din.size >= 0 && Beside(State(in_), out)
    requires f < |in_.sb.dev.s.futures| && Flying(in_.sb.dev.s, f, out, 0, {})
    requires |buf| % 512 != 0 && last == start / 512 + |buf| / 512 == LastBlock(start, |buf|) && last < NR_MAPPED
    modifies in_`din, in_`dirty, in_`indirect, in_`indirectLoaded, in_`indirectDirty
    modifies in_.sb`csumTable, in_.sb`csumDirty, in_.sb.dev, in_.sb.blockFreemap.v
    ensures in_.sb.Valid() && |in_.indirect| == 128
    ensures (r, State(in_)) == TailWrite(old(State(in_)), start, buf, last)
      || (r.Aborted? && r == TailWrite(old(State(in_)), start, buf, last).0)
    ensures r == Done ==> WriteFlying(old(in_.sb.dev.s), in_.sb.dev.s, f, out, State(in_), start, |buf|)
    ensures r.Failed? ==> OnlyMoreOn(old(in_.sb.dev.s), in_.sb.dev.s, f)
    ensures r != Failed(EFBIG)
    ensures r == Done ==> in_.sb.dev.writeLog == old(in_.sb.dev.writeLog) + Requests(State(in_), start / 512, last + 1)
  {
    hide SuperBlock.Vol, SuperBlock.Valid, Alternate.VDisk, Alternate.WriteRun, Alternate.WriteBlock;
    hide Alternate.ReadBlock, Alternate.Coherent;
    hide Requests, Followed, Alternate.Place;
    hide Fit, Flying, Beside, Issued, Range, PendingOn, TailIs, TailSet, TailComing, LastBlock;
    ghost var a, s0 := State(in_), in_.sb.dev.s;
    var body := |buf| / 512;
    TailReadable(a, start, last);
    TailKeeps(a, start, last, out);
    var h, mapped, dest := StartTail(in_, f, start, last, out);
    ghost var a1, s2, ps := State(in_), in_.sb.dev.s, {};
    RunNotTooBig(a1, start, body, buf);
    r, ps := WriteBodyAsync(in_, f, start, body, buf, out, h, TailSet(a1, last));
    if r.Aborted? {
      return;
    }
    IssuedGrows(s2, in_.sb.dev.s, f, ps);
    if r.Failed? {
      if mapped {
        MappedTailBody(a1, start, body, buf);
      }
      PendingAfter(s2, in_.sb.dev.s, f, ps);
      return;
    }
    var block := AwaitTail(in_, f, h, mapped, dest, s2, out, TailSet(a1, last), ps, Alternate.ReadBlock(a, last).1);
    ghost var s4 := in_.sb.dev.s;
    RunReady(a1, start, body, buf);
    r := EndWithTail(in_, f, start, body, buf, Alternate.Front(block, buf[512 * body..]), a1, out,
      old(in_.sb.dev.writeLog));
  }

  lemma PendingAfter(s: Io, s': Io, f: nat, ps: set<int>)
    requires Inv(s) && Issued(s, s', f, ps)
    ensures Inv(s') && forall g: nat :: PendingOn(s', g) ==> PendingOn(s, g) || g == f
  {
    hide WritingOn, ReadingOn, PendingOn, Settled, FinalBuf, Into;
  }

  lemma TailKeeps(a: Alternate.Alt, start: nat, last: nat, out: set<int>)
    requires Fit(a, start) && last < NR_MAPPED && a.d.size >= 0 && Beside(a, out)
    ensures var b := Alternate.ReadBlock(a, last).0;
            b.d == a.d && Beside(b, out) && TailIs(b, last, TailSet(b, last))
  {
    hide Own, CsumOk, Alternate.VDisk, Mapped;
    Alternate.ReadBlockIs(a, last);
  }

  /** The write of the tail block completes the requests of the whole range. */
  method EndWithTail(in_: Inode, f: nat, start: nat, nr: nat, buf: seq<byte>, b: Block, ghost a: Alternate.Alt,
      ghost out: set<int>, ghost log: seq<Extent>)
    returns (r: Outcome)
    requires Able(in_) && Fit(a, start) && 512 * nr <= |buf| && start / 512 + nr < NR_MAPPED && a.d.size >= 0
    requires Beside(a, out)
    requires Alternate.WriteRun(a, start / 512, nr, buf) == (State(in_), Done) && f < |in_.sb.dev.s.futures|
    requires Flying(in_.sb.dev.s, f, out + Range(Alternate.VDisk(State(in_)), in_.din, start / 512, start / 512 + nr),
      0, {})
    requires in_.sb.dev.writeLog == log + Requests(State(in_), start / 512, start / 512 + nr)
    modifies in_`din, in_`dirty, in_`indirect, in_`indirectLoaded, in_`indirectDirty
    modifies in_.sb`csumTable, in_.sb`csumDirty, in_.sb.dev, in_.sb.blockFreemap.v
    ensures in_.sb.Valid() && |in_.indirect| == 128 && r == Alternate.WriteBlock(old(State(in_)), start / 512 + nr, b).1
    ensures !r.Aborted? ==> State(in_) == Alternate.WriteBlock(old(State(in_)), start / 512 + nr, b).0
    ensures r == Done ==>
      Flying(in_.sb.dev.s, f, out + Range(Alternate.VDisk(State(in_)), in_.din, start / 512, start / 512 + nr + 1), 0,
        {})
    ensures !r.Aborted? ==> forall g: nat :: PendingOn(in_.sb.dev.s, g) ==> PendingOn(old(in_.sb.dev.s), g) || g == f
    ensures !r.Aborted? ==> Inv(in_.sb.dev.s) && |in_.sb.dev.s.futures| >= |old(in_.sb.dev.s.futures)|
    ensures r != Failed(EFBIG)
    ensures r == Done ==> in_.sb.dev.writeLog == log + Requests(State(in_), start / 512, start / 512 + nr + 1)
  {
    hide SuperBlock.Vol, SuperBlock.Valid, Alternate.VDisk, Alternate.WriteRun, Alternate.WriteBlock, Requests;
    hide Followed, Alternate.Place, Alternate.Coherent, Fit, Flying, Beside, Range, PendingOn;
    TailNotTooBig(a, start, nr, buf, b);
    ghost var st := State(in_);
    r := WriteTailAsync(in_, f, start, nr, buf, b, a, out);
    if r == Done {
      RequestsMore(st, State(in_), start / 512, start / 512 + nr);
    }
  }

  lemma TailNotTooBig(a: Alternate.Alt, start: nat, nr: nat, buf: seq<byte>, b: Block)
    requires Fit(a, start) && 512 * nr <= |buf| && start / 512 + nr < NR_MAPPED
    requires Alternate.WriteRun(a, start / 512, nr, buf).1 == Done
    ensures Alternate.WriteBlock(Alternate.WriteRun(a, start / 512, nr, buf).0, start / 512 + nr, b).1 != Failed(EFBIG)
  {
    hide Alternate.VDisk, Alternate.WriteRun, Mapped, CsumOk, Alternate.Coherent, Alternate.BlockAt;
    FitBound(a, start);
    RunReady(a, start, nr, buf);
    var st, n, k := Alternate.WriteRun(a, start / 512, nr, buf).0, Max(BlocksFor(a.d.size), start / 512 + nr),
      start / 512 + nr;
    MappedBound(Alternate.VVol(st), st.d, n);
    Alternate.FrontWhole(Alternate.BlockAt(st, n, k), b);
    Alternate.WriteBlockIs(st, n, k, b);
  }

  /** Issues the write of one block, which may be any that no request in flight touches. */
  method IssueWrite(sb: SuperBlock, reactor: nat, f: nat, b: Block, p: int)
    requires sb.Valid() && reactor < 3 && f < |sb.dev.s.futures| && 0 <= p < DISK_BLOCKS && MayWrite(sb.dev.s, p, 1)
    modifies sb.dev
    ensures sb.Valid() && sb.Vol() == WithDisk(old(sb.Vol()), old(sb.Vol().disk)[p := b])
    ensures Inv(old(sb.dev.s)) && Issued(old(sb.dev.s), sb.dev.s, f, {p})
    ensures |sb.dev.s.futures| >= |old(sb.dev.s.futures)|
    ensures sb.dev.readLog == old(sb.dev.readLog) && sb.dev.writeLog == old(sb.dev.writeLog) + [Extent(p, 1)]
  {
    hide WritingOn, ReadingOn, PendingOn, Into, FinalBuf, Settled;
    ghost var s0 := sb.dev.s;
    sb.dev.WriteBlocksAsync(reactor, f, [b], p);
    WriteIsIssued(s0, sb.dev.s, f, p, b);
  }

  /** Reads one block with a future that is used over and over, and waits. */
  method ReadNow(sb: SuperBlock, reactor: nat, f: nat, p: int) returns (b: Block)
    requires sb.Valid() && reactor < 3 && f < |sb.dev.s.futures| && !PendingOn(sb.dev.s, f) && 0 <= p < DISK_BLOCKS
    requires MayRead(sb.dev.s, p, 1)
    modifies sb.dev
    ensures sb.Valid() && sb.Vol() == old(sb.Vol()) && b == sb.Vol().disk[p]
    ensures Inv(old(sb.dev.s)) && Quiet(old(sb.dev.s), sb.dev.s) && !PendingOn(sb.dev.s, f)
    ensures sb.dev.readLog == old(sb.dev.readLog) + [Extent(p, 1)] && sb.dev.writeLog == old(sb.dev.writeLog)
    ensures |sb.dev.s.futures| >= |old(sb.dev.s.futures)|
  {
    hide WritingOn, ReadingOn, PendingOn, Into, FinalBuf, Settled;
    ghost var s0 := sb.dev.s;
    var data := sb.dev.ReadAndWaitOn(reactor, f, p, 1);
    b := data[0];
    QuietSettled(s0, sb.dev.s);
  }

  /** `future_init` */
  method NewFuture(sb: SuperBlock) returns (f: nat)
    requires sb.Valid()
    modifies sb.dev
    ensures sb.Valid() && sb.Vol() == old(sb.Vol())
    ensures Inv(old(sb.dev.s)) && Quiet(old(sb.dev.s), sb.dev.s) && |sb.dev.s.futures| >= |old(sb.dev.s.futures)|
    ensures f < |sb.dev.s.futures| && !PendingOn(sb.dev.s, f) && f == |old(sb.dev.s.futures)|
    ensures sb.dev.readLog == old(sb.dev.readLog) && sb.dev.writeLog == old(sb.dev.writeLog)
  {
    hide PendingOn, Settled;
    ghost var s0 := sb.dev.s;
    f := sb.dev.FutureInit();
    QuietSettled(s0, sb.dev.s);
  }
}
