/** In-memory inodes: reading, writing and truncating file data block by block. */
module Inodes {
  import opened Bytes
  import opened Layout
  import opened Checksum
  import opened Volume
  import opened Bitmap
  import opened Super
  import opened Steps

  lemma RangeGrows(disk: Disk, d: DInode, m: nat, i: nat)
    requires m <= i
    ensures Range(disk, d, m, i + 1) == Range(disk, d, m, i) + {Lookup(disk, d, i)}
  {
  }

  lemma NotFreedYet(v: Vol, d: DInode, n: int, m: nat, i: nat, v1: Vol)
    requires Mapped(v, d, n) && m <= i < n && Released(v, Range(v.disk, d, m, i), v1)
    ensures IsUsed(v1, Lookup(v.disk, d, i))
  {
    InOwn(v.disk, d, n, i);
  }

  class Inode {
    const sb: SuperBlock
    const nr: nat
    var din: DInode
    var dirty: bool
    var indirectDirty: bool
    var indirectLoaded: bool
    var count: nat
    var indirect: seq<int32>

    constructor (sb: SuperBlock, nr: nat, din: DInode)
      ensures this.sb == sb && this.nr == nr && this.din == din && count == 1
      ensures !dirty && !indirectDirty && !indirectLoaded && indirect == seq(128, _ => 0)
    {
      this.sb := sb;
      this.nr := nr;
      this.din := din;
      this.dirty := false;
      this.indirectDirty := false;
      this.indirectLoaded := false;
      this.count := 1;
      this.indirect := seq(128, _ => 0);
    }

    ghost predicate Ready()
      reads this, sb, sb.dev, sb.inodeFreemap.v, sb.blockFreemap.v
    {
      sb.Valid() && sb.Idle() && |indirect| == 128
    }

    /** Writes the dinode, and the indirect block when it was changed in memory; only a dirty inode may be synced. */
    method Sync() returns (ok: bool)
      requires Ready() && nr < NR_INODES && (indirectDirty ==> IsData(din.indirect))
      modifies this`dirty, this`indirectDirty, sb.dev
      ensures Ready() && ok == old(dirty)
      ensures !ok ==> sb.Vol() == old(sb.Vol()) && unchanged(this)
      ensures ok ==> !dirty && !indirectDirty
      ensures ok ==>
        sb.Vol() == WithDisk(old(sb.Vol()), SyncedDisk(old(sb.Vol().disk), nr, din, old(indirectDirty), indirect))
    {
      hide EncodeDInode, OfInts;
      if !dirty {
        return false;
      }
      var b := sb.ReadBlock(INODE_START + nr / 16);
      sb.WriteBlock(EncodeDInode(b, nr, din), INODE_START + nr / 16);
      if indirectDirty {
        sb.WriteBlock(OfInts(indirect), din.indirect);
        indirectDirty := false;
      }
      dirty := false;
      ok := true;
    }

    /** Physical block of logical block `l` (0 when unmapped) and its contents. */
    method GetBlock(l: nat, ghost n: int) returns (phy: int, block: Block)
      requires Ready() && WfMap(sb.Vol().disk, din, n)
      modifies sb.dev
      ensures Ready() && sb.Vol() == old(sb.Vol())
      ensures l >= NR_MAPPED ==> phy == -EFBIG
      ensures l < NR_MAPPED ==> phy == Lookup(sb.Vol().disk, din, l) && (phy > 0 ==> block == sb.Vol().disk[phy])
    {
      block := ZERO_BLOCK;
      if l < 4 {
        phy := din.direct[l];
      } else if l - 4 >= 128 {
        return -EFBIG, block;
      } else if din.indirect == 0 {
        return 0, block;
      } else {
        block := sb.ReadBlock(din.indirect);
        phy := IntAt(block, l - 4);
      }
      assert phy == Lookup(sb.Vol().disk, din, l);
      if phy > 0 {
        block := sb.ReadBlock(phy);
      }
    }

    /** Maps logical block `l` if it is not mapped yet; `l` is at most one past the mapped ones. */
    method AllocateBlock(l: nat, ghost n: nat) returns (phy: int, block: Block)
      requires Ready() && Mapped(sb.Vol(), din, n) && l <= n
      modifies this`din, this`dirty, sb.dev, sb.blockFreemap.v
      ensures Ready()
      ensures l < n ==> phy == Lookup(sb.Vol().disk, din, l) && sb.Vol() == old(sb.Vol()) && din == old(din)
      ensures phy > 0 ==> IsData(phy)
      ensures l < n ==> phy > 0 && block == sb.Vol().disk[phy]
      ensures TableKept(old(sb.Vol().disk), sb.Vol().disk)
      ensures l == n == NR_MAPPED ==> phy == -EFBIG && sb.Vol() == old(sb.Vol()) && din == old(din)
      ensures l == n < NR_MAPPED && phy > 0 ==>
        GrownBy(old(sb.Vol()), old(din), n, sb.Vol(), din, phy) && block == ZERO_BLOCK
      ensures l == n < NR_MAPPED && phy > 0 ==> (HasSlot(phy) <==> Slots(old(sb.Vol())) >= NeedFor(old(din), n))
      ensures l == n < NR_MAPPED && phy <= 0 ==> phy == -ENOSPC && NotGrown(old(sb.Vol()), old(din), n, sb.Vol(), din)
    {
      hide IntAt, GrownBy, NotGrown;
      ghost var v0, d0 := sb.Vol(), din;
      phy, block := GetBlock(l, n);
      if phy != 0 {
        return;
      }
      if l < 4 {
        phy := AllocateDirect(l);
      } else {
        phy := AllocateIndirect(l);
      }
      block := ZERO_BLOCK;
    }

    /** The part of `AllocateBlock` that uses a direct slot. */
    method AllocateDirect(l: nat) returns (phy: int)
      requires Ready() && Mapped(sb.Vol(), din, l) && l < 4
      modifies this`din, this`dirty, sb.dev, sb.blockFreemap.v
      ensures Ready()
      ensures phy > 0 ==> GrownBy(old(sb.Vol()), old(din), l, sb.Vol(), din, phy) && IsData(phy)
      ensures TableKept(old(sb.Vol().disk), sb.Vol().disk)
      ensures phy > 0 ==> (HasSlot(phy) <==> Slots(old(sb.Vol())) >= NeedFor(old(din), l))
      ensures phy <= 0 ==> phy == -ENOSPC && NotGrown(old(sb.Vol()), old(din), l, sb.Vol(), din)
    {
      hide FreemapBlock, IntAt, Allocated, Grown, Mapped, Indirected, SuperBlock.Vol, SuperBlock.Valid;
      hide Zeros, Slots, FirstClear, LeastTaken;
      ghost var v0, d0 := sb.Vol(), din;
      AllSet(v0.used);
      var ok, p := sb.AllocBlock();
      if !ok {
        return -ENOSPC;
      }
      AllocatedFacts(v0, p - DATA_START);
      GrowDirect(v0, d0, l, p - DATA_START, sb.Vol());
      din := din.(direct := din.direct[l := p]);
      dirty := true;
      phy := p;
    }

    /** The part of `AllocateBlock` that goes through the indirect block. */
    method AllocateIndirect(l: nat) returns (phy: int)
      requires Ready() && Mapped(sb.Vol(), din, l) && 4 <= l < NR_MAPPED
      modifies this`din, this`dirty, sb.dev, sb.blockFreemap.v
      ensures Ready()
      ensures phy > 0 ==> GrownBy(old(sb.Vol()), old(din), l, sb.Vol(), din, phy) && IsData(phy)
      ensures TableKept(old(sb.Vol().disk), sb.Vol().disk)
      ensures phy > 0 ==> (HasSlot(phy) <==> Slots(old(sb.Vol())) >= NeedFor(old(din), l))
      ensures phy <= 0 ==> phy == -ENOSPC && NotGrown(old(sb.Vol()), old(din), l, sb.Vol(), din)
    {
      hide IntAt, SetInt, Allocated, Mapped, GrownBy, NotGrown, Zeros, FirstClear, SuperBlock.Vol, SuperBlock.Valid;
      hide LeastTaken;
      ghost var v0, d0 := sb.Vol(), din;
      var buffer := ZERO_BLOCK;
      IndirectIsData(v0, d0, l);
      if din.indirect == 0 {
        var ok, p := sb.AllocBlock();
        if !ok {
          NoRoom(v0, d0, l);
          return -ENOSPC;
        }
        din := din.(indirect := p);
        dirty := true;
      } else {
        buffer := sb.ReadBlock(din.indirect);
      }
      ghost var v1 := sb.Vol();
      var ok, p := sb.AllocBlock();
      phy := if ok then p else -ENOSPC;
      if ok {
        buffer := SetInt(buffer, l - 4, p);
      }
      sb.WriteBlock(buffer, din.indirect);
      if d0.indirect == 0 {
        FreshDone(v0, d0, l, sb.Vol(), ok);
      } else {
        ExistingDone(v0, d0, l, sb.Vol(), ok);
      }
    }

    /** One turn of the read loop: `want` bytes from `pos` on, as far as the block goes. */
    method ReadOneBlock(pos: nat, want: nat, ghost n: int) returns (r: Outcome, piece: seq<byte>)
      requires Ready() && WfInode(sb.Vol().disk, din) && n == BlocksFor(din.size) && pos + want <= din.size
      modifies sb.dev
      ensures Ready() && sb.Vol() == old(sb.Vol())
      ensures want > 0 ==> r == Done
      ensures r == Done ==> |piece| == Min(want, 512 - pos % 512)
      ensures r == Done ==> piece == Contents(sb.Vol().disk, din)[pos..pos + |piece|]
      ensures want == 0 ==> (r == Done <==> pos < 512 * n)
      ensures want == 0 && r != Done ==> r == if pos == NR_MAPPED * 512 then Failed(EFBIG) else Aborted(BlockMapped)
    {
      hide Lookup, Contents, WfMap, IntAt, SuperBlock.Vol, SuperBlock.Valid, IsData;
      var k := pos / 512;
      var phy, block := GetBlock(k, n);
      MappedLookup(sb.Vol().disk, din, n, k);
      piece := [];
      if phy < 0 {
        return Failed(-phy), piece;
      }
      if phy == 0 {
        return Aborted(BlockMapped), piece;
      }
      var offset := pos % 512;
      var copy := Min(want, 512 - offset);
      SliceOfBlock(sb.Vol().disk, din, n, pos, copy);
      piece := block[offset..offset + copy];
      r := Done;
    }

    /**
     * Copies `size` bytes from `start` on. Reading nothing succeeds only inside the mapped blocks:
     * the loop looks up its first block before it looks at the size.
     */
    method ReadData(start: nat, size: nat) returns (r: Outcome, buf: seq<byte>)
      requires Ready() && WfInode(sb.Vol().disk, din) && start + size <= din.size
      modifies sb.dev
      ensures Ready() && sb.Vol() == old(sb.Vol())
      ensures size > 0 ==> r == Done
      ensures r == Done ==> buf == Contents(sb.Vol().disk, din)[start..start + size]
      ensures size == 0 ==> (r == Done <==> start < 512 * BlocksFor(din.size))
      ensures size == 0 && r != Done ==> r == if start == NR_MAPPED * 512 then Failed(EFBIG) else Aborted(BlockMapped)
    {
      hide Lookup, Contents, WfMap, IntAt, SuperBlock.Vol, SuperBlock.Valid, IsData, BlocksFor;
      ghost var n, v := BlocksFor(din.size), sb.Vol();
      ghost var all := Contents(v.disk, din);
      var done := false;
      buf := [];
      while !done
        invariant Ready() && sb.Vol() == v && |buf| <= size
        invariant buf == all[start..start + |buf|]
        invariant !done ==> |buf| < size || size == 0
        invariant done ==> |buf| == size && (size > 0 || start < 512 * n)
        decreases !done, size - |buf|
      {
        var piece;
        r, piece := ReadOneBlock(start + |buf|, size - |buf|, n);
        if r != Done {
          return;
        }
        Join(all, start, |buf|, |piece|);
        buf := buf + piece;
        done := |buf| == size;
      }
      r := Done;
    }

    /** One turn of the write loop: bytes `src` go into logical block `k` at `offset`. */
    method WriteOneBlock(k: nat, offset: nat, src: seq<byte>, ghost n: nat) returns (r: Outcome)
      requires Ready() && Mapped(sb.Vol(), din, n) && CsumOk(sb.Vol(), din, n) && k <= n && offset + |src| <= 512
      modifies this`din, this`dirty, sb`csumTable, sb.dev, sb.blockFreemap.v
      ensures Ready()
      ensures CsumClean(old(sb.Vol().disk), old(sb.csumTable), sb.csumDirty) ==>
        CsumClean(sb.Vol().disk, sb.csumTable, sb.csumDirty)
      ensures r == Done ==> WroteOne(old(sb.Vol()), old(din), n, k, offset, src, sb.Vol(), din)
      ensures r.Failed? ==> k == n && r == Failed(if n == NR_MAPPED then EFBIG else ENOSPC)
      ensures r.Failed? && n == NR_MAPPED ==> sb.Vol() == old(sb.Vol()) && din == old(din)
      ensures r.Failed? && n < NR_MAPPED ==> NotGrown(old(sb.Vol()), old(din), n, sb.Vol(), din)
      ensures r.Aborted? ==>
        k == n < NR_MAPPED && r == Aborted(CsumSlot) && Zeros(old(sb.Vol().used)) >= NeedFor(old(din), n)
      ensures k == n && r == Done ==> Slots(old(sb.Vol())) >= NeedFor(old(din), n)
      ensures r.Aborted? ==> Slots(old(sb.Vol())) < NeedFor(old(din), n)
    {
      hide Zeros, Slots;
      hide WroteOne, NotGrown, OwnStep, Keeps, WfMap, AllUsed, Own, Csum, CsumClean, TableBlock;
      ghost var v0, d0 := sb.Vol(), din;
      MappedBound(v0, d0, n);
      var phy, block := AllocateBlock(k, n);
      CsumCleanKept(v0.disk, sb.Vol().disk, sb.csumTable, sb.csumDirty);
      if phy < 0 {
        return Failed(-phy);
      }
      ghost var v1 := sb.Vol();
      assert k < n ==> CsumAt(v0, d0, k);
      var filled: Block := block[..offset] + src + block[offset + |src|..];
      var csum := CalculateCsum(filled);
      sb.WriteBlock(filled, phy);
      CsumCleanKept(v1.disk, sb.Vol().disk, sb.csumTable, sb.csumDirty);
      if k == n {
        GrownRoom(v0, d0, n, v1, din, phy);
      }
      if phy - DATA_START >= MAX_NR_CSUMS {
        return Aborted(CsumSlot);
      }
      sb.PutCsum(phy, csum);
      WroteOneBlock(v0, d0, n, k, offset, src, v1, din, block, filled, phy, sb.Vol());
      r := Done;
    }

    /**
     * Copies `buf` into the file from `start` on, block by block, mapping blocks as it goes. When a
     * block cannot be had, the file is cut back to its old size.
     */
    method WriteData(start: nat, buf: seq<byte>) returns (r: Outcome)
      requires Ready() && Sound(sb.Vol(), din) && CsumClean(sb.Vol().disk, sb.csumTable, sb.csumDirty)
      modifies this`din, this`dirty, sb`csumTable, sb.dev, sb.blockFreemap.v
      ensures Ready()
      ensures r == Aborted(WithinSize) <==> start > old(din.size)
      ensures r == Done ==> dirty && Wrote(old(sb.Vol()), old(din), start, buf, sb.Vol(), din)
      ensures r.Failed? ==> dirty && RolledBack(old(sb.Vol()), old(din), start, buf, sb.Vol(), din)
      ensures start <= old(din.size) ==>
        r == WriteOutcome(old(din.size), old(din.indirect) != 0, LastBlock(start, |buf|), RoomOf(old(sb.Vol())))
      ensures !r.Aborted? ==> CsumClean(sb.Vol().disk, sb.csumTable, sb.csumDirty)
    {
      hide Lookup, RawByte, OwnStep, Own, Mapped, CsumOk, Zeros, CsumClean, NotGrown, Underway, WroteOne, Stopped;
      hide WriteOutcome, Wrote, RolledBack, Cost, LastBlock, Slots, CsumAt, WfMap, Sound, RoomOf, SuperBlock.Vol;
      if start > din.size {
        return Aborted(WithinSize);
      }
      ghost var v0, d0, n0 := sb.Vol(), din, BlocksFor(din.size);
      ghost var n := n0;
      var offset, at, done := start % 512, 0, false;
      WriteStarts(v0, d0, start, buf);
      while !done
        invariant Ready() && CsumClean(sb.Vol().disk, sb.csumTable, sb.csumDirty)
        invariant 0 <= at <= |buf| && n0 <= n && v0 == old(sb.Vol()) && d0 == old(din)
        invariant Underway(v0, d0, n0, start, buf[..at], sb.Vol(), din, n)
        invariant Slots(v0) >= Cost(d0.indirect != 0, n0, n)
        invariant !done ==> offset == (start + at) % 512 && (at == 0 || offset == 0) && (at < |buf| || |buf| == 0)
        invariant !done ==> n == Max(n0, if at == 0 then 0 else (start + at) / 512)
        invariant done ==> at == |buf| && n == Max(n0, LastBlock(start, |buf|) + 1) && n <= NR_MAPPED
        decreases !done, |buf| - at
      {
        var k := (start + at) / 512;
        var copy := 512 - offset;
        var last := |buf| - at <= 512 - offset;
        if last {
          copy := |buf| - at;
        }
        ghost var v1, d1 := sb.Vol(), din;
        WritingSound(v0, d0, n0, start, buf[..at], v1, d1, n);
        LastIs(start, |buf|, at);
        var got := WriteOneBlock(k, offset, buf[at..at + copy], n);
        if got.Aborted? {
          WriteLacksSlots(v0, d0, start, buf, at, v1, d1, n);
          return got;
        }
        if got.Failed? {
          WriteStops(v0, d0, start, buf, at, v1, d1, n, sb.Vol(), din, got.errno);
          r := UndoWrite(start + at, got.errno, v0, d0, start, buf, at, n);
          return;
        }
        done := last;
        SlotsLast(v0, d0, n0, start, buf[..at], v1, d1, n, k);
        WriteGoesOn(v0, d0, n0, start, buf[..at], v1, d1, n, k, offset, buf[at..at + copy], sb.Vol(), din);
        assert buf[..at] + buf[at..at + copy] == buf[..at + copy];
        n := Max(n, k + 1);
        WritingSound(v0, d0, n0, start, buf[..at + copy], sb.Vol(), din, n);
        at := at + copy;
        offset := 0;
      }
      WritingSound(v0, d0, n0, start, buf[..|buf|], sb.Vol(), din, n);
      WriteEnds(v0, d0, start, buf, sb.Vol(), din, n);
      WriteFits(v0, d0, start, |buf|);
      din := din.(size := Max(din.size, start + |buf|));
      dirty := true;
      r := Done;
    }

    /** The error branch of the write loop: cut the file back to the size it had. */
    method UndoWrite(reached: nat, errno: int, ghost v0: Vol, ghost d0: DInode, ghost start: nat, ghost buf: seq<byte>,
                     ghost at: nat, ghost n: nat) returns (r: Outcome)
      requires Ready() && Sound(v0, d0) && start <= d0.size && at <= |buf| && reached == start + at
      requires Stopped(v0, d0, start, buf, at, sb.Vol(), din, n, errno)
      requires CsumClean(sb.Vol().disk, sb.csumTable, sb.csumDirty)
      modifies this`din, this`dirty, sb.dev, sb.blockFreemap.v
      ensures Ready()
      ensures r == WriteOutcome(d0.size, d0.indirect != 0, LastBlock(start, |buf|), RoomOf(v0)) && !r.Done?
      ensures r.Failed? ==> dirty && RolledBack(v0, d0, start, buf, sb.Vol(), din)
      ensures r.Failed? ==> CsumClean(sb.Vol().disk, sb.csumTable, sb.csumDirty)
      ensures r.Failed? ==> Cleared(old(sb.Vol()), sb.Vol()) && Cleared(v0, sb.Vol())
      ensures r.Aborted? ==> r == Aborted(NoIndirect)
    {
      hide Lookup, RawByte, OwnStep, Own, WfMap, AllUsed, CsumOk, Zeros, BytesWritten, CsumClean, WriteOutcome;
      hide RolledBack, Truncated, Cleared;
      var size := din.size;
      ghost var v2, d2 := sb.Vol(), din;
      assert n == BlocksFor(Max(size, reached));
      din := din.(size := Max(size, reached));
      dirty := true;
      SizedMap(v2, d2, n, din.size);
      r := Truncate(size);
      if reached > size && r == Done {
        SizeDoesNotMatter(v2, d2, size, n, BlocksFor(size), sb.Vol(), din);
      }
      WriteUndone(v0, d0, start, buf, at, v2, d2, n, sb.Vol(), din, r, errno);
      if r == Done {
        RolledBackClears(v0, d0, start, buf, sb.Vol(), din);
        CsumCleanKept(v2.disk, sb.Vol().disk, sb.csumTable, sb.csumDirty);
        r := Failed(errno);
      }
    }

    /** Frees one block of the file during truncation. */
    method FreeMapped(p: int, ghost v0: Vol, ghost d0: DInode, ghost n: int, ghost m: nat, ghost i: nat)
      requires Ready() && Mapped(v0, d0, n) && m <= i < n && p == Lookup(v0.disk, d0, i)
      requires Released(v0, Range(v0.disk, d0, m, i), sb.Vol())
      modifies sb.dev, sb.blockFreemap.v
      ensures Ready() && Released(v0, Range(v0.disk, d0, m, i + 1), sb.Vol())
      ensures Zeros(sb.Vol().used) == Zeros(old(sb.Vol().used)) + 1
    {
      hide Lookup, Freed, Mapped, Released, Range, SuperBlock.Vol, SuperBlock.Valid, ZeroedAndFreed;
      NotFreedYet(v0, d0, n, m, i, sb.Vol());
      ReleaseOne(v0, Range(v0.disk, d0, m, i), sb.Vol(), p - DATA_START);
      RangeGrows(v0.disk, d0, m, i);
      sb.FreeBlock(p);
    }

    /** The part of `Truncate` that goes through the indirect block. */
    method TruncateIndirect(s: nat, e: nat, ghost v0: Vol, ghost d0: DInode, ghost n: nat, ghost m: nat)
      requires Ready() && Mapped(v0, d0, n) && n > 4 && m <= n && s == Max(m - 4, 0) && e == n - 4
      requires Released(v0, Range(v0.disk, d0, m, 4 + s), sb.Vol()) && din == d0.(direct := din.direct)
      requires forall l: nat :: l < 4 ==> din.direct[l] == if m <= l then 0 else d0.direct[l]
      requires Zeros(sb.Vol().used) == Zeros(v0.used) + 4 + s - m
      modifies this`din, sb.dev, sb.blockFreemap.v
      ensures Ready() && Truncated(v0, d0, n, m, sb.Vol(), din) && din == old(din).(indirect := din.indirect)
    {
      hide Lookup, Freed, WfMap, Released, IntAt, SetInt, Own, Range, Zeros, Truncated, SuperBlock.Vol;
      hide SuperBlock.Valid, ZeroedAndFreed;
      IndirectBlock(v0, d0, n, m, 4 + s, sb.Vol());
      var block := sb.ReadBlock(din.indirect);
      var i := s;
      while i < e && i < 128
        invariant s <= i <= e && Ready() && Released(v0, Range(v0.disk, d0, m, 4 + i), sb.Vol())
        invariant forall l: nat :: l < 128 ==>
          IntAt(block, l) == if s <= l < i then 0 else IntAt(v0.disk[d0.indirect], l)
        invariant Zeros(sb.Vol().used) == Zeros(v0.used) + 4 + i - m
        invariant din == old(din)
      {
        IndirectLookup(v0.disk, d0, i);
        FreeMapped(IntAt(block, i), v0, d0, n, m, 4 + i);
        ghost var was := block;
        block := SetInt(block, i, 0);
        forall l: nat | l < 128 ensures IntAt(block, l) == if l == i then 0 else IntAt(was, l) {
          IntAtSetInt(was, i, 0, l);
        }
        i := i + 1;
      }
      if s == 0 {
        IndirectStillUsed(v0, d0, n, m, sb.Vol());
        ReleaseOne(v0, Range(v0.disk, d0, m, n), sb.Vol(), din.indirect - DATA_START);
        sb.FreeBlock(din.indirect);
        din := din.(indirect := 0);
        CutAll(v0, d0, n, m, sb.Vol(), din);
      } else {
        ghost var v1 := sb.Vol();
        sb.WriteBlock(block, din.indirect);
        CutTail(v0, d0, n, m, v1, block, sb.Vol(), din);
      }
    }

    /** Cuts the file to `size` bytes when it is longer, and gives back the blocks that are not needed any more. */
    method Truncate(size: nat) returns (r: Outcome)
      requires Ready()
      requires din.size > size ==>
        WfInode(sb.Vol().disk, din) && AllUsed(sb.Vol(), Own(sb.Vol().disk, din, BlocksFor(din.size)))
      modifies this`din, this`dirty, sb.dev, sb.blockFreemap.v
      ensures Ready()
      ensures old(din.size) <= size ==> r == Done && sb.Vol() == old(sb.Vol()) && din == old(din) && dirty == old(dirty)
      ensures old(din.size) > size ==> dirty && r == if old(Dangling(din)) then Aborted(NoIndirect) else Done
      ensures old(din.size) > size && r == Done ==>
        Truncated(old(sb.Vol()), old(din), BlocksFor(old(din.size)), BlocksFor(size), sb.Vol(), din)
        && din == old(din).(direct := din.direct, indirect := din.indirect, size := size)
      ensures r == Done ==> Cleared(old(sb.Vol()), sb.Vol())
    {
      hide Lookup, Freed, WfMap, Released, IntAt, SetInt, Own, Range, Zeros, Truncated, SuperBlock.Vol;
      hide SuperBlock.Valid, Cleared;
      if din.size <= size {
        ClearedSame(sb.Vol(), sb.Vol());
        return Done;
      }
      ghost var v0, d0, n, m := sb.Vol(), din, BlocksFor(din.size), BlocksFor(size);
      var s, e := BlocksFor(size), BlocksFor(din.size);
      ReleasedNothing(v0, d0, m);
      var i := s;
      while i < e && i < 4
        invariant m <= i && (i <= 4 || i == m) && i <= n && Ready() && Released(v0, Range(v0.disk, d0, m, i), sb.Vol())
        invariant forall l: nat :: l < 4 ==> din.direct[l] == if m <= l < i then 0 else d0.direct[l]
        invariant din == d0.(direct := din.direct)
        invariant Zeros(sb.Vol().used) == Zeros(v0.used) + i - m
      {
        DirectLookup(v0.disk, d0, i);
        FreeMapped(din.direct[i], v0, d0, n, m, i);
        din := din.(direct := din.direct[i := 0]);
        dirty := true;
        i := i + 1;
      }
      s := Max(s - 4, 0);
      e := e - 4;
      if e > 0 {
        TruncateIndirect(s, e, v0, d0, n, m);
      } else if din.indirect != 0 {
        dirty := true;
        return Aborted(NoIndirect);
      } else {
        CutShort(v0, d0, n, m, sb.Vol(), din);
      }
      TruncatedClears(v0, d0, n, m, sb.Vol(), din);
      SizeDoesNotMap(v0, d0, n, m, sb.Vol(), din, size);
      din := din.(size := size);
      dirty := true;
      r := Done;
    }

    /**
     * Marks the blocks of the file in `map` and verifies their checksums. Returns the bytes its blocks
     * hold and the blocks for which a checksum error is printed.
     */
    method CheckInode(map_: Bitmap, ghost n: nat) returns (size: int, bad: seq<int>)
      requires Ready() && WfMap(sb.Vol().disk, din, n)
      requires forall l: nat :: l < n ==> Lookup(sb.Vol().disk, din, l) < DATA_START + MAX_NR_CSUMS
      requires map_.Valid() && map_.nbits == NR_BLOCK_BITS && map_.v != sb.blockFreemap.v && map_.v != sb.inodeFreemap.v
      requires Unmarked(map_.Bits(), Own(sb.Vol().disk, din, n))
      modifies sb.dev, map_.v
      ensures Ready() && sb.Vol() == old(sb.Vol()) && map_.Valid()
      ensures size == n * 512 && Marked(old(map_.Bits()), Own(sb.Vol().disk, din, n), map_.Bits())
      ensures Reports(sb.Vol(), din, n, bad)
    {
      hide IntAt, SuperBlock.Vol, SuperBlock.Valid, Lookup, Csum, Own, Reports;
      ghost var v := sb.Vol();
      NothingReported(v, din);
      ghost var bits := map_.Bits();
      size, bad := 0, [];
      var i := 0;
      while i < 4
        invariant 0 <= i <= 4 && i <= n && Ready() && sb.Vol() == v && map_.Valid()
        invariant size == i * 512 && Marked(bits, Range(v.disk, din, 0, i), map_.Bits())
        invariant Reports(v, din, i, bad)
      {
        var p := din.direct[i];
        DirectLookup(v.disk, din, i);
        if p == 0 {
          CheckedAll(v, din, n, i, bits, map_.Bits(), true);
          return;
        }
        size := size + 512;
        MappedLookup(v.disk, din, n, i);
        NotMarked(v, din, n, i, bits);
        bad := CheckBlock(map_, p, bad, v, n, i, bits);
        i := i + 1;
      }
      if din.indirect == 0 {
        CheckedAll(v, din, n, i, bits, map_.Bits(), true);
        return;
      }
      size, bad := CheckIndirect(map_, size, bad, n, bits);
    }

    /** The part of `CheckInode` that goes through the indirect block. */
    method CheckIndirect(map_: Bitmap, size: int, bad: seq<int>, ghost n: nat, ghost bits: seq<bool>)
    returns (size': int, bad': seq<int>)
      requires Ready() && WfMap(sb.Vol().disk, din, n) && din.indirect != 0
      requires forall l: nat :: l < n ==> Lookup(sb.Vol().disk, din, l) < DATA_START + MAX_NR_CSUMS
      requires map_.Valid() && map_.nbits == NR_BLOCK_BITS && map_.v != sb.blockFreemap.v && map_.v != sb.inodeFreemap.v
      requires |bits| == NR_BLOCK_BITS && Unmarked(bits, Own(sb.Vol().disk, din, n))
      requires size == 4 * 512
      requires Marked(bits, Range(sb.Vol().disk, din, 0, 4), map_.Bits()) && Reports(sb.Vol(), din, 4, bad)
      modifies sb.dev, map_.v
      ensures Ready() && sb.Vol() == old(sb.Vol()) && map_.Valid()
      ensures size' == n * 512 && Marked(bits, Own(sb.Vol().disk, din, n), map_.Bits())
      ensures Reports(sb.Vol(), din, n, bad')
    {
      hide IntAt, SuperBlock.Vol, SuperBlock.Valid, Lookup, Csum, Own, Reports;
      ghost var v := sb.Vol();
      NotInRange(v.disk, din, n, 4);
      MarkedBut(v, din, n, bits, map_.Bits());
      map_.Mark(din.indirect - DATA_START);
      var block := sb.ReadBlock(din.indirect);
      var i := 0;
      size', bad' := size, bad;
      ghost var bits1 := bits[din.indirect - DATA_START := true];
      while i < 128
        invariant 0 <= i <= 128 && 4 + i <= n && Ready() && sb.Vol() == v && map_.Valid()
        invariant size' == (4 + i) * 512 && Marked(bits1, Range(v.disk, din, 0, 4 + i), map_.Bits())
        invariant Reports(v, din, 4 + i, bad')
      {
        IndirectLookup(v.disk, din, i);
        MappedLookup(v.disk, din, n, 4 + i);
        var p := IntAt(block, i);
        if p == 0 {
          CheckedAll(v, din, n, 4 + i, bits, map_.Bits(), false);
          return;
        }
        NotMarked(v, din, n, 4 + i, bits);
        bad' := CheckBlock(map_, p, bad', v, n, 4 + i, bits1);
        size' := size' + 512;
        i := i + 1;
      }
      CheckedAll(v, din, n, NR_MAPPED, bits, map_.Bits(), false);
    }

    /** Checks and marks one mapped block. */
    method CheckBlock(map_: Bitmap, p: int, bad: seq<int>, ghost v: Vol, ghost n: nat, ghost l: nat,
        ghost bits: seq<bool>)
    returns (bad': seq<int>)
      requires Ready() && sb.Vol() == v && WfMap(v.disk, din, n) && l < n
      requires p == Lookup(v.disk, din, l) < DATA_START + MAX_NR_CSUMS
      requires map_.Valid() && map_.nbits == NR_BLOCK_BITS && map_.v != sb.blockFreemap.v && map_.v != sb.inodeFreemap.v
      requires |bits| == NR_BLOCK_BITS && !bits[p - DATA_START] && Marked(bits, Range(v.disk, din, 0, l), map_.Bits())
      requires Reports(v, din, l, bad)
      modifies sb.dev, map_.v
      ensures Ready() && sb.Vol() == v && map_.Valid() && Marked(bits, Range(v.disk, din, 0, l + 1), map_.Bits())
      ensures Reports(v, din, l + 1, bad')
    {
      hide Lookup, Csum, Own, Reports;
      var ok := sb.VerifyCsum(p);
      bad' := if ok then bad else bad + [p];
      assert CsumAt(v, din, l) <==> ok;
      NextReported(v, din, l, bad, bad');
      RangeGrows(v.disk, din, 0, l);
      assert p !in Range(v.disk, din, 0, l);
      map_.Mark(p - DATA_START);
    }
  }

  /** The inode is well formed, all that it holds is allocated, and its checksums are right. */
  ghost predicate Sound(v: Vol, d: DInode) {
    d.size >= 0 && Mapped(v, d, BlocksFor(d.size)) && CsumOk(v, d, BlocksFor(d.size))
  }

  /** Last logical block that writing `size` bytes at `start` touches; writing nothing touches one too. */
  function LastBlock(start: nat, size: nat): nat {
    (start + Max(size, 1) - 1) / 512
  }

  /** The block that is being mapped as block `n` has no slot in the checksum table. */
  lemma WriteLacksSlots(v0: Vol, d0: DInode, start: nat, buf: seq<byte>, at: nat, v1: Vol, d1: DInode, n: nat)
    requires Sound(v0, d0) && at <= |buf| && Underway(v0, d0, BlocksFor(d0.size), start, buf[..at], v1, d1, n)
    requires Slots(v0) >= Cost(d0.indirect != 0, BlocksFor(d0.size), n)
    requires BlocksFor(d0.size) <= n <= LastBlock(start, |buf|)
    requires n < NR_MAPPED && Slots(v1) < NeedFor(d1, n) <= Zeros(v1.used)
    ensures WriteOutcome(d0.size, d0.indirect != 0, LastBlock(start, |buf|), RoomOf(v0)) == Aborted(CsumSlot)
  {
    hide Mapped, CsumOk, OwnStep, BytesWritten, Zeros, Slots, LastBlock;
    SoundBound(v0, d0);
  }

  lemma SoundBound(v: Vol, d: DInode)
    requires Sound(v, d)
    ensures 0 <= d.size && BlocksFor(d.size) <= NR_MAPPED && (BlocksFor(d.size) > 4 ==> d.indirect != 0)
  {
  }

  /** All blocks taken so far had slots, and so has the next one. */
  lemma SlotsLast(v0: Vol, d0: DInode, n0: nat, start: nat, w: seq<byte>, v: Vol, d: DInode, n: nat, k: nat)
    requires Underway(v0, d0, n0, start, w, v, d, n) && n0 <= n && k <= n && Slots(v0) >= Cost(d0.indirect != 0, n0, n)
    requires k == n ==> Slots(v) >= NeedFor(d, n)
    ensures Slots(v0) >= Cost(d0.indirect != 0, n0, Max(n, k + 1))
  {
    hide Mapped, CsumOk, OwnStep, BytesWritten, Zeros, Slots;
  }

  /** Free blocks taken when the mapping grows from `n` to `n'` blocks. */
  function Cost(indirect: bool, n: nat, n': nat): int {
    n' - n + if n' > 4 && !indirect then 1 else 0
  }

  /** How many blocks are mapped when growing from `n` first needs more than `free` blocks. */
  function FailsAt(n: nat, indirect: bool, free: nat): nat {
    if indirect || n + free <= 4 then n + free else n + free - 1
  }

  /**
   * How a write ends, told from what its caller could check before: the size of the file, whether it has
   * an indirect block, the last block of the write, and how many blocks are free, with and without a slot in
   * the checksum table. It stops at the first block that has no slot, unless that could not be had anyway.
   */
  function WriteOutcome(size: nat, indirect: bool, last: nat, room: Room): Outcome {
    var n := BlocksFor(size);
    var m, k := Max(n, Min(last + 1, NR_MAPPED)), FailsAt(n, indirect, room.slots);
    if k < m && Cost(indirect, n, k + 1) <= room.free then Aborted(CsumSlot)
    else if room.free >= Cost(indirect, n, m) then
      if last >= NR_MAPPED then Failed(EFBIG) else Done
    else
      StopOutcome(size, FailsAt(n, indirect, room.free), indirect || n + room.free == 5, ENOSPC)
  }

  /** When a file grows from `n` blocks its block `l` is one of the free blocks that have no slot. */
  predicate NoSlotAt(n: nat, indirect: bool, l: nat, room: Room) {
    room.slots < Cost(indirect, n, l + 1) <= room.free
  }

  /** A write meets a block without a slot when one of its new blocks is behind those that have one and still free. */
  lemma LacksSlotWhen(size: nat, indirect: bool, last: nat, room: Room)
    requires BlocksFor(size) <= NR_MAPPED && (BlocksFor(size) > NR_DIRECT ==> indirect)
    ensures WriteOutcome(size, indirect, last, room) == Aborted(CsumSlot)
      <==> exists l: nat ::
        BlocksFor(size) <= l < Min(last + 1, NR_MAPPED) && NoSlotAt(BlocksFor(size), indirect, l, room)
  {
    var n, k := BlocksFor(size), FailsAt(BlocksFor(size), indirect, room.slots);
    if WriteOutcome(size, indirect, last, room) == Aborted(CsumSlot) {
      assert n <= k < Min(last + 1, NR_MAPPED) && NoSlotAt(n, indirect, k, room);
    }
  }

  /** How undoing a write ends that stopped with `n` blocks mapped. */
  function StopOutcome(size: nat, n: nat, indirect: bool, errno: int): Outcome {
    if size < 512 * n && n <= 4 && indirect then Aborted(NoIndirect) else Failed(errno)
  }

  /** A write under way: `written` has been copied and `n` blocks are mapped. */
  ghost predicate Underway(v0: Vol, d0: DInode, n0: int, start: nat, written: seq<byte>, v: Vol, d: DInode, n: int) {
    && Mapped(v, d, n) && CsumOk(v, d, n)
    && OwnStep(v0, Own(v0.disk, d0, n0), v, Own(v.disk, d, n))
    && (forall l: nat :: l < n0 ==> Lookup(v.disk, d, l) == Lookup(v0.disk, d0, l))
    && BytesWritten(v0.disk, d0, n0, start, written, v.disk, d, n)
    && n0 >= 0 && n >= 0 && Took(v0, v, Cost(d0.indirect != 0, n0, n))
    && (d.indirect != 0 <==> d0.indirect != 0 || n > 4)
    && (d0.indirect != 0 ==> d.indirect == d0.indirect)
    && d == d0.(direct := d.direct, indirect := d.indirect)
  }

  /** A finished write. */
  ghost predicate Wrote(v: Vol, d: DInode, start: nat, buf: seq<byte>, v': Vol, d': DInode)
    requires d.size >= start
  {
    var n, n' := BlocksFor(d.size), Max(BlocksFor(d.size), LastBlock(start, |buf|) + 1);
    && Mapped(v', d', n') && CsumOk(v', d', n')
    && OwnStep(v, Own(v.disk, d, n), v', Own(v'.disk, d', n'))
    && d' == d.(direct := d'.direct, indirect := d'.indirect, size := d'.size)
    && d'.size == Max(d.size, start + |buf|)
    && Contents(v'.disk, d') == Overlay(Contents(v.disk, d), start, buf)
    && Took(v, v', Cost(d.indirect != 0, n, n'))
    && (d'.indirect != 0 <==> d.indirect != 0 || n' > 4)
  }

  /**
   * A write that was undone: the old size and mapping are back and the bytes before `start` are as they
   * were. The indirect block differs only when the write got the last free block for a new one at a full
   * direct mapping, or when it dropped one that had been left behind like that.
   */
  ghost predicate RolledBack(v: Vol, d: DInode, start: nat, buf: seq<byte>, v': Vol, d': DInode)
    requires d.size >= start
  {
    var n := BlocksFor(d.size);
    && Sound(v', d') && d' == d.(indirect := d'.indirect)
    && OwnStep(v, Own(v.disk, d, n), v', Own(v'.disk, d', n))
    && (forall l: nat :: l < n ==> Lookup(v'.disk, d', l) == Lookup(v.disk, d, l))
    && d.size - start <= |buf|
    && Contents(v'.disk, d') == Contents(v.disk, d)[..start] + buf[..d.size - start]
    && (d'.indirect == d.indirect ==> v'.used == v.used)
    && (d'.indirect != d.indirect ==>
          if d.indirect != 0 then Dangling(d) && d'.indirect == 0
          else d.size == 2048 && Zeros(v.used) == 1)
    && (d.indirect == 0 && d.size == 2048 && Zeros(v.used) == 1 ==> d'.indirect != 0)
  }

  lemma RolledBackClears(v: Vol, d: DInode, start: nat, buf: seq<byte>, v': Vol, d': DInode)
    requires d.size >= start && RolledBack(v, d, start, buf, v', d')
    ensures Cleared(v, v')
  {
    hide Own, Cleared, Sound, Contents;
  }

  lemma WriteStarts(v: Vol, d: DInode, start: nat, buf: seq<byte>)
    requires Sound(v, d) && start <= d.size
    ensures Underway(v, d, BlocksFor(d.size), start, buf[..0], v, d, BlocksFor(d.size))
    ensures BlocksFor(d.size) <= NR_MAPPED && Cost(d.indirect != 0, BlocksFor(d.size), BlocksFor(d.size)) == 0
  {
    hide RawByte, Own;
    OwnStepHere(v, Own(v.disk, d, BlocksFor(d.size)));
  }

  lemma WritingSound(v0: Vol, d0: DInode, n0: int, start: nat, w: seq<byte>, v: Vol, d: DInode, n: int)
    requires Underway(v0, d0, n0, start, w, v, d, n)
    ensures Mapped(v, d, n) && CsumOk(v, d, n) && n <= NR_MAPPED && d.size == d0.size
  {
    hide Own, OwnStep, BytesWritten, Zeros, Lookup;
  }

  lemma LastIs(start: nat, len: nat, at: nat)
    requires at < len || len == at == 0
    ensures var k := (start + at) / 512;
            && k <= LastBlock(start, len)
            && (len - at <= 512 - (start + at) % 512 ==> k == LastBlock(start, len))
  {
  }

  lemma BytesWrittenTwice(a: Disk, d: DInode, n: int, at: nat, s: seq<byte>, b: Disk, e: DInode, n1: int,
                          t: seq<byte>, c: Disk, f: DInode, n2: int)
    requires BytesWritten(a, d, n, at, s, b, e, n1) && BytesWritten(b, e, n1, at + |s|, t, c, f, n2)
    requires n <= n1 <= n2 && (s == [] || at + |s| <= n1 * 512)
    ensures BytesWritten(a, d, n, at, s + t, c, f, n2)
  {
    hide RawByte;
    forall pos: nat | pos < n2 * 512
      ensures RawByte(c, f, pos) == if at <= pos < at + |s + t| then (s + t)[pos - at] else OldByte(a, d, n, pos)
    {
      var old1 := OldByte(b, e, n1, pos);
      assert RawByte(c, f, pos) == if at + |s| <= pos < at + |s| + |t| then t[pos - (at + |s|)] else old1;
    }
  }

  lemma WriteGoesOn(v0: Vol, d0: DInode, n0: int, start: nat, w: seq<byte>, v1: Vol, d1: DInode, n: nat,
                    k: nat, offset: nat, src: seq<byte>, v2: Vol, d2: DInode)
    requires Underway(v0, d0, n0, start, w, v1, d1, n) && 0 <= n0 <= n && k <= n
    requires k * 512 + offset == start + |w| && (w == [] || start + |w| <= n * 512)
    requires WroteOne(v1, d1, n, k, offset, src, v2, d2)
    ensures Underway(v0, d0, n0, start, w + src, v2, d2, Max(n, k + 1))
  {
    hide RawByte, Lookup, Own, OwnStep, BytesWritten, CsumOk, AllUsed, Zeros;
    var n' := Max(n, k + 1);
    OwnStepTrans(v0, Own(v0.disk, d0, n0), v1, Own(v1.disk, d1, n), v2, Own(v2.disk, d2, n'));
    BytesWrittenTwice(v0.disk, d0, n0, start, w, v1.disk, d1, n, src, v2.disk, d2, n');
  }

  lemma WriteEnds(v0: Vol, d0: DInode, start: nat, buf: seq<byte>, v: Vol, d: DInode, n: nat)
    requires Sound(v0, d0) && start <= d0.size && n == Max(BlocksFor(d0.size), LastBlock(start, |buf|) + 1)
    requires n <= NR_MAPPED
    requires Underway(v0, d0, BlocksFor(d0.size), start, buf[..|buf|], v, d, n)
    ensures Max(d0.size, start + |buf|) <= n * 512
    ensures Wrote(v0, d0, start, buf, v, d.(size := Max(d0.size, start + |buf|)))
    ensures Zeros(v0.used) >= Cost(d0.indirect != 0, BlocksFor(d0.size), n)
  {
    hide IntAt, Own, OwnStep, Zeros, Slots, Csum;
    assert buf[..|buf|] == buf;
    var size := Max(d0.size, start + |buf|);
    var d' := d.(size := size);
    SizedMap(v, d, n, size);
    WroteContents(v0.disk, d0, start, buf, v.disk, d, n, size);
  }

  /** With slots for all the blocks it takes a write succeeds. */
  lemma WriteFits(v: Vol, d: DInode, start: nat, len: nat)
    requires Sound(v, d) && LastBlock(start, len) < NR_MAPPED
    requires var m := Max(BlocksFor(d.size), LastBlock(start, len) + 1);
             Zeros(v.used) >= Cost(d.indirect != 0, BlocksFor(d.size), m)
               && Slots(v) >= Cost(d.indirect != 0, BlocksFor(d.size), m)
    ensures WriteOutcome(d.size, d.indirect != 0, LastBlock(start, len), RoomOf(v)) == Done
  {
    hide Mapped, CsumOk, Zeros, Slots, LastBlock;
    SoundBound(v, d);
  }

  lemma WroteContents(a: Disk, d0: DInode, start: nat, buf: seq<byte>, b: Disk, d: DInode, n: nat, size: int32)
    requires d0.size >= 0 && start <= d0.size && size == Max(d0.size, start + |buf|) && size <= n * 512
    requires BytesWritten(a, d0, BlocksFor(d0.size), start, buf, b, d, n)
    ensures Contents(b, d.(size := size)) == Overlay(Contents(a, d0), start, buf)
  {
    hide Lookup;
    var d' := d.(size := size);
    var x, y := Contents(b, d'), Overlay(Contents(a, d0), start, buf);
    forall pos: nat | pos < size ensures x[pos] == y[pos] {
      assert RawByte(b, d', pos) == RawByte(b, d, pos) by {
        SizedLookup(b, d, size);
      }
    }
  }

  /** A write that could not go on: `n` blocks are mapped, all that was written lies inside them. */
  ghost predicate Stopped(v0: Vol, d0: DInode, start: nat, buf: seq<byte>, at: nat, v: Vol, d: DInode, n: nat,
      errno: int)
    requires d0.size >= start && at <= |buf|
  {
    var n0 := BlocksFor(d0.size);
    && Mapped(v, d, n) && CsumOk(v, d, n)
    && OwnStep(v0, Own(v0.disk, d0, n0), v, Own(v.disk, d, n))
    && (forall l: nat :: l < n0 ==> Lookup(v.disk, d, l) == Lookup(v0.disk, d0, l))
    && BytesWritten(v0.disk, d0, n0, start, buf[..at], v.disk, d, n)
    && n * 512 == start + at && n0 <= n <= NR_MAPPED
    && d == d0.(direct := d.direct, indirect := d.indirect)
    && (d0.indirect != 0 ==> d.indirect == d0.indirect)
    && (d0.indirect == 0 ==> (d.indirect != 0 <==> n > 4 || (n == 4 && n0 + Zeros(v0.used) == 5)))
    && Zeros(v0.used) >= Cost(d0.indirect != 0, n0, n)
    && WriteOutcome(d0.size, d0.indirect != 0, LastBlock(start, |buf|), RoomOf(v0))
       == StopOutcome(d0.size, n, d.indirect != 0, errno)
  }

  lemma StopArithmetic(size: nat, start: nat, len: nat, at: nat, n: nat, indirect: bool, room: Room, left: nat,
      errno: int)
    requires start <= size && (at < len || len == 0) && (start + at) / 512 == n <= NR_MAPPED && at <= len
    requires BlocksFor(size) <= n && (BlocksFor(size) > 4 ==> indirect)
    requires left + Cost(indirect, BlocksFor(size), n) == room.free && room.slots >= Cost(indirect, BlocksFor(size), n)
    requires if n == NR_MAPPED then errno == EFBIG else errno == ENOSPC && left < (if n == 4 && !indirect then 2 else 1)
    ensures WriteOutcome(size, indirect, LastBlock(start, len), room)
         == StopOutcome(size, n, indirect || (n < NR_MAPPED && left == 1), errno)
    ensures n < NR_MAPPED && left == 1 ==> n == 4 && !indirect && BlocksFor(size) + room.free == 5
  {
    var n0, last := BlocksFor(size), LastBlock(start, len);
    assert last >= n;
  }

  lemma WriteStops(v0: Vol, d0: DInode, start: nat, buf: seq<byte>, at: nat, v1: Vol, d1: DInode, n: nat,
                   v2: Vol, d2: DInode, errno: int)
    requires Sound(v0, d0) && start <= d0.size && at <= |buf| && (at < |buf| || |buf| == 0)
    requires Underway(v0, d0, BlocksFor(d0.size), start, buf[..at], v1, d1, n)
    requires n == Max(BlocksFor(d0.size), if at == 0 then 0 else (start + at) / 512)
    requires (start + at) / 512 == n && (at == 0 || (start + at) % 512 == 0)
    requires
      if n == NR_MAPPED then errno == EFBIG && v2 == v1 && d2 == d1
      else errno == ENOSPC && NotGrown(v1, d1, n, v2, d2)
    requires Slots(v0) >= Cost(d0.indirect != 0, BlocksFor(d0.size), n)
    ensures Stopped(v0, d0, start, buf, at, v2, d2, n, errno)
  {
    hide Own, OwnStep, Zeros, Slots, Lookup, RawByte, CsumAt, BytesWritten, WriteOutcome;
    var n0 := BlocksFor(d0.size);
    MappedBound(v1, d1, n);
    StopArithmetic(d0.size, start, |buf|, at, n, d0.indirect != 0, RoomOf(v0), Zeros(v1.used), errno);
    if n < NR_MAPPED && Zeros(v1.used) == 1 {
      OwnStepTrans(v0, Own(v0.disk, d0, n0), v1, Own(v1.disk, d1, n), v2, Own(v2.disk, d2, n));
      KeepsCsum(v1, d1, v2, d2, n);
      KeepsBytes(v1.disk, d1, v2.disk, d2, n);
      KeepsWritten(v0.disk, d0, n0, start, buf[..at], v1.disk, d1, v2.disk, d2, n, n);
    }
  }

  lemma KeepsWritten(a: Disk, d: DInode, n0: int, at: nat, s: seq<byte>, b: Disk, e: DInode, c: Disk, f: DInode,
      n: nat, m: nat)
    requires BytesWritten(a, d, n0, at, s, b, e, n) && Keeps(b, e, c, f, m) && m <= n
    ensures BytesWritten(a, d, n0, at, s, c, f, m)
  {
    hide RawByte;
    KeepsBytes(b, e, c, f, m);
  }

  lemma SameUsed(v: Vol, o: set<int>, v': Vol)
    requires OwnStep(v, o, v', o) && AllUsed(v, o)
    ensures v'.used == v.used
  {
    forall i | 0 <= i < NR_BLOCK_BITS ensures v'.used[i] == v.used[i] {
      if DATA_START + i !in o {
        assert OtherKept(v, v', DATA_START + i);
      } else {
        assert IsUsed(v, DATA_START + i) && IsUsed(v', DATA_START + i);
      }
    }
  }

  lemma SizedLookup(disk: Disk, d: DInode, size: int32)
    ensures forall l: nat :: Lookup(disk, d.(size := size), l) == Lookup(disk, d, l)
  {
  }

  /** The size plays no part in the mapping. */
  lemma SizedMap(v: Vol, d: DInode, n: int, size: int32)
    requires Mapped(v, d, n)
    ensures Mapped(v, d.(size := size), n) && Own(v.disk, d.(size := size), n) == Own(v.disk, d, n)
    ensures CsumOk(v, d, n) ==> CsumOk(v, d.(size := size), n)
    ensures forall l: nat :: Lookup(v.disk, d.(size := size), l) == Lookup(v.disk, d, l)
  {
    hide Lookup, Csum;
    SizedLookup(v.disk, d, size);
    assert Own(v.disk, d.(size := size), n) == Own(v.disk, d, n);
    forall l: nat | CsumAt(v, d, l) ensures CsumAt(v, d.(size := size), l) {
    }
  }

  lemma RolledBackContents(a: Disk, d0: DInode, start: nat, buf: seq<byte>, at: nat, b: Disk, d: DInode)
    requires d0.size == d.size >= start && at <= |buf| && start + at >= d0.size
    requires BytesWritten(a, d0, BlocksFor(d0.size), start, buf[..at], b, d, BlocksFor(d0.size))
    ensures Contents(b, d) == Contents(a, d0)[..start] + buf[..d0.size - start]
  {
    hide Lookup;
    var x, y := Contents(b, d), Contents(a, d0)[..start] + buf[..d0.size - start];
    forall pos: nat | pos < d0.size ensures x[pos] == y[pos] {
      assert pos < BlocksFor(d0.size) * 512;
      assert RawByte(b, d, pos)
          == if start <= pos < start + at then buf[..at][pos - start] else OldByte(a, d0, BlocksFor(d0.size), pos);
    }
  }

  /** Without a truncation the mapping was complete when the write stopped. */
  lemma UndoneInPlace(v0: Vol, d0: DInode, start: nat, buf: seq<byte>, at: nat, v: Vol, d: DInode, n: nat, errno: int)
    requires Sound(v0, d0) && start <= d0.size && at <= |buf|
    requires Stopped(v0, d0, start, buf, at, v, d, n, errno) && start + at <= d0.size
    ensures RolledBack(v0, d0, start, buf, v, d)
  {
    hide Lookup, CsumAt, Zeros, BytesWritten, RawByte, Csum, OwnStep, Contents;
    RolledBackContents(v0.disk, d0, start, buf, at, v.disk, d);
    SameDirect(v0, d0, v, d, n);
    if d.indirect == d0.indirect {
      OwnSame(v0.disk, d0, v.disk, d, n);
      SameUsed(v0, Own(v0.disk, d0, n), v);
    }
  }

  lemma OwnSame(disk: Disk, d: DInode, disk': Disk, d': DInode, n: nat)
    requires d'.indirect == d.indirect && forall l: nat :: l < n ==> Lookup(disk', d', l) == Lookup(disk, d, l)
    ensures Own(disk', d', n) == Own(disk, d, n)
  {
    hide Lookup;
    forall p | p in Own(disk, d, n) ensures p in Own(disk', d', n) {
      if p != d.indirect {
        var l: nat :| l < n && Lookup(disk, d, l) == p;
        InOwn(disk', d', n, l);
      }
    }
    forall p | p in Own(disk', d', n) ensures p in Own(disk, d, n) {
      if p != d.indirect {
        var l: nat :| l < n && Lookup(disk', d', l) == p;
        InOwn(disk, d, n, l);
      }
    }
  }

  lemma SameDirect(v0: Vol, d0: DInode, v: Vol, d: DInode, n: nat)
    requires Mapped(v0, d0, n) && Mapped(v, d, n)
    requires forall l: nat :: l < n ==> Lookup(v.disk, d, l) == Lookup(v0.disk, d0, l)
    ensures d.direct == d0.direct
  {
    hide Own;
    forall l | 0 <= l < 4 ensures d.direct[l] == d0.direct[l] {
      DirectLookup(v.disk, d, l);
      DirectLookup(v0.disk, d0, l);
    }
  }

  lemma UndoneByCut(v0: Vol, d0: DInode, start: nat, buf: seq<byte>, at: nat, v2: Vol, d2: DInode, n: nat, errno: int,
                    v3: Vol, d3: DInode)
    requires Sound(v0, d0) && start <= d0.size && at <= |buf| && start + at > d0.size
    requires Stopped(v0, d0, start, buf, at, v2, d2, n, errno)
    requires n <= 4 ==> d2.indirect == 0
    requires Truncated(v2, d2, n, BlocksFor(d0.size), v3, d3)
    requires d3 == d2.(direct := d3.direct, indirect := d3.indirect)
    ensures RolledBack(v0, d0, start, buf, v3, d3)
  {
    hide Lookup, CsumAt, Zeros, BytesWritten, RawByte, Csum, OwnStep, Contents, TableKept;
    var n0 := BlocksFor(d0.size);
    OwnStepTrans(v0, Own(v0.disk, d0, n0), v2, Own(v2.disk, d2, n), v3, Own(v3.disk, d3, n0));
    KeepsCsum(v2, d2, v3, d3, n0);
    KeepsWritten(v0.disk, d0, n0, start, buf[..at], v2.disk, d2, v3.disk, d3, n, n0);
    RolledBackContents(v0.disk, d0, start, buf, at, v3.disk, d3);
    SameDirect(v0, d0, v3, d3, n0);
    if d3.indirect == d0.indirect {
      OwnSame(v0.disk, d0, v3.disk, d3, n0);
      SameUsed(v0, Own(v0.disk, d0, n0), v3);
    }
  }

  lemma WriteUndone(v0: Vol, d0: DInode, start: nat, buf: seq<byte>, at: nat, v2: Vol, d2: DInode, n: nat,
                    v3: Vol, d3: DInode, r: Outcome, errno: int)
    requires Sound(v0, d0) && start <= d0.size && at <= |buf|
    requires Stopped(v0, d0, start, buf, at, v2, d2, n, errno)
    requires start + at <= d0.size ==> r == Done && v3 == v2 && d3 == d2
    requires start + at > d0.size ==> r == if n <= 4 && d2.indirect != 0 then Aborted(NoIndirect) else Done
    requires start + at > d0.size && r == Done ==>
      Truncated(v2, d2, n, BlocksFor(d0.size), v3, d3) && d3 == d2.(direct := d3.direct, indirect := d3.indirect)
    ensures r == Done ==> RolledBack(v0, d0, start, buf, v3, d3) && TableKept(v2.disk, v3.disk)
    ensures (if r == Done then Failed(errno) else r)
         == WriteOutcome(d0.size, d0.indirect != 0, LastBlock(start, |buf|), RoomOf(v0))
  {
    hide Mapped, Keeps, OwnStep, CsumOk, BytesWritten, Zeros, WriteOutcome, RolledBack;
    if r == Done {
      if start + at <= d0.size {
        UndoneInPlace(v0, d0, start, buf, at, v2, d2, n, errno);
      } else {
        UndoneByCut(v0, d0, start, buf, at, v2, d2, n, errno, v3, d3);
      }
    }
  }

  /** What cutting the mapping from `n` to `m` blocks achieves. */
  ghost predicate Truncated(v: Vol, d: DInode, n: nat, m: nat, v': Vol, d': DInode) {
    && Mapped(v', d', m) && Keeps(v.disk, d, v'.disk, d', m)
    && OwnStep(v, Own(v.disk, d, n), v', Own(v'.disk, d', m))
    && v'.csum == v.csum && TableKept(v.disk, v'.disk)
    && Zeros(v'.used) == Zeros(v.used) + (n - m) + (if n > 4 && m <= 4 then 1 else 0)
    && d'.indirect == (if m <= 4 then 0 else d.indirect)
    && (forall l: nat :: l < 4 ==> d'.direct[l] == if l < m then d.direct[l] else 0)
  }

  lemma TruncatedTable(v: Vol, d: DInode, n: nat, m: nat, v': Vol, d': DInode)
    requires Truncated(v, d, n, m, v', d')
    ensures TableKept(v.disk, v'.disk) && v'.csum == v.csum
  {
  }

  lemma TruncatedClears(v: Vol, d: DInode, n: nat, m: nat, v': Vol, d': DInode)
    requires Truncated(v, d, n, m, v', d')
    ensures Cleared(v, v')
  {
    hide Own, Cleared;
  }

  /** Block `p` is one of the first `n` of the file, and its checksum is not the one in the table. */
  ghost predicate WrongIn(v: Vol, d: DInode, n: int, p: int) {
    exists l: nat :: l < n && Lookup(v.disk, d, l) == p && !CsumAt(v, d, l)
  }

  /** Exactly the blocks with a wrong checksum are listed. */
  ghost predicate Reports(v: Vol, d: DInode, n: int, bad: seq<int>) {
    forall p :: p in bad <==> WrongIn(v, d, n, p)
  }

  lemma NothingReported(v: Vol, d: DInode)
    ensures Reports(v, d, 0, [])
  {
  }

  lemma NextReported(v: Vol, d: DInode, l: nat, bad: seq<int>, bad': seq<int>)
    requires Reports(v, d, l, bad)
    requires bad' == if CsumAt(v, d, l) then bad else bad + [Lookup(v.disk, d, l)]
    ensures Reports(v, d, l + 1, bad')
  {
    hide Lookup, CsumAt;
    forall p ensures p in bad' <==> WrongIn(v, d, l + 1, p) {
      assert p in bad <==> WrongIn(v, d, l, p);
      if k: nat :| k < l && Lookup(v.disk, d, k) == p && !CsumAt(v, d, k) {
        assert WrongIn(v, d, l + 1, p);
      }
      if !CsumAt(v, d, l) && p == Lookup(v.disk, d, l) {
        assert WrongIn(v, d, l + 1, p);
      }
    }
  }

  ghost predicate Unmarked(bits: seq<bool>, o: set<int>)
    requires |bits| == NR_BLOCK_BITS
  {
    forall i :: 0 <= i < NR_BLOCK_BITS && DATA_START + i in o ==> !bits[i]
  }

  /** `bits'` is `bits` with the blocks in `o` marked. */
  ghost predicate Marked(bits: seq<bool>, o: set<int>, bits': seq<bool>)
    requires |bits| == NR_BLOCK_BITS
  {
    |bits'| == NR_BLOCK_BITS && forall i :: 0 <= i < NR_BLOCK_BITS ==> bits'[i] == (bits[i] || DATA_START + i in o)
  }

  /** The check stopped at the first unmapped block. */
  lemma CheckedAll(v: Vol, d: DInode, n: nat, i: nat, bits: seq<bool>, bits': seq<bool>, direct: bool)
    requires WfMap(v.disk, d, n) && i <= n && |bits| == NR_BLOCK_BITS
    requires direct ==> (i == 4 && d.indirect == 0) || (Lookup(v.disk, d, i) == 0 && i < 4)
    requires !direct ==> i == NR_MAPPED || (Lookup(v.disk, d, i) == 0 && i < NR_MAPPED)
    requires direct ==> Marked(bits, Range(v.disk, d, 0, i), bits')
    requires !direct ==>
      IsData(d.indirect) && Marked(bits[d.indirect - DATA_START := true], Range(v.disk, d, 0, i), bits')
    ensures i == n && Marked(bits, Own(v.disk, d, n), bits')
  {
    hide Lookup;
    assert Own(v.disk, d, n) == Range(v.disk, d, 0, n) + (if d.indirect == 0 then {} else {d.indirect as int});
  }

  lemma NotMarked(v: Vol, d: DInode, n: nat, l: nat, bits: seq<bool>)
    requires WfMap(v.disk, d, n) && l < n && |bits| == NR_BLOCK_BITS && Unmarked(bits, Own(v.disk, d, n))
    ensures var p := Lookup(v.disk, d, l); IsData(p) && !bits[p - DATA_START] && p != d.indirect
  {
    hide Lookup;
    InOwn(v.disk, d, n, l);
    assert DATA_START + (Lookup(v.disk, d, l) - DATA_START) in Own(v.disk, d, n);
  }

  lemma MarkedBut(v: Vol, d: DInode, n: nat, bits: seq<bool>, bits': seq<bool>)
    requires WfMap(v.disk, d, n) && d.indirect != 0 && |bits| == NR_BLOCK_BITS && Unmarked(bits, Own(v.disk, d, n))
    requires Marked(bits, Range(v.disk, d, 0, 4), bits')
    ensures IsData(d.indirect) && !bits[d.indirect - DATA_START] && !bits'[d.indirect - DATA_START]
    ensures Marked(bits[d.indirect - DATA_START := true], Range(v.disk, d, 0, 4),
      bits'[d.indirect - DATA_START := true])
  {
    hide Lookup;
    assert DATA_START + (d.indirect - DATA_START) in Own(v.disk, d, n);
  }

  lemma NotInRange(disk: Disk, d: DInode, n: nat, i: nat)
    requires WfMap(disk, d, n) && d.indirect != 0
    ensures IsData(d.indirect) && (i <= n ==> d.indirect !in Range(disk, d, 0, i))
  {
    hide Lookup;
  }

  lemma ReleasedNothing(v: Vol, d: DInode, m: nat)
    ensures Released(v, Range(v.disk, d, m, m), v)
  {
  }

  lemma DirectLookup(disk: Disk, d: DInode, i: nat)
    requires i < 4
    ensures Lookup(disk, d, i) == d.direct[i]
  {
  }

  lemma IndirectLookup(disk: Disk, d: DInode, i: nat)
    requires i < 128 && IsData(d.indirect)
    ensures Lookup(disk, d, 4 + i) == IntAt(disk[d.indirect], i)
  {
  }

  lemma IndirectBlock(v: Vol, d: DInode, n: nat, m: nat, i: nat, v1: Vol)
    requires Mapped(v, d, n) && n > 4 && m <= n && Released(v, Range(v.disk, d, m, i), v1)
    requires i == Max(m, 4)
    ensures IsData(d.indirect) && v1.disk[d.indirect] == v.disk[d.indirect] && n <= NR_MAPPED
    ensures i == 4 + Max(m - 4, 0)
  {
    hide IntAt;
  }

  lemma IndirectStillUsed(v: Vol, d: DInode, n: nat, m: nat, v1: Vol)
    requires Mapped(v, d, n) && n > 4 && Released(v, Range(v.disk, d, m, n), v1)
    ensures IsUsed(v1, d.indirect)
  {
    assert d.indirect in Own(v.disk, d, n);
  }

  lemma CutShort(v: Vol, d: DInode, n: nat, m: nat, v': Vol, d': DInode)
    requires Mapped(v, d, n) && m <= n <= 4 && d.indirect == 0
    requires Released(v, Range(v.disk, d, m, n), v') && d' == d.(direct := d'.direct)
    requires forall l: nat :: l < 4 ==> d'.direct[l] == if m <= l < n then 0 else d.direct[l]
    requires Zeros(v'.used) == Zeros(v.used) + n - m
    ensures Truncated(v, d, n, m, v', d')
  {
    hide Range, Own, OwnStep, Keeps, IntAt, Zeros;
    forall l: nat | l < 4 ensures d'.direct[l] == if l < m then d.direct[l] else 0 {
      DirectLookup(v.disk, d, l);
    }
    CutStep(v, d, n, m, v', d');
  }

  lemma CutAll(v: Vol, d: DInode, n: nat, m: nat, v': Vol, d': DInode)
    requires Mapped(v, d, n) && m <= 4 < n
    requires Released(v, Range(v.disk, d, m, n) + {d.indirect as int}, v')
    requires d' == d.(direct := d'.direct, indirect := 0)
    requires forall l: nat :: l < 4 ==> d'.direct[l] == if m <= l then 0 else d.direct[l]
    requires Zeros(v'.used) == Zeros(v.used) + n - m + 1
    ensures Truncated(v, d, n, m, v', d')
  {
    hide Range, Own, OwnStep, Keeps, IntAt, Zeros;
    CutStep(v, d, n, m, v', d');
  }

  lemma TailTable(v: Vol, d: DInode, n: nat, m: nat, block: Block)
    requires Mapped(v, d, n) && 4 < m <= n && IsData(d.indirect)
    requires forall l: nat :: l < 128 ==>
      IntAt(block, l) == if m - 4 <= l < n - 4 then 0 else IntAt(v.disk[d.indirect], l)
    ensures CutTable(v.disk[d.indirect], m, block)
  {
    hide IntAt, Own;
    forall i: nat | i < 128 ensures IntAt(block, i) == if 4 + i < m then IntAt(v.disk[d.indirect], i) else 0 {
      IndirectLookup(v.disk, d, i);
      assert 4 + i >= n ==> Lookup(v.disk, d, 4 + i) == 0;
    }
  }

  /** The blocks behind the cut are mapped ones, so that they stay zero when the indirect block is written. */
  lemma TailZeroes(v: Vol, d: DInode, n: nat, m: nat, v1: Vol, block: Block)
    requires Mapped(v, d, n) && 4 < m <= n && IsData(d.indirect) && Released(v, Range(v.disk, d, m, n), v1)
    ensures CutBlocks(v.disk, d, n, m) == Range(v.disk, d, m, n)
    ensures forall p :: p in CutBlocks(v.disk, d, n, m) && IsData(p) ==> v1.disk[d.indirect := block][p] == ZERO_BLOCK
  {
    hide IntAt, Own;
    assert d.indirect !in Range(v.disk, d, m, n);
  }

  lemma CutTail(v: Vol, d: DInode, n: nat, m: nat, v1: Vol, block: Block, v': Vol, d': DInode)
    requires Mapped(v, d, n) && 4 < m <= n && IsData(d.indirect) && d' == d.(direct := d'.direct)
    requires Released(v, Range(v.disk, d, m, n), v1)
    requires v' == VolData.Vol(v1.disk[d.indirect := block], v1.used, v1.csum)
    requires forall l: nat :: l < 4 ==> d'.direct[l] == d.direct[l]
    requires forall l: nat :: l < 128 ==>
      IntAt(block, l) == if m - 4 <= l < n - 4 then 0 else IntAt(v.disk[d.indirect], l)
    requires Zeros(v'.used) == Zeros(v.used) + n - m
    ensures Truncated(v, d, n, m, v', d')
  {
    hide Range, Own, OwnStep, Keeps, Zeros;
    TailTable(v, d, n, m, block);
    TailZeroes(v, d, n, m, v1, block);
    assert forall p :: IsUsed(v', p) <==> IsUsed(v1, p);
    CutStep(v, d, n, m, v', d');
  }

  lemma SizeDoesNotMatter(v: Vol, d: DInode, size: int32, n: nat, m: nat, v': Vol, d': DInode)
    requires exists s: int32 :: Truncated(v, d.(size := s), n, m, v', d')
    ensures Truncated(v, d, n, m, v', d')
  {
    hide IntAt, Zeros, OwnStep;
    var s: int32 :| Truncated(v, d.(size := s), n, m, v', d');
    var d2 := d.(size := s);
    assert forall l: nat :: Lookup(v.disk, d2, l) == Lookup(v.disk, d, l);
    assert Own(v.disk, d2, n) == Own(v.disk, d, n);
  }

  lemma SizeDoesNotMap(v: Vol, d: DInode, n: nat, m: nat, v': Vol, d': DInode, size: int32)
    requires Truncated(v, d, n, m, v', d')
    ensures Truncated(v, d, n, m, v', d'.(size := size))
  {
    hide IntAt, Zeros, OwnStep;
    var d2 := d'.(size := size);
    assert forall l: nat :: Lookup(v'.disk, d2, l) == Lookup(v'.disk, d', l);
    assert Own(v'.disk, d2, m) == Own(v'.disk, d', m);
  }

  /** Of the mapped bytes those from `at` on are `src`, and the others are as before, or zero where there were none. */
  ghost predicate BytesWritten(disk: Disk, d: DInode, n: int, at: nat, src: seq<byte>, disk': Disk, d': DInode,
      n': int) {
    forall pos: nat :: pos < n' * 512 ==>
      (RawByte(disk', d', pos) == if at <= pos < at + |src| then src[pos - at] else OldByte(disk, d, n, pos))
  }

  ghost function OldByte(disk: Disk, d: DInode, n: int, pos: nat): byte {
    if pos < n * 512 then RawByte(disk, d, pos) else 0
  }

  /** What one turn of the write loop achieves. */
  ghost predicate WroteOne(v: Vol, d: DInode, n: nat, k: nat, offset: nat, src: seq<byte>, v': Vol, d': DInode) {
    var n' := Max(n, k + 1);
    && Mapped(v', d', n')
    && OwnStep(v, Own(v.disk, d, n), v', Own(v'.disk, d', n'))
    && (CsumOk(v, d, n) ==> CsumOk(v', d', n'))
    && (forall l: nat :: l < n ==> Lookup(v'.disk, d', l) == Lookup(v.disk, d, l))
    && BytesWritten(v.disk, d, n, k * 512 + offset, src, v'.disk, d', n')
    && Took(v, v', if k < n then 0 else NeedFor(d, n))
    && (d'.indirect != 0 <==> d.indirect != 0 || n' > 4)
    && (d.indirect != 0 ==> d'.indirect == d.indirect)
    && d' == d.(direct := d'.direct, indirect := d'.indirect)
  }

  lemma WroteOneBlock(v: Vol, d: DInode, n: nat, k: nat, offset: nat, src: seq<byte>,
                      v1: Vol, d1: DInode, block: Block, filled: Block, phy: int, v2: Vol)
    requires Mapped(v, d, n) && k <= n && offset + |src| <= 512
    requires k < n ==> v1 == v && d1 == d && phy == Lookup(v.disk, d, k) && IsData(phy) && block == v.disk[phy]
    requires k == n ==> n < NR_MAPPED && GrownBy(v, d, n, v1, d1, phy) && block == ZERO_BLOCK
    requires filled == block[..offset] + src + block[offset + |src|..]
    requires phy == Lookup(v1.disk, d1, k) && WfMap(v1.disk, d1, Max(n, k + 1))
    requires Stored(v1, d1, Max(n, k + 1), k, filled, v2)
    ensures WroteOne(v, d, n, k, offset, src, v2, d1)
  {
    hide Lookup, Csum, RawByte, BytesWritten, OwnStep, Own, CsumOk, CsumAt;
    var n' := Max(n, k + 1);
    OwnStepHere(v, Own(v.disk, d, n));
    StoreStep(v1, d1, n', k, filled, v2);
    OwnStepTrans(v, Own(v.disk, d, n), v1, Own(v1.disk, d1, n'), v2, Own(v2.disk, d1, n'));
    WroteBytes(v, d, n, k, offset, src, v1, d1, block, filled, phy, v2);
    if CsumOk(v, d, n) {
      WroteCsum(v, d, n, k, v1, d1, filled, v2);
    }
  }

  lemma OwnStepHere(v: Vol, o: set<int>)
    ensures AllUsed(v, o) ==> OwnStep(v, o, v, o)
  {
  }

  lemma WroteCsum(v: Vol, d: DInode, n: nat, k: nat, v1: Vol, d1: DInode, filled: Block, v2: Vol)
    requires Mapped(v, d, n) && k <= n && CsumOk(v, d, n)
    requires if k < n then v1 == v && d1 == d else GrownBy(v, d, n, v1, d1, Lookup(v1.disk, d1, n))
    requires WfMap(v1.disk, d1, Max(n, k + 1)) && Mapped(v1, d1, Max(n, k + 1))
    requires Stored(v1, d1, Max(n, k + 1), k, filled, v2)
    ensures CsumOk(v2, d1, Max(n, k + 1))
  {
    hide Lookup, Csum;
    var n' := Max(n, k + 1);
    forall l: nat | l < n ensures CsumAt(v1, d1, l) {
      assert CsumAt(v, d, l);
    }
    StoreCsum(v1, d1, n', k, filled, v2, n);
  }

  lemma WroteBytes(v: Vol, d: DInode, n: nat, k: nat, offset: nat, src: seq<byte>,
                   v1: Vol, d1: DInode, block: Block, filled: Block, phy: int, v2: Vol)
    requires Mapped(v, d, n) && k <= n && offset + |src| <= 512
    requires k < n ==> v1 == v && d1 == d && phy == Lookup(v.disk, d, k) && IsData(phy) && block == v.disk[phy]
    requires k == n ==> GrownBy(v, d, n, v1, d1, phy) && block == ZERO_BLOCK
    requires filled == block[..offset] + src + block[offset + |src|..]
    requires phy == Lookup(v1.disk, d1, k) && WfMap(v1.disk, d1, Max(n, k + 1)) && Mapped(v1, d1, Max(n, k + 1))
    requires Stored(v1, d1, Max(n, k + 1), k, filled, v2)
    ensures BytesWritten(v.disk, d, n, k * 512 + offset, src, v2.disk, d1, Max(n, k + 1))
  {
    hide Lookup, Csum, WfMap, OwnStep, Own, Stored;
    var n' := Max(n, k + 1);
    StoreStep(v1, d1, n', k, filled, v2);
    if k == n {
      KeepsBytes(v.disk, d, v1.disk, d1, n);
    }
    forall pos: nat | pos < n' * 512
      ensures RawByte(v2.disk, d1, pos)
           == if k * 512 + offset <= pos < k * 512 + offset + |src| then src[pos - (k * 512 + offset)]
              else OldByte(v.disk, d, n, pos)
    {
      if pos / 512 == k {
        var i := pos % 512;
        assert pos == k * 512 + i;
        assert filled[i] == if offset <= i < offset + |src| then src[i - offset] else block[i];
        assert k < n ==> block[i] == RawByte(v.disk, d, pos);
        assert k == n ==> block[i] == 0;
      } else {
        assert pos < n * 512;
        assert RawByte(v2.disk, d1, pos) == RawByte(v1.disk, d1, pos);
      }
    }
  }

  lemma MappedLookup(disk: Disk, d: DInode, n: int, k: nat)
    requires WfMap(disk, d, n)
    ensures k < n ==> IsData(Lookup(disk, d, k)) && Lookup(disk, d, k) > 0
    ensures n <= k < NR_MAPPED ==> Lookup(disk, d, k) == 0
    ensures n <= NR_MAPPED
  {
  }

  lemma Join(s: seq<byte>, at: nat, have: nat, more: nat)
    requires at + have + more <= |s|
    ensures s[at..at + have] + s[at + have..at + have + more] == s[at..at + have + more]
  {
  }

  lemma SliceOfBlock(disk: Disk, d: DInode, n: int, pos: nat, len: nat)
    requires WfInode(disk, d) && n == BlocksFor(d.size) && pos / 512 < n
    requires pos % 512 + len <= 512 && pos + len <= d.size
    ensures disk[Lookup(disk, d, pos / 512)][pos % 512..pos % 512 + len] == Contents(disk, d)[pos..pos + len]
  {
    var p := Lookup(disk, d, pos / 512);
    var x, y := disk[p][pos % 512..pos % 512 + len], Contents(disk, d)[pos..pos + len];
    forall i | 0 <= i < len ensures x[i] == y[i] {
      assert (pos + i) / 512 == pos / 512 && (pos + i) % 512 == pos % 512 + i;
    }
  }

  function WithDisk(v: Vol, disk: Disk): Vol {
    VolData.Vol(disk, v.used, v.csum)
  }

  /** The disk after an inode was saved: its dinode in place, and its indirect block if that was dirty. */
  function SyncedDisk(disk: Disk, nr: nat, d: DInode, indirectDirty: bool, indirect: seq<int32>): Disk
    requires nr < NR_INODES && |indirect| == 128 && (indirectDirty ==> IsData(d.indirect))
  {
    WithIndirect(WithDInode(disk, nr, d), d, indirectDirty, indirect)
  }

  function WithDInode(disk: Disk, nr: nat, d: DInode): Disk
    requires nr < NR_INODES
  {
    disk[INODE_START + nr / 16 := EncodeDInode(disk[INODE_START + nr / 16], nr, d)]
  }

  function WithIndirect(disk: Disk, d: DInode, indirectDirty: bool, indirect: seq<int32>): Disk
    requires |indirect| == 128 && (indirectDirty ==> IsData(d.indirect))
  {
    if indirectDirty then disk[d.indirect := OfInts(indirect)] else disk
  }

  /** Saving inode `nr` changes that inode on the disk and no other. */
  lemma SyncedInodes(disk: Disk, nr: nat, d: DInode)
    requires nr < NR_INODES
    ensures DiskInode(WithDInode(disk, nr, d), nr) == d
    ensures forall i: nat :: i < NR_INODES && i != nr ==> DiskInode(WithDInode(disk, nr, d), i) == DiskInode(disk, i)
  {
    hide EncodeDInode, DecodeDInode;
    DecodeEncodeDInode(disk[INODE_START + nr / 16], nr, d);
    forall i: nat | i < NR_INODES && i != nr ensures DiskInode(WithDInode(disk, nr, d), i) == DiskInode(disk, i) {
      if i / 16 == nr / 16 {
        DecodeEncodeOther(disk[INODE_START + nr / 16], nr, d, i);
      }
    }
  }

  lemma NoRoom(v: Vol, d: DInode, n: nat)
    requires FirstClear(v.used, 0) >= NR_BLOCK_BITS
    ensures NotGrown(v, d, n, v, d)
  {
    AllSet(v.used);
  }

  /** `AllocateIndirect` with an indirect block in place. */
  lemma ExistingDone(v: Vol, d: DInode, n: nat, v': Vol, ok: bool)
    requires Mapped(v, d, n) && 4 <= n < NR_MAPPED && d.indirect != 0 && IsData(d.indirect)
    requires ok <==> FirstClear(v.used, 0) < NR_BLOCK_BITS
    requires v' == if ok then WithEntry(Allocated(v, FirstClear(v.used, 0)), d.indirect,
                                        SetInt(v.disk[d.indirect], n - 4, DATA_START + FirstClear(v.used, 0)))
                   else WithEntry(v, d.indirect, v.disk[d.indirect])
    ensures TableKept(v.disk, v'.disk)
    ensures ok ==> GrownBy(v, d, n, v', d, DATA_START + FirstClear(v.used, 0))
    ensures ok ==> (HasSlot(DATA_START + FirstClear(v.used, 0)) <==> Slots(v) > 0)
    ensures !ok ==> NotGrown(v, d, n, v', d)
  {
    hide IntAt, SetInt, Allocated, Mapped, Grown, FreemapBlock;
    if ok {
      var j := FirstClear(v.used, 0);
      AllocatedFacts(v, j);
      AllocatedBits(v, j);
      GrowIndirect(v, d, n, j, Allocated(v, j));
    } else {
      AllSet(v.used);
      assert v'.disk == v.disk;
    }
  }

  /** `AllocateIndirect` with a fresh indirect block. */
  lemma FreshDone(v: Vol, d: DInode, n: nat, v': Vol, ok: bool)
    requires Mapped(v, d, n) && 4 <= n < NR_MAPPED && d.indirect == 0 && FirstClear(v.used, 0) < NR_BLOCK_BITS
    requires var i := FirstClear(v.used, 0);
             var v1 := Allocated(v, i);
             var j := FirstClear(v1.used, 0);
             && (ok <==> j < NR_BLOCK_BITS)
             && v' == if ok then WithEntry(Allocated(v1, j), DATA_START + i, SetInt(ZERO_BLOCK, n - 4, DATA_START + j))
                      else WithEntry(v1, DATA_START + i, ZERO_BLOCK)
    ensures TableKept(v.disk, v'.disk)
    ensures var i := FirstClear(v.used, 0);
            var j := FirstClear(Allocated(v, i).used, 0);
            && (ok ==> GrownBy(v, d, n, v', d.(indirect := DATA_START + i), DATA_START + j))
            && (ok ==> (HasSlot(DATA_START + j) <==> Slots(v) > 1))
            && (!ok ==> NotGrown(v, d, n, v', d.(indirect := DATA_START + i)))
  {
    hide IntAt, SetInt, Allocated, Grown, FreemapBlock, Lookup;
    var i := FirstClear(v.used, 0);
    AllocatedFacts(v, i);
    AllocatedBits(v, i);
    var v1 := Allocated(v, i);
    var j := FirstClear(v1.used, 0);
    if ok {
      AllocatedFacts(v1, j);
      AllocatedBits(v1, j);
      GrowBoth(v, d, i, v1, j, Allocated(v1, j));
    } else {
      AllSet(v1.used);
      GrowFresh(v, d, n, i, v1);
    }
  }

  /** Block `p` of the device overwritten. */
  function WithEntry(v: Vol, p: int, b: Block): Vol
    requires 0 <= p < DISK_BLOCKS
  {
    VolData.Vol(v.disk[p := b], v.used, v.csum)
  }

  lemma AllocatedBits(v: Vol, i: nat)
    requires i < NR_BLOCK_BITS
    ensures Allocated(v, i).used == v.used[i := true]
  {
  }

  lemma MappedBound(v: Vol, d: DInode, n: nat)
    requires Mapped(v, d, n)
    ensures n <= NR_MAPPED
  {
  }

  lemma CsumCleanKept(disk: Disk, disk': Disk, csum: seq<int32>, dirty: seq<bool>)
    requires |csum| == MAX_NR_CSUMS && |dirty| == CSUM_TABLE_SIZE && TableKept(disk, disk')
    ensures CsumClean(disk, csum, dirty) ==> CsumClean(disk', csum, dirty)
  {
    hide TableBlock;
  }

  lemma IndirectIsData(v: Vol, d: DInode, n: nat)
    requires Mapped(v, d, n)
    ensures d.indirect == 0 || IsData(d.indirect)
    ensures n > 4 ==> d.indirect != 0
  {
  }

  /** A data block whose checksum has a place in the table. */
  predicate HasSlot(p: int) {
    p - DATA_START < MAX_NR_CSUMS
  }

  lemma GrownRoom(v: Vol, d: DInode, n: nat, v': Vol, d': DInode, p: int)
    requires GrownBy(v, d, n, v', d', p)
    ensures Zeros(v.used) >= NeedFor(d, n)
  {
  }

  /** Free blocks that mapping the next logical block, `n`, takes. */
  function NeedFor(d: DInode, n: nat): nat {
    if n >= 4 && d.indirect == 0 then 2 else 1
  }

  ghost predicate GrownBy(v: Vol, d: DInode, n: nat, v': Vol, d': DInode, p: int) {
    && Grown(v, d, n, v', d', p)
    && Took(v, v', NeedFor(d, n))
    && (d'.indirect != 0 <==> d.indirect != 0 || n >= 4)
    && (d.indirect != 0 ==> d'.indirect == d.indirect)
    && d' == d.(direct := d'.direct, indirect := d'.indirect)
  }

  /** There was no room: nothing changed, unless the last free block went into a fresh indirect block. */
  ghost predicate NotGrown(v: Vol, d: DInode, n: nat, v': Vol, d': DInode) {
    && Zeros(v.used) < NeedFor(d, n)
    && if Zeros(v.used) == 1 then Indirected(v, d, n, v', d', d'.indirect) && Zeros(v'.used) == 0
       else v' == v && d' == d
  }
}
