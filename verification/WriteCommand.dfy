/** `write`: replaces the contents of a file through the asynchronous path. */
module WriteCommand {
  import opened Bytes
  import opened Layout
  import opened Volume
  import Bits = Bitmap
  import opened Reactors
  import opened Device
  import opened Super
  import opened Steps
  import opened Inodes
  import opened World
  import opened Table
  import opened Dirents
  import opened Tree
  import opened DirOps
  import opened FileOps
  import opened Contexts
  import opened Commands
  import Alternate
  import opened AltPath
  import opened Conservation

  /**
   * How replacing the contents ends. A content that is too big
   * changes nothing, and neither does one for which not a single block is free; then saving the unchanged
   * inode violates an assertion.
   */
  function ReplaceOutcome(d: DInode, len: nat, room: Room): Outcome
    requires d.size >= 0
  {
    var o := Alternate.AltOutcome(d.size, d.indirect != 0, LastBlock(0, len), room);
    if o == Failed(EFBIG) || (o == Failed(ENOSPC) && room.free == 0) then Aborted(DirtyOnSync)
    else if o == Done && Dangling(d) && len < d.size then Aborted(NoIndirect)
    else o
  }

  /** The inode was just read: nothing is changed, and its indirect block is not in memory. */
  ghost predicate Untouched(in_: Inode)
    reads in_, in_.sb, in_.sb.dev, in_.sb.inodeFreemap.v, in_.sb.blockFreemap.v
  {
    && in_.Ready() && Sound(in_.sb.Vol(), in_.din) && !in_.dirty && !in_.indirectDirty && !in_.indirectLoaded
    && CsumClean(in_.sb.Vol().disk, in_.sb.csumTable, in_.sb.csumDirty) && in_.nr < NR_INODES
  }

  /** The new dinode and the indirect block are on the device. */
  ghost predicate SavedAs(in_: Inode, v1: Vol)
    reads in_, in_.sb, in_.sb.dev, in_.sb.inodeFreemap.v, in_.sb.blockFreemap.v
  {
    && in_.Ready() && in_.nr < NR_INODES && !in_.dirty && !in_.indirectDirty
    && in_.sb.Vol() == WithDisk(v1, WithDInode(v1.disk, in_.nr, in_.din))
    && CsumClean(in_.sb.Vol().disk, in_.sb.csumTable, in_.sb.csumDirty)
  }

  /**
   * Asynchronous write, wait, truncate, save. `v1` is the volume with the new indirect block, before the dinode is
   * saved.
   */
  method Replace(in_: Inode, content: seq<byte>) returns (r: Outcome, ghost v1: Vol)
    requires Untouched(in_) && content != []
    modifies in_`din, in_`dirty, in_`indirect, in_`indirectLoaded, in_`indirectDirty
    modifies in_.sb`csumTable, in_.sb`csumDirty, in_.sb.dev, in_.sb.blockFreemap.v
    ensures in_.sb.Valid() && old(in_.din.size) >= 0
    ensures r == ReplaceOutcome(old(in_.din), |content|, RoomOf(old(in_.sb.Vol())))
    ensures r == Done ==> SavedAs(in_, v1) && Changed(old(in_.sb.Vol()), old(in_.din), v1, in_.din, content)
    ensures r == Done ==> TableKept(old(in_.sb.Vol().disk), in_.sb.Vol().disk)
    ensures r.Failed? ==> r == Failed(ENOSPC) && SavedAs(in_, v1) && FixedKept(old(in_.sb.Vol().disk), v1.disk)
    ensures r.Failed? ==> SpaceLost(old(in_.sb.Vol()), old(in_.din), v1, in_.din)
  {
    hide SuperBlock.Vol, SuperBlock.Valid, Alternate.Write, Alternate.VDisk, Sound, Contents, Own, CsumClean;
    hide Changed, Bits.Zeros, LastBlock;
    hide Dangling, SpaceLost, Alternate.SpaceGone, FixedKept, Slots;
    ghost var v, d, a := in_.sb.Vol(), in_.din, State(in_);
    v1 := v;
    FreshState(in_);
    HowWriteEnds(a, content);
    Alternate.WriteTable(a, 0, content);
    r := WriteAndWait(in_, content);
    if r.Aborted? {
      return;
    }
    ghost var b := State(in_);
    if r.Failed? {
      r, v1 := SaveFailed(in_, r, a, content);
      return;
    }
    Replaced(a, content);
    NotDirty(b);
    r := in_.Truncate(|content|);
    if r != Done {
      return;
    }
    TableLengths(in_.sb);
    ghost var t := State(in_);
    v1 := Alternate.VVol(t);
    TruncateReplaced(a, content, b, t);
    SyncIsVirtual(t, in_.nr);
    var saved := in_.Sync();
    TableLengths(in_.sb);
    CsumCleanKept(t.v.disk, in_.sb.Vol().disk, in_.sb.csumTable, in_.sb.csumDirty);
  }

  /** `write` goes on to save the inode when the asynchronous write has failed. */
  method SaveFailed(in_: Inode, failed: Outcome, ghost a: Alternate.Alt, ghost content: seq<byte>)
    returns (r: Outcome, ghost v1: Vol)
    requires in_.Ready() && in_.nr < NR_INODES && Fit(a, 0) && Alternate.CleanTable(a) && !a.dirty && !a.tableDirty
    requires content != []
    requires failed.Failed? && Alternate.Write(a, 0, content) == (State(in_), failed)
      && (failed == Failed(ENOSPC) || failed == Failed(EFBIG))
    requires failed == Failed(EFBIG) ==> State(in_) == a
    modifies in_`dirty, in_`indirectDirty, in_.sb.dev
    ensures in_.sb.Valid()
    ensures r == if failed == Failed(EFBIG) || Bits.Zeros(a.v.used) == 0 then Aborted(DirtyOnSync) else failed
    ensures r.Failed? ==>
      SavedAs(in_, v1) && FixedKept(a.v.disk, v1.disk) && SpaceLost(Alternate.VVol(a), a.d, v1, in_.din)
  {
    hide SuperBlock.Vol, SuperBlock.Valid, Alternate.Write, Sound, Own, CsumClean, Bits.Zeros, TableBlock, OfInts, Fit;
    ghost var b := State(in_);
    v1 := Alternate.VVol(b);
    if failed == Failed(ENOSPC) {
      FitSound(a);
      Alternate.WriteNoSpace(a, 0, content);
      GoneIsLost(a, b);
      SyncIsVirtual(b, in_.nr);
    }
    TableLengths(in_.sb);
    var saved := in_.Sync();
    if !saved {
      return Aborted(DirtyOnSync), v1;
    }
    TableLengths(in_.sb);
    CsumCleanKept(b.v.disk, in_.sb.Vol().disk, in_.sb.csumTable, in_.sb.csumDirty);
    r := failed;
  }

  lemma FitSound(a: Alternate.Alt)
    requires Fit(a, 0)
    ensures Alternate.Coherent(a) && Sound(Alternate.VVol(a), a.d) && 0 <= a.d.size
  {
    hide Sound, Alternate.Coherent, Alternate.VDisk;
  }

  lemma GoneIsLost(a: Alternate.Alt, b: Alternate.Alt)
    requires Alternate.SpaceGone(a, b) && !a.dirty && !a.tableDirty
    ensures b.dirty <==> Bits.Zeros(a.v.used) > 0
    ensures b.dirty ==> SpaceLost(Alternate.VVol(a), a.d, Alternate.VVol(b), b.d)
    ensures FixedKept(a.v.disk, Alternate.VVol(b).disk) && (b.tableDirty ==> IsData(b.d.indirect))
    ensures CsumClean(b.v.disk, b.v.csum, b.csumDirty)
  {
    hide Bits.Zeros, OfInts, CsumClean;
  }

  lemma HowWriteEnds(a: Alternate.Alt, content: seq<byte>)
    requires Fit(a, 0) && content != [] && a.d.size >= 0
    ensures var (b, r) := Alternate.Write(a, 0, content);
            && r == Alternate.AltOutcome(a.d.size, a.d.indirect != 0, LastBlock(0, |content|), RoomOf(a.v))
            && (r == Failed(EFBIG) ==> b == a)
  {
    hide Alternate.Coherent, Sound, Wrote, Bits.Zeros, Slots, LastBlock;
    Alternate.WriteIs(a, 0, content);
    Alternate.BodyAndTail(0, |content|);
  }

  lemma FreshState(in_: Inode)
    requires Untouched(in_)
    ensures Able(in_) && Fit(State(in_), 0) && Alternate.CleanTable(State(in_))
    ensures Alternate.VVol(State(in_)) == in_.sb.Vol()
    ensures in_.din.size >= 0 && Beside(State(in_), {}) && Flying(in_.sb.dev.s, 0, {}, 0, {})
  {
    hide CsumOk, SuperBlock.Valid;
  }

  /** Issues the whole write on a future of its own and waits until nothing is in flight. */
  method WriteAndWait(in_: Inode, content: seq<byte>) returns (r: Outcome)
    requires Untouched(in_) && content != []
    modifies in_`din, in_`dirty, in_`indirect, in_`indirectLoaded, in_`indirectDirty
    modifies in_.sb`csumTable, in_.sb`csumDirty, in_.sb.dev, in_.sb.blockFreemap.v
    ensures in_.sb.Valid() && |in_.indirect| == 128
    ensures r == Alternate.Write(old(State(in_)), 0, content).1
    ensures !r.Aborted? ==> State(in_) == Alternate.Write(old(State(in_)), 0, content).0
    ensures !r.Aborted? ==> in_.sb.Idle()
  {
    hide Alternate.Write, Alternate.VDisk, Sound, CsumClean, Flying, Beside, Fit, Quiet, PendingOn, WriteFlying;
    hide Alternate.Coherent, OnlyMoreOn;
    FreshState(in_);
    ghost var s0 := in_.sb.dev.s;
    var f := in_.sb.dev.FutureInit();
    ghost var s1 := in_.sb.dev.s;
    QuietSettled(s0, s1);
    QuietIdle(s0, s1);
    IdleFlying(s1, f);
    r := WriteDataAlternateAsync(in_, f, 0, content, {});
    if r.Aborted? {
      return;
    }
    ghost var s2 := in_.sb.dev.s;
    DeviceValid(in_.sb);
    OnlyOn(s1, s2, f, State(in_), |content|);
    in_.sb.dev.SpinWait(f);
    QuietSettled(s2, in_.sb.dev.s);
    NothingLeft(s1, s2, in_.sb.dev.s, f);
  }

  lemma IdleFlying(s: Io, f: nat)
    requires Inv(s) && s.pending == []
    ensures Flying(s, f, {}, 0, {})
  {
  }

  lemma OnlyOn(s: Io, s': Io, f: nat, b: Alternate.Alt, len: nat)
    requires Inv(s) && s.pending == [] && f < |s.futures|
      && (WriteFlying(s, s', f, {}, b, 0, len) || OnlyMoreOn(s, s', f))
    ensures f < |s'.futures| && forall g: nat :: PendingOn(s', g) ==> g == f
  {
    hide Flying, Settled;
  }

  lemma NothingLeft(s: Io, s': Io, e: Io, f: nat)
    requires Inv(s') && Quiet(s', e) && !PendingOn(e, f) && forall g: nat :: PendingOn(s', g) ==> g == f
    ensures e.pending == []
  {
    if e.pending != [] {
      assert PendingOn(e, e.pending[0].f);
    }
  }

  /** The file after the write and before the truncation. */
  ghost predicate Half(a: Alternate.Alt, content: seq<byte>, b: Alternate.Alt)
    requires a.d.size >= 0
  {
    && Alternate.Coherent(b) && b.dirty && Alternate.CleanTable(b)
    && b.d.size == Max(a.d.size, |content|)
    && (b.d.size > |content| ==> !b.tableDirty)
    && Changed(Alternate.VVol(a), a.d, Alternate.VVol(b), b.d, Overlay(Contents(Alternate.VDisk(a), a.d), 0, content))
    && (|content| < a.d.size ==> (Dangling(b.d) <==> Dangling(a.d)))
    && WfInode(Alternate.VDisk(b), b.d) && AllUsed(Alternate.VVol(b), Own(Alternate.VDisk(b), b.d, BlocksFor(b.d.size)))
  }

  lemma Replaced(a: Alternate.Alt, content: seq<byte>)
    requires Fit(a, 0) && Alternate.CleanTable(a) && !a.tableDirty && content != [] && a.d.size >= 0
    requires Alternate.Write(a, 0, content).1 == Done
    ensures Half(a, content, Alternate.Write(a, 0, content).0)
  {
    hide Alternate.Write, Alternate.VDisk, Alternate.Coherent, Sound, Wrote, Alternate.CleanTable, Contents;
    hide Changed, Own, LastBlock;
    var b := Alternate.Write(a, 0, content).0;
    Alternate.WriteIs(a, 0, content);
    Alternate.WriteClean(a, 0, content);
    Alternate.WrittenSize(a, 0, content);
    ChangedByWrite(Alternate.VVol(a), a.d, 0, content, Alternate.VVol(b), b.d);
    WroteSound(Alternate.VVol(a), a.d, 0, content, Alternate.VVol(b), b.d);
  }

  lemma TruncateReplaced(a: Alternate.Alt, content: seq<byte>, b: Alternate.Alt, t: Alternate.Alt)
    requires a.d.size >= 0 && Half(a, content, b)
    requires t.tableDirty == b.tableDirty && t.table == b.table && t.csumDirty == b.csumDirty
    requires b.d.size <= |content| ==> t.v == b.v && t.d == b.d
    requires b.d.size > |content| ==>
      Truncated(b.v, b.d, BlocksFor(b.d.size), BlocksFor(|content|), t.v, t.d)
      && t.d == b.d.(direct := t.d.direct, indirect := t.d.indirect, size := |content|)
    ensures Changed(Alternate.VVol(a), a.d, Alternate.VVol(t), t.d, content) && Alternate.CleanTable(t)
    ensures t.tableDirty ==> IsData(t.d.indirect)
  {
    hide Changed, Truncated, Contents, Own, TableBlock, WfMap;
    CutBehind(Alternate.VVol(a), a.d, 0, content, Alternate.VVol(b), b.d, Alternate.VVol(t), t.d);
    assert Contents(Alternate.VDisk(a), a.d)[..0] + content == content;
    if b.d.size > |content| {
      TruncatedTable(b.v, b.d, BlocksFor(b.d.size), BlocksFor(|content|), t.v, t.d);
      CsumCleanKept(b.v.disk, t.v.disk, b.v.csum, b.csumDirty);
    }
  }

  lemma NotDirty(b: Alternate.Alt)
    ensures !b.tableDirty ==> Alternate.VVol(b) == b.v
  {
  }

  /** Saving writes the dinode into the volume that has the indirect block applied. */
  lemma SyncIsVirtual(t: Alternate.Alt, nr: nat)
    requires nr < NR_INODES && (t.tableDirty ==> IsData(t.d.indirect))
    ensures SyncedDisk(t.v.disk, nr, t.d, t.tableDirty, t.table) == WithDInode(Alternate.VDisk(t), nr, t.d)
    ensures TableKept(t.v.disk, WithDInode(Alternate.VDisk(t), nr, t.d))
  {
    hide EncodeDInode, OfInts;
  }

  /** How `write` ends. */
  ghost function WriteCmdOutcome(w: World, cur: nat, dirty: bool, name: seq<byte>, len: nat): Outcome
    requires BlocksConsistent(w) && cur in FilesOf(w)
  {
    var nr := NrOf(Entries(FilesOf(w), cur), name);
    if nr < 0 || nr !in FilesOf(w) then Failed(ENOENT)
    else if IsDir(FilesOf(w), nr) then (if nr == cur && dirty then Aborted(CleanOnPut) else Failed(EISDIR))
    else
      SizeKnown(w, nr);
      ReplaceOutcome(w.inodes[nr], len, RoomOf(w.vol))
  }

  /** What `write` does to the files. */
  ghost function Written(files: Files, cur: nat, name: seq<byte>, content: seq<byte>, done: bool): Files
    requires cur in files
  {
    var nr := NrOf(Entries(files, cur), name);
    if done && nr >= 0 then files[nr := Node(I_FILE, content)] else files
  }

  /**
   * When it answers that it ran out of space, it has taken every free block, also those it could not use, and the
   * file system is not consistent any more.
   */
  method CmdWrite(c: Context, name: seq<byte>, content: seq<byte>) returns (r: Outcome)
    requires c.Valid() && content != []
    modifies c.curDir`count, c.table, c.sb`csumTable, c.sb`csumDirty, c.sb.dev, c.sb.blockFreemap.v
    ensures c.sb.Valid() && r == WriteCmdOutcome(old(c.W()), c.curDir.nr, c.curDir.dirty, name, |content|)
    ensures !r.Aborted? && r != Failed(ENOSPC) ==> c.Valid()
    ensures r == Failed(ENOSPC) ==> !BlocksConsistent(c.W())
    ensures !r.Aborted? && r != Failed(ENOSPC) ==>
      c.Files() == Written(old(c.Files()), c.curDir.nr, name, content, r == Done)
    ensures r == Done ==> TableKept(old(c.W()).vol.disk, c.W().vol.disk)
    ensures !r.Aborted? && r != Failed(ENOSPC) ==> Cleared(old(c.W()).vol, c.W().vol)
  {
    hide SuperBlock.Vol, SuperBlock.Valid, SuperBlock.InodesUsed, InodeTable.Valid, DiskInode, Sound, Contents;
    hide Context.Struct, Context.CachedLive, Context.MapsSaved, Context.W, Context.CacheOk, FilesOf, BlocksConsistent;
    hide Parse, TreeOk, ReplaceOutcome, Changed, Cleared;
    ClearedSame(c.W().vol, c.W().vol);
    var nr := FindHere(c, name);
    if nr < 0 {
      return Failed(-nr);
    }
    var in_;
    r, in_ := OpenFile(c, nr);
    if r == Done {
      r := ReplaceAndClose(c, in_, content);
    }
  }

  /** The part of `write` that has found the file. */
  method ReplaceAndClose(c: Context, in_: Inode, content: seq<byte>) returns (r: Outcome)
    requires Opened(c, in_) && content != [] && !in_.dirty && !in_.indirectLoaded
    modifies in_, c.table, c.sb`csumTable, c.sb`csumDirty, c.sb.dev, c.sb.blockFreemap.v
    ensures c.sb.Valid() && in_.nr < NR_INODES && old(c.W()).inodes[in_.nr].size >= 0
    ensures r == ReplaceOutcome(old(c.W()).inodes[in_.nr], |content|, RoomOf(old(c.W()).vol))
    ensures r == Done ==> c.Valid() && c.Files() == old(c.Files())[in_.nr := Node(I_FILE, content)]
    ensures r == Done ==> TableKept(old(c.W()).vol.disk, c.W().vol.disk) && Cleared(old(c.W()).vol, c.W().vol)
    ensures r.Failed? ==> r == Failed(ENOSPC) && !BlocksConsistent(c.W())
  {
    hide SuperBlock.Vol, SuperBlock.Valid, SuperBlock.InodesUsed, InodeTable.Valid, DiskInode, Sound, Contents;
    hide Context.Struct, Context.CachedLive, Context.MapsSaved, Context.W, Context.CacheOk, FilesOf, BlocksConsistent;
    hide Parse, TreeOk, Changed, Dangling, CsumClean, Bits.Zeros, Slots, LastBlock, Cleared;
    c.MayChange(in_);
    c.CachedSound(in_);
    c.CachedWorld(in_);
    ghost var files := c.Files();
    ghost var v1;
    r, v1 := Replace(in_, content);
    if r.Aborted? {
      return;
    }
    if r.Failed? {
      c.InodeSaved(in_, v1);
      LostIsInconsistent(old(c.W()), in_.nr, c.W());
      var put := c.PutInode(in_);
      return;
    }
    c.DataSaved(in_, content, v1);
    WriteOk(files, c.shape, in_.nr, content);
    var clean := c.PutInode(in_);
    assert c.table.view == map[c.curDir.nr := c.curDir];
    c.LiveIs();
  }
}
