/** Walking and changing the records of one directory through its inode. */
module DirOps {
  import opened Bytes
  import opened Layout
  import Bitmap
  import opened Volume
  import opened Super
  import opened Steps
  import opened Inodes
  import opened World
  import opened Dirents
  import opened Tree

  /** All blocks that the size needs are mapped; of checksums nothing is said, as reading does not look at them. */
  ghost predicate Readable(v: Vol, d: DInode) {
    d.size >= 0 && Mapped(v, d, BlocksFor(d.size))
  }

  /** The inode is a directory that can be read, and its bytes are the log `ds`. */
  ghost predicate Holds(dir: Inode, ds: seq<Dirent>)
    reads dir, dir.sb, dir.sb.dev, dir.sb.inodeFreemap.v, dir.sb.blockFreemap.v
  {
    && dir.Ready() && dir.din.typ == I_DIR && Readable(dir.sb.Vol(), dir.din)
    && WfLog(ds) && Contents(dir.sb.Vol().disk, dir.din) == Log(ds)
  }

  /** Reads the record at `offset` and steps over it. */
  method NextDirent(dir: Inode, offset: nat, ghost ds: seq<Dirent>, ghost k: nat)
    returns (found: bool, e: Dirent, next: nat)
    requires Holds(dir, ds) && k <= |ds| && offset == Offset(ds, k)
    modifies dir.sb.dev
    ensures Holds(dir, ds) && dir.sb.Vol() == old(dir.sb.Vol())
    ensures found <==> k < |ds|
    ensures found ==> e == ds[k] && next == Offset(ds, k + 1)
  {
    hide SuperBlock.Vol, SuperBlock.Valid, Contents, Log, Mapped, CsumOk, EncodeInt, DecodeInt, WfMap;
    OffsetOfEnd(ds);
    if k < |ds| {
      SplitAt(ds, k);
      RecordAt(ds, k);
    }
    if offset >= dir.din.size {
      return false, Dirent([0], 0), offset;
    }
    ReadableMap(dir.sb.Vol(), dir.din);
    var r, head := dir.ReadData(offset, 8);
    var len := DecodeInt(head[..4]);
    var nr := DecodeInt(head[4..]);
    var r', name := dir.ReadData(offset + 8, len);
    return true, Dirent(name, nr), offset + 8 + len;
  }

  lemma ReadableMap(v: Vol, d: DInode)
    requires Readable(v, d)
    ensures WfInode(v.disk, d)
  {
  }

  /** The inode number of the live record with this name. */
  method DirNameToInodeNr(dir: Inode, name: seq<byte>, ghost ds: seq<Dirent>) returns (ret: int)
    requires Holds(dir, ds)
    modifies dir.sb.dev
    ensures Holds(dir, ds) && dir.sb.Vol() == old(dir.sb.Vol())
    ensures ret == NrOf(ds, name)
  {
    hide Log, SuperBlock.Vol, SuperBlock.Valid, Contents, Readable;
    HoldsLog(dir, ds);
    OffsetOfEnd(ds);
    ret := -ENOENT;
    var offset := 0;
    ghost var k := 0;
    while ret < 0
      invariant Holds(dir, ds) && dir.sb.Vol() == old(dir.sb.Vol())
      invariant 0 <= k <= |ds| && offset == Offset(ds, k)
      invariant ret < 0 ==> ret == -ENOENT && FindFrom(ds, name, k) == FindFrom(ds, name, 0)
      invariant ret >= 0 ==> ret == NrOf(ds, name)
      decreases ret < 0, |ds| - k
    {
      var found, e, next := NextDirent(dir, offset, ds, k);
      if !found {
        return;
      }
      offset := next;
      if e.nr >= 0 && e.name == name {
        ret := e.nr;
      }
      k := k + 1;
    }
  }

  lemma HoldsLog(dir: Inode, ds: seq<Dirent>)
    requires Holds(dir, ds)
    ensures WfLog(ds) && dir.Ready() && dir.din.typ == I_DIR && dir.din.size == |Log(ds)|
    ensures Readable(dir.sb.Vol(), dir.din)
    ensures Contents(dir.sb.Vol().disk, dir.din) == Log(ds)
  {
  }

  /** The first record with this inode number. */
  method FindDirent(dir: Inode, nr: nat, ghost ds: seq<Dirent>) returns (found: bool, e: Dirent)
    requires Holds(dir, ds)
    modifies dir.sb.dev
    ensures Holds(dir, ds) && dir.sb.Vol() == old(dir.sb.Vol())
    ensures found <==> FindNr(ds, nr, 0) < |ds|
    ensures found ==> e == ds[FindNr(ds, nr, 0)]
  {
    hide Log, SuperBlock.Vol, SuperBlock.Valid, Contents, Readable;
    HoldsLog(dir, ds);
    OffsetOfEnd(ds);
    var offset := 0;
    ghost var k := 0;
    while true
      invariant Holds(dir, ds) && dir.sb.Vol() == old(dir.sb.Vol())
      invariant 0 <= k <= |ds| && offset == Offset(ds, k) && FindNr(ds, nr, k) == FindNr(ds, nr, 0)
      decreases |ds| - k
    {
      var next;
      found, e, next := NextDirent(dir, offset, ds, k);
      if !found || e.nr == nr {
        return;
      }
      offset := next;
      k := k + 1;
    }
  }

  /** Finds the live record with this name, and where it starts. */
  method FindRecord(dir: Inode, name: seq<byte>, ghost ds: seq<Dirent>) returns (found: bool, e: Dirent, at: nat)
    requires Holds(dir, ds)
    modifies dir.sb.dev
    ensures Holds(dir, ds) && dir.sb.Vol() == old(dir.sb.Vol())
    ensures found <==> FindFrom(ds, name, 0) < |ds|
    ensures found ==> e == ds[FindFrom(ds, name, 0)] && at == Offset(ds, FindFrom(ds, name, 0))
  {
    hide Log, SuperBlock.Vol, SuperBlock.Valid, Contents, Readable;
    HoldsLog(dir, ds);
    OffsetOfEnd(ds);
    var offset := 0;
    ghost var k := 0;
    while true
      invariant Holds(dir, ds) && dir.sb.Vol() == old(dir.sb.Vol())
      invariant 0 <= k <= |ds| && offset == Offset(ds, k) && FindFrom(ds, name, k) == FindFrom(ds, name, 0)
      decreases |ds| - k
    {
      at := offset;
      var next;
      found, e, next := NextDirent(dir, offset, ds, k);
      if !found || (e.nr >= 0 && e.name == name) {
        return;
      }
      offset := next;
      k := k + 1;
    }
  }

  /** A live record that is neither `.` nor `..`. */
  predicate NamesOther(e: Dirent) {
    Live(e) && e.name != DOT && e.name != DOTDOT
  }

  /** Whether the directory holds anything but its two leading records. */
  method AnyOther(dir: Inode, ghost ds: seq<Dirent>) returns (any: bool)
    requires Holds(dir, ds)
    modifies dir.sb.dev
    ensures Holds(dir, ds) && dir.sb.Vol() == old(dir.sb.Vol())
    ensures any <==> exists k :: 0 <= k < |ds| && NamesOther(ds[k])
  {
    hide Log, SuperBlock.Vol, SuperBlock.Valid, Contents, Readable;
    HoldsLog(dir, ds);
    OffsetOfEnd(ds);
    var offset := 0;
    ghost var k := 0;
    any := false;
    while !any
      invariant Holds(dir, ds) && dir.sb.Vol() == old(dir.sb.Vol())
      invariant 0 <= k <= |ds| && offset == Offset(ds, k)
      invariant !any ==> forall j :: 0 <= j < k ==> !NamesOther(ds[j])
      invariant any ==> exists j :: 0 <= j < |ds| && NamesOther(ds[j])
      decreases !any, |ds| - k
    {
      var found, e, next := NextDirent(dir, offset, ds, k);
      if !found {
        return;
      }
      any := NamesOther(e);
      offset := next;
      k := k + 1;
    }
  }

  /** One inode went through a complete operation and now has these bytes. */
  ghost predicate Changed(v: Vol, d: DInode, v': Vol, d': DInode, bytes: seq<byte>) {
    && Sound(v', d') && d.size >= 0 && d'.typ == d.typ && Contents(v'.disk, d') == bytes
    && OwnStep(v, Own(v.disk, d, BlocksFor(d.size)), v', Own(v'.disk, d', BlocksFor(d'.size)))
  }

  lemma ChangedBytes(v: Vol, d: DInode, v': Vol, d': DInode, bytes: seq<byte>)
    requires Changed(v, d, v', d', bytes)
    ensures d'.size == |bytes| && Contents(v'.disk, d') == bytes
  {
    hide Own, OwnStep, Mapped, CsumOk;
  }

  /** The growth of the file is paid for with free blocks. */
  ghost predicate TookBlocks(v: Vol, d: DInode, v': Vol, d': DInode) {
    && d.size >= 0 && d'.size >= 0
    && Took(v, v', Cost(d.indirect != 0, BlocksFor(d.size), BlocksFor(d'.size)))
  }

  lemma ChangedByWrite(v: Vol, d: DInode, start: nat, buf: seq<byte>, v': Vol, d': DInode)
    requires Sound(v, d) && start <= d.size && buf != [] && Wrote(v, d, start, buf, v', d')
    ensures Changed(v, d, v', d', Overlay(Contents(v.disk, d), start, buf)) && TookBlocks(v, d, v', d')
  {
    hide Own, OwnStep, Contents, Overlay, Bitmap.Zeros;
    AfterWrite(v, d, start, buf, v', d');
  }

  lemma ChangedByRollback(v: Vol, d: DInode, start: nat, buf: seq<byte>, v': Vol, d': DInode)
    requires Sound(v, d) && start <= d.size && RolledBack(v, d, start, buf, v', d')
    ensures Changed(v, d, v', d', Contents(v.disk, d)[..start] + buf[..d.size - start])
  {
    hide Own, OwnStep, Contents;
  }

  /** How adding a record ends that is not there yet, for a directory of `size` bytes. */
  function AddOutcome(ds: seq<Dirent>, name: seq<byte>, size: nat, indirect: bool, room: Room): Outcome {
    if AddFrom(ds, name, 0) < |ds| then Done else WriteOutcome(size, indirect, LastBlock(size, 8 + |name|), room)
  }

  /** Writes a record at the start of record `k`, or behind the last one. */
  method WriteDirent(dir: Inode, name: seq<byte>, nr: int32, offset: nat, ghost ds: seq<Dirent>, ghost k: nat)
    returns (r: Outcome)
    requires Holds(dir, ds) && k <= |ds| && offset == Offset(ds, k) && IsName(name) && Sound(dir.sb.Vol(), dir.din)
    requires k < |ds| ==> |name| == |ds[k].name|
    requires CsumClean(dir.sb.Vol().disk, dir.sb.csumTable, dir.sb.csumDirty)
    modifies dir`din, dir`dirty, dir.sb`csumTable, dir.sb.dev, dir.sb.blockFreemap.v
    ensures dir.Ready()
    ensures !r.Aborted? ==> dir.dirty
    ensures r == Done ==> WfLog(WithSlot(ds, k, name, nr))
    ensures r == Done ==>
      Changed(old(dir.sb.Vol()), old(dir.din), dir.sb.Vol(), dir.din, Log(WithSlot(ds, k, name, nr)))
    ensures r == Done ==> TookBlocks(old(dir.sb.Vol()), old(dir.din), dir.sb.Vol(), dir.din)
    ensures r.Failed? ==> Changed(old(dir.sb.Vol()), old(dir.din), dir.sb.Vol(), dir.din, Log(ds))
    ensures r.Failed? ==> r.errno == ENOSPC || r.errno == EFBIG
    ensures k < |ds| ==> r == Done
    ensures r == WriteOutcome(old(dir.din.size), old(dir.din.indirect) != 0, LastBlock(offset, 8 + |name|),
      RoomOf(old(dir.sb.Vol())))
    ensures !r.Aborted? ==> CsumClean(dir.sb.Vol().disk, dir.sb.csumTable, dir.sb.csumDirty)
  {
    hide Log, SuperBlock.Vol, SuperBlock.Valid, Contents, Wrote, RolledBack, Overlay, Sound, WfMap, CsumOk;
    hide CsumClean, Bitmap.Zeros, Slots;
    ghost var v, d := dir.sb.Vol(), dir.din;
    var e := Dirent(name, nr);
    OffsetOfEnd(ds);
    if k < |ds| {
      OverlaySlot(ds, k, e);
    } else {
      OverlayEnd(ds, e);
      assert ds[..k] == ds;
    }
    SoundBound(v, d);
    if k < |ds| {
      InsideWrite(d.size, d.indirect != 0, offset, |Ser(e)|, RoomOf(v));
    } else {
      assert Log(ds)[..offset] + Ser(e)[..d.size - offset] == Log(ds);
    }
    r := dir.WriteData(offset, Ser(e));
    if r == Done {
      ChangedByWrite(v, d, offset, Ser(e), dir.sb.Vol(), dir.din);
    } else if r.Failed? {
      ChangedByRollback(v, d, offset, Ser(e), dir.sb.Vol(), dir.din);
    }
  }

  /** A write inside the file finds all its blocks mapped. */
  lemma InsideWrite(size: nat, indirect: bool, start: nat, len: nat, room: Room)
    requires 0 < len && start + len <= size && BlocksFor(size) <= NR_MAPPED && (BlocksFor(size) > 4 ==> indirect)
    ensures LastBlock(start, len) < BlocksFor(size)
    ensures WriteOutcome(size, indirect, LastBlock(start, len), room) == Done
  {
  }

  /** The log with record `k` replaced, or one added behind the last. */
  function WithSlot(ds: seq<Dirent>, k: nat, name: seq<byte>, nr: int32): seq<Dirent>
    requires k <= |ds|
  {
    if k < |ds| then ds[k := Dirent(name, nr)] else ds + [Dirent(name, nr)]
  }

  /** Adds a record for `name`, in the first tombstone of the same length if there is one. */
  method AddDirent(dir: Inode, name: seq<byte>, nr: int32, ghost ds: seq<Dirent>) returns (r: Outcome)
    requires Holds(dir, ds) && IsName(name) && nr >= 0 && Sound(dir.sb.Vol(), dir.din)
    requires CsumClean(dir.sb.Vol().disk, dir.sb.csumTable, dir.sb.csumDirty)
    modifies dir`din, dir`dirty, dir.sb`csumTable, dir.sb.dev, dir.sb.blockFreemap.v
    ensures dir.Ready()
    ensures r == Done ==> dir.dirty && WfLog(Added(ds, name, nr))
    ensures r == Done ==> Changed(old(dir.sb.Vol()), old(dir.din), dir.sb.Vol(), dir.din, Log(Added(ds, name, nr)))
    ensures r == Done ==> TookBlocks(old(dir.sb.Vol()), old(dir.din), dir.sb.Vol(), dir.din)
    ensures var k := AddFrom(ds, name, 0); r == Failed(EEXIST) <==> k < |ds| && Live(ds[k])
    ensures r == Failed(EEXIST) ==>
      dir.sb.Vol() == old(dir.sb.Vol()) && dir.din == old(dir.din) && dir.dirty == old(dir.dirty)
    ensures r.Failed? && r.errno != EEXIST ==> dir.dirty
    ensures r.Failed? && r.errno != EEXIST ==> Changed(old(dir.sb.Vol()), old(dir.din), dir.sb.Vol(), dir.din, Log(ds))
    ensures r == Failed(EEXIST)
      || r == AddOutcome(ds, name, old(dir.din.size), old(dir.din.indirect) != 0, RoomOf(old(dir.sb.Vol())))
    ensures !r.Aborted? ==> CsumClean(dir.sb.Vol().disk, dir.sb.csumTable, dir.sb.csumDirty)
  {
    hide Log, SuperBlock.Vol, SuperBlock.Valid, Changed, TookBlocks, WriteOutcome, LastBlock, Contents, CsumClean;
    hide Sound, Readable;
    HoldsLog(dir, ds);
    OffsetOfEnd(ds);
    var at, offset, stop := 0, 0, false;
    ghost var k := 0;
    while !stop
      invariant Holds(dir, ds) && dir.sb.Vol() == old(dir.sb.Vol())
      invariant 0 <= k <= |ds| && at == Offset(ds, k)
      invariant !stop ==> offset == at
      invariant AddFrom(ds, name, k) == AddFrom(ds, name, 0)
      invariant stop ==> k == AddFrom(ds, name, 0)
      invariant stop && k < |ds| ==> !Live(ds[k])
      modifies dir.sb.dev
      decreases !stop, |ds| - k
    {
      at := offset;
      var found, e, next := NextDirent(dir, offset, ds, k);
      offset := next;
      if !found {
        stop := true;
      } else if e.nr >= 0 && e.name == name {
        return Failed(EEXIST);
      } else if e.nr >= 0 || |e.name| != |name| {
        k := k + 1;
        at := offset;
      } else {
        stop := true;
      }
    }
    r := WriteDirent(dir, name, nr, at, ds, k);
  }
}
