/** Overwriting a file from an offset on and cutting it behind what was written. */
module FileOps {
  import opened Bytes
  import opened Layout
  import Bitmap
  import opened Volume
  import opened Super
  import opened Steps
  import opened Inodes
  import opened World
  import opened DirOps

  /** How overwriting ends. */
  function OverwriteOutcome(d: DInode, offset: nat, len: nat, room: Room): Outcome
    requires d.size >= 0
  {
    if offset > d.size then Aborted(WithinSize)
    else
      var o := WriteOutcome(d.size, d.indirect != 0, LastBlock(offset, len), room);
      if o == Done && Dangling(d) && offset + len < d.size then Aborted(NoIndirect) else o
  }

  /** The bytes of the file afterwards. A write that had to be undone has still replaced old bytes. */
  function Overwritten(bytes: seq<byte>, offset: nat, content: seq<byte>, done: bool): seq<byte>
    requires offset <= |bytes| && (!done ==> |bytes| - offset <= |content|)
  {
    if done then bytes[..offset] + content else bytes[..offset] + content[..|bytes| - offset]
  }

  /** `testfs_write_data` followed, when it succeeded, by `testfs_truncate_data`. */
  method Overwrite(in_: Inode, offset: nat, content: seq<byte>) returns (r: Outcome)
    requires in_.Ready() && Sound(in_.sb.Vol(), in_.din) && content != []
    requires CsumClean(in_.sb.Vol().disk, in_.sb.csumTable, in_.sb.csumDirty)
    modifies in_`din, in_`dirty, in_.sb`csumTable, in_.sb.dev, in_.sb.blockFreemap.v
    ensures in_.Ready() && r == OverwriteOutcome(old(in_.din), offset, |content|, RoomOf(old(in_.sb.Vol())))
    ensures !r.Aborted? ==> in_.dirty && CsumClean(in_.sb.Vol().disk, in_.sb.csumTable, in_.sb.csumDirty)
    ensures !r.Aborted? ==> offset <= old(in_.din.size) && (r != Done ==> old(in_.din.size) - offset <= |content|)
    ensures !r.Aborted? ==>
      var bytes := Overwritten(Contents(old(in_.sb.Vol().disk), old(in_.din)), offset, content, r == Done);
      Changed(old(in_.sb.Vol()), old(in_.din), in_.sb.Vol(), in_.din, bytes)
    ensures r == Done ==>
      && in_.din.size == offset + |content|
      && Contents(in_.sb.Vol().disk, in_.din) == Contents(old(in_.sb.Vol().disk), old(in_.din))[..offset] + content
    ensures r.Failed? ==>
      && in_.din.size == old(in_.din.size)
      && Contents(in_.sb.Vol().disk, in_.din)
         == Contents(old(in_.sb.Vol().disk), old(in_.din))[..offset] + content[..old(in_.din.size) - offset]
  {
    hide SuperBlock.Vol, SuperBlock.Valid, Contents, Wrote, RolledBack, Truncated, Sound, WfMap, CsumOk, CsumClean;
    hide Bitmap.Zeros;
    hide Changed, Own, WriteOutcome, LastBlock, TookBlocks, TableKept, Slots;
    ghost var v, d := in_.sb.Vol(), in_.din;
    SoundBound(v, d);
    r := in_.WriteData(offset, content);
    if r.Failed? {
      RolledBackFar(v, d, offset, content, in_.sb.Vol(), in_.din);
      ChangedByRollback(v, d, offset, content, in_.sb.Vol(), in_.din);
      ChangedBytes(v, d, in_.sb.Vol(), in_.din, Contents(v.disk, d)[..offset] + content[..d.size - offset]);
    }
    if r != Done {
      return;
    }
    ghost var v1, d1 := in_.sb.Vol(), in_.din;
    ChangedByWrite(v, d, offset, content, v1, d1);
    WroteSound(v, d, offset, content, v1, d1);
    r := in_.Truncate(|content| + offset);
    if r == Done {
      CutBehind(v, d, offset, content, v1, d1, in_.sb.Vol(), in_.din);
      ChangedBytes(v, d, in_.sb.Vol(), in_.din, Contents(v.disk, d)[..offset] + content);
      TableLengths(in_.sb);
      CsumCleanKept(v1.disk, in_.sb.Vol().disk, in_.sb.csumTable, in_.sb.csumDirty);
    }
  }

  lemma RolledBackFar(v: Vol, d: DInode, start: nat, buf: seq<byte>, v': Vol, d': DInode)
    requires d.size >= start && RolledBack(v, d, start, buf, v', d')
    ensures d.size - start <= |buf|
  {
  }

  lemma WroteSound(v: Vol, d: DInode, start: nat, buf: seq<byte>, v': Vol, d': DInode)
    requires Sound(v, d) && start <= d.size && buf != [] && Wrote(v, d, start, buf, v', d')
    ensures WfInode(v'.disk, d') && AllUsed(v', Own(v'.disk, d', BlocksFor(d'.size)))
    ensures d'.size == Max(d.size, start + |buf|)
    ensures start + |buf| < d.size ==> (Dangling(d') <==> Dangling(d))
  {
    hide Own, Contents, CsumAt, OwnStep, Lookup;
    AfterWrite(v, d, start, buf, v', d');
  }

  lemma CutBehind(v: Vol, d: DInode, start: nat, buf: seq<byte>, v1: Vol, d1: DInode, v2: Vol, d2: DInode)
    requires d.size >= 0 && start <= d.size && d1.size == Max(d.size, start + |buf|)
    requires Changed(v, d, v1, d1, Overlay(Contents(v.disk, d), start, buf))
    requires d1.size <= start + |buf| ==> v2 == v1 && d2 == d1
    requires d1.size > start + |buf| ==>
      Truncated(v1, d1, BlocksFor(d1.size), BlocksFor(start + |buf|), v2, d2)
      && d2 == d1.(direct := d2.direct, indirect := d2.indirect, size := start + |buf|)
    ensures Changed(v, d, v2, d2, Contents(v.disk, d)[..start] + buf) && TableKept(v1.disk, v2.disk)
  {
    hide Own, OwnStep, Contents, Truncated, Sound, TableKept;
    var was := Contents(v.disk, d);
    if d1.size > start + |buf| {
      AfterTruncate(v1, d1, start + |buf|, v2, d2);
      TruncatedTable(v1, d1, BlocksFor(d1.size), BlocksFor(start + |buf|), v2, d2);
      OwnStepTrans(v, Own(v.disk, d, BlocksFor(d.size)), v1, Own(v1.disk, d1, BlocksFor(d1.size)),
                   v2, Own(v2.disk, d2, BlocksFor(d2.size)));
      assert Overlay(was, start, buf)[..start + |buf|] == was[..start] + buf;
    } else {
      TableSame(v1.disk);
    }
  }

  lemma TableLengths(sb: SuperBlock)
    requires sb.Valid()
    ensures |sb.csumTable| == MAX_NR_CSUMS && |sb.csumDirty| == CSUM_TABLE_SIZE && sb.Vol().csum == sb.csumTable
  {
  }

  lemma TableSame(disk: Disk)
    ensures TableKept(disk, disk)
  {
  }
}
