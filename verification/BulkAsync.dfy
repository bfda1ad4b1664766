/** Saving many inodes at once with requests that stay in flight. */
module BulkAsync {
  import opened Bytes
  import opened Layout
  import opened Volume
  import Bitmap
  import opened Reactors
  import opened Device
  import opened Super
  import opened Inodes
  import opened Steps
  import opened AltPath
  import opened Bulk

  /** The changed indirect blocks. */
  ghost function TableBlocks(us: seq<Unsaved>): set<int> {
    set i | 0 <= i < |us| && us[i].tableDirty :: us[i].d.indirect as int
  }

  lemma TableBlocksGrow(us: seq<Unsaved>, i: nat)
    requires i < |us|
    ensures TableBlocks(us[..i + 1])
      == TableBlocks(us[..i]) + (if us[i].tableDirty then {us[i].d.indirect as int} else {})
  {
    var was, now := TableBlocks(us[..i]), TableBlocks(us[..i + 1]);
    forall p | p in now ensures p in was || (us[i].tableDirty && p == us[i].d.indirect) {
      var k :| 0 <= k < i + 1 && us[..i + 1][k].tableDirty && us[..i + 1][k].d.indirect == p;
      if k < i {
        assert us[..i][k] == us[..i + 1][k];
      }
    }
    forall p | p in was ensures p in now {
      var k :| 0 <= k < i && us[..i][k].tableDirty && us[..i][k].d.indirect == p;
      assert us[..i + 1][k] == us[..i][k];
    }
    if us[i].tableDirty {
      assert us[..i + 1][i] == us[i];
    }
  }

  /** The table of inode `i` is not one of those before it. */
  lemma TableIsNew(us: seq<Unsaved>, i: nat)
    requires Wf(us) && Distinct(us) && i < |us| && us[i].tableDirty
    ensures us[i].d.indirect !in TableBlocks(us[..i]) && IsData(us[i].d.indirect) && us[i].d.indirect in TableBlocks(us)
  {
    forall k | 0 <= k < i && us[..i][k].tableDirty ensures us[..i][k].d.indirect != us[i].d.indirect {
      assert us[k].nr != us[i].nr;
    }
  }

  /** Issues the writes of the changed indirect blocks. */
  method FlushTablesAsync(sb: SuperBlock, f: nat, inodes: seq<Inode>, ghost us: seq<Unsaved>, ghost out: set<int>)
    requires sb.Valid() && Tells(inodes, us) && Distinct(us)
    requires forall i :: 0 <= i < |inodes| ==> inodes[i].indirectDirty == us[i].tableDirty
    requires forall i, j :: 0 <= i < j < |inodes| ==> inodes[i] != inodes[j]
    requires f < |sb.dev.s.futures| && Flying(sb.dev.s, f, out, 0, {}) && out !! TableBlocks(us)
    modifies SetOf(inodes)`indirectDirty, sb.dev
    ensures sb.Valid() && sb.Vol() == WithDisk(old(sb.Vol()), TablesWritten(old(sb.Vol().disk), us))
    ensures Inv(old(sb.dev.s)) && Issued(old(sb.dev.s), sb.dev.s, f, TableBlocks(us))
    ensures forall i :: 0 <= i < |inodes| ==> !inodes[i].indirectDirty
    ensures sb.dev.readLog == old(sb.dev.readLog) && sb.dev.writeLog == old(sb.dev.writeLog) + OneEach(DirtyTables(us))
  {
    hide OfInts, TableWritten, SuperBlock.Vol, SuperBlock.Valid, WithIndirect, Issued, Flying, TableBlocks;
    hide Distinct, OneEach, DirtyTables;
    NoDirtyTables(us);
    ghost var v, s0 := sb.Vol(), sb.dev.s;
    DeviceValid(sb);
    IssuedNothing(s0, f);
    NoTableBlocks(us);
    var i := 0;
    while i < |inodes|
      invariant 0 <= i <= |inodes| && sb.Valid()
      invariant sb.Vol() == WithDisk(v, TablesWritten(v.disk, us[..i]))
      invariant Issued(s0, sb.dev.s, f, TableBlocks(us[..i])) && f < |sb.dev.s.futures|
      invariant forall j :: 0 <= j < i ==> !inodes[j].indirectDirty
      invariant forall j :: i <= j < |inodes| ==> inodes[j].indirectDirty == us[j].tableDirty
      invariant sb.dev.readLog == old(sb.dev.readLog)
      invariant sb.dev.writeLog == old(sb.dev.writeLog) + OneEach(DirtyTables(us[..i]))
    {
      TablesGrow(v.disk, us, i);
      RequestsGrow(us, i, old(sb.dev.writeLog));
      FlushTableAsync(sb, f, inodes[i], us, i, TablesWritten(v.disk, us[..i]), s0, out);
      i := i + 1;
    }
    assert us[..i] == us;
  }

  lemma NoTableBlocks(us: seq<Unsaved>)
    ensures TableBlocks(us[..0]) == {}
  {
  }

  method FlushTableAsync(sb: SuperBlock, f: nat, in_: Inode, ghost us: seq<Unsaved>, ghost i: nat, ghost disk: Disk,
                         ghost s0: Io, ghost out: set<int>)
    requires sb.Valid() && Wf(us) && Distinct(us) && i < |us| && sb.Vol().disk == disk
    requires in_.indirectDirty == us[i].tableDirty && in_.din == us[i].d && in_.indirect == us[i].table
    requires Inv(s0) && Flying(s0, f, out, 0, {}) && out !! TableBlocks(us) && f < |sb.dev.s.futures|
    requires Issued(s0, sb.dev.s, f, TableBlocks(us[..i]))
    modifies in_`indirectDirty, sb.dev
    ensures sb.Valid() && sb.Vol() == WithDisk(old(sb.Vol()), TableWritten(disk, us[i])) && !in_.indirectDirty
    ensures Issued(s0, sb.dev.s, f, TableBlocks(us[..i + 1])) && f < |sb.dev.s.futures|
    ensures sb.dev.readLog == old(sb.dev.readLog)
    ensures sb.dev.writeLog == old(sb.dev.writeLog) + if us[i].tableDirty then [Extent(us[i].d.indirect, 1)] else []
  {
    hide OfInts, SuperBlock.Vol, SuperBlock.Valid, Issued, Flying, TableBlocks, MayWrite, MayRead, Distinct;
    TableIs(disk, us[i]);
    TableBlocksGrow(us, i);
    if in_.indirectDirty {
      ghost var s1 := sb.dev.s;
      TableIsNew(us, i);
      MayIssue(s0, s1, f, out, 0, {}, TableBlocks(us[..i]), in_.din.indirect);
      IssueWrite(sb, METADATA_REACTOR, f, OfInts(in_.indirect), in_.din.indirect);
      IssuedTrans(s0, s1, TableBlocks(us[..i]), sb.dev.s, {in_.din.indirect as int}, f);
      in_.indirectDirty := false;
    } else {
      assert TableBlocks(us[..i]) + {} == TableBlocks(us[..i]);
    }
  }

  ghost function Blocks(written: seq<int>): set<int> {
    set b | b in written
  }

  lemma BlocksMore(written: seq<int>, cur: int)
    ensures Blocks(written + [cur]) == Blocks(written) + {cur}
  {
  }

  /** Issues the write of the block that was being built, if any, and reads the next. */
  method TurnToAsync(sb: SuperBlock, f: nat, readF: nat, cur: int, block: Block, next: int,
                     ghost s0: Io, ghost out: set<int>, ghost written: seq<int>) returns (b: Block)
    requires sb.Valid() && (cur == -1 || INODE_START <= cur < DATA_START) && INODE_START <= next < DATA_START
      && next != cur
    requires Inv(s0) && Flying(s0, f, out, 0, {}) && Issued(s0, sb.dev.s, f, Blocks(written))
    requires cur !in out && cur !in written && next !in out && next !in written
    requires f < |sb.dev.s.futures| && readF < |sb.dev.s.futures| && readF != f && !PendingOn(sb.dev.s, readF)
    modifies sb.dev
    ensures sb.Valid() && sb.Vol() == WithDisk(old(sb.Vol()), sb.Vol().disk)
    ensures Pending(sb.Vol().disk, next, b) == Pending(old(sb.Vol().disk), cur, block)
    ensures f < |sb.dev.s.futures| && readF < |sb.dev.s.futures| && !PendingOn(sb.dev.s, readF)
    ensures Issued(s0, sb.dev.s, f, Blocks(Fetched(written, cur)))
    ensures sb.dev.readLog == old(sb.dev.readLog) + [Extent(next, 1)]
    ensures sb.dev.writeLog == old(sb.dev.writeLog) + if cur == -1 then [] else [Extent(cur, 1)]
  {
    hide SuperBlock.Vol, SuperBlock.Valid, Issued, Flying, MayWrite, MayRead, PendingOn, Quiet;
    ghost var ps := Blocks(written);
    if cur != -1 {
      ghost var s1 := sb.dev.s;
      MayIssue(s0, s1, f, out, 0, {}, ps, cur);
      IssueWrite(sb, METADATA_REACTOR, f, block, cur);
      IssuedTrans(s0, s1, ps, sb.dev.s, {cur}, f);
      IssuedElsewhere(s1, sb.dev.s, f, {cur}, readF);
      ps := ps + {cur};
    }
    ghost var s2 := sb.dev.s;
    MayIssue(s0, s2, f, out, 0, {}, ps, next);
    b := ReadNow(sb, METADATA_REACTOR, readF, next);
    QuietIssued(s2, sb.dev.s, f);
    IssuedTrans(s0, s2, ps, sb.dev.s, {}, f);
    assert ps + {} == ps;
    BlocksMore(written, cur);
  }

  lemma IssuedElsewhere(s: Io, s': Io, f: nat, ps: set<int>, g: nat)
    requires Inv(s) && Issued(s, s', f, ps) && g != f && !PendingOn(s, g)
    ensures !PendingOn(s', g)
  {
    hide PendingOn, WritingOn, ReadingOn, Into, FinalBuf;
  }

  /** Issues the writes of the dinodes, reading and writing every inode block once. */
  method FlushDInodesAsync(sb: SuperBlock, f: nat, inodes: seq<Inode>, ghost us: seq<Unsaved>, ghost out: set<int>)
    returns (ghost written: seq<int>)
    requires sb.Valid() && Tells(inodes, us) && |inodes| > 0 && Sorted(inodes)
    requires f < |sb.dev.s.futures| && Flying(sb.dev.s, f, out, 0, {}) && forall p :: p in out ==> IsData(p)
    modifies SetOf(inodes)`dirty, sb.dev
    ensures sb.Valid() && sb.Vol() == WithDisk(old(sb.Vol()), DInodesWritten(old(sb.Vol().disk), us))
    ensures forall i :: 0 <= i < |inodes| ==> !inodes[i].dirty
    ensures EachOnce(written, inodes)
    ensures Inv(old(sb.dev.s)) && Issued(old(sb.dev.s), sb.dev.s, f, Blocks(written))
    ensures sb.dev.readLog == old(sb.dev.readLog) + OneEach(written)
    ensures sb.dev.writeLog == old(sb.dev.writeLog) + OneEach(written)
  {
    hide EncodeDInode, SuperBlock.Vol, SuperBlock.Valid, BlockNr, Sorted, WrittenSoFar, EachOnce, WithDInode;
    hide Pending, DInodesWritten, SetOf, Wf;
    hide Issued, Flying, MayWrite, MayRead, PendingOn, Quiet, OneEach, Fetched;
    ghost var v, s0 := sb.Vol(), sb.dev.s;
    DeviceValid(sb);
    NoDInodeYet(v.disk, us);
    var readF := NewFuture(sb);
    StartReading(s0, sb.dev.s, f, readF);
    var cur, block, i := -1, ZERO_BLOCK, 0;
    written := [];
    NothingWritten(inodes);
    assert Blocks([]) == {};
    while i < |inodes|
      invariant 0 <= i <= |inodes| && sb.Valid()
      invariant sb.Vol() == WithDisk(v, sb.Vol().disk)
      invariant Pending(sb.Vol().disk, cur, block) == DInodesWritten(v.disk, us[..i])
      invariant forall j :: 0 <= j < i ==> !inodes[j].dirty
      invariant WrittenSoFar(written, inodes, i, cur) && (cur == -1 || INODE_START <= cur < DATA_START)
      invariant Issued(s0, sb.dev.s, f, Blocks(written))
      invariant sb.dev.writeLog == old(sb.dev.writeLog) + OneEach(written)
      invariant sb.dev.readLog == old(sb.dev.readLog) + OneEach(Fetched(written, cur))
      invariant f < |sb.dev.s.futures| && readF < |sb.dev.s.futures| && !PendingOn(sb.dev.s, readF) && readF != f
    {
      var blockNr := INODE_START + BlockNr(inodes[i]);
      NextCluster(written, inodes, i, cur, blockNr);
      InodeBlockIs(inodes[i]);
      NotWrittenYet(written, inodes, i, cur, blockNr);
      if blockNr != cur {
        NextRequests(written, cur, blockNr);
        block := TurnToAsync(sb, f, readF, cur, block, blockNr, s0, out, written);
        written := Fetched(written, cur);
        cur := blockNr;
      }
      CollectOne(v.disk, us, i, sb.Vol().disk, cur, block);
      block := EncodeDInode(block, inodes[i].nr, inodes[i].din);
      MayClean(inodes, i);
      inodes[i].dirty := false;
      i := i + 1;
    }
    assert us[..i] == us;
    LastCluster(written, inodes, cur);
    NotWrittenLast(written, inodes, cur);
    NextRequests(written, cur, cur);
    PendingIs(sb.Vol().disk, cur, block);
    ghost var s1, ps := sb.dev.s, Blocks(written);
    MayIssue(s0, s1, f, out, 0, {}, ps, cur);
    IssueWrite(sb, METADATA_REACTOR, f, block, cur);
    IssuedTrans(s0, s1, ps, sb.dev.s, {cur}, f);
    BlocksMore(written, cur);
    written := Fetched(written, cur);
  }

  lemma StartReading(s: Io, s': Io, f: nat, readF: nat)
    requires Inv(s) && Quiet(s, s') && f < |s.futures| && readF < |s'.futures| && !PendingOn(s', readF)
    ensures Issued(s, s', f, {}) && f < |s'.futures|
  {
    QuietIssued(s, s', f);
  }

  lemma NotWrittenYet(written: seq<int>, s: seq<Inode>, i: nat, cur: int, next: int)
    requires i < |s| && Sorted(s) && WrittenSoFar(written, s, i, cur) && next == INODE_START + BlockNr(s[i])
    ensures cur !in written && next !in written
  {
    if i > 0 {
      assert BlockNr(s[i - 1]) <= BlockNr(s[i]);
    }
  }

  lemma NotWrittenLast(written: seq<int>, s: seq<Inode>, cur: int)
    requires WrittenSoFar(written, s, |s|, cur)
    ensures cur !in written
  {
  }

  /** Sorts the inodes and issues the writes of their dinodes. */
  method SortAndFlushAsync(sb: SuperBlock, f: nat, inodes: array<Inode>, ghost us: seq<Unsaved>, ghost out: set<int>)
    returns (ghost written: seq<int>)
    requires sb.Valid() && Wf(us) && Distinct(us) && TablesDone(us, ListOf(inodes[..])) && inodes.Length > 0
    requires forall i :: 0 <= i < inodes.Length ==> !inodes[i].indirectDirty
    requires f < |sb.dev.s.futures| && Flying(sb.dev.s, f, out, 0, {}) && forall p :: p in out ==> IsData(p)
    modifies inodes, SetOf(inodes[..])`dirty, sb.dev
    ensures sb.Valid() && sb.Vol() == WithDisk(old(sb.Vol()), DInodesWritten(old(sb.Vol().disk), us))
    ensures multiset(inodes[..]) == multiset(old(inodes[..])) && EachOnce(written, inodes[..])
    ensures forall i :: 0 <= i < inodes.Length ==>
      !inodes[i].dirty && !inodes[i].indirectDirty && inodes[i].nr < NR_INODES
    ensures Inv(old(sb.dev.s)) && Issued(old(sb.dev.s), sb.dev.s, f, Blocks(written))
    ensures sb.dev.readLog == old(sb.dev.readLog) + OneEach(written)
    ensures sb.dev.writeLog == old(sb.dev.writeLog) + OneEach(written)
  {
    hide SuperBlock.Vol, SuperBlock.Valid, ListOf, DInodesWritten, EachOnce, Distinct, Wf, TablesDone, Flying, Issued;
    ghost var v, all, cs := sb.Vol(), inodes[..], ListOf(inodes[..]);
    SortByBlock(inodes);
    SameMembers(inodes[..], all);
    ListPermuted(all, inodes[..]);
    assert ListOf(all) == cs;
    DInodesAnyOrder(v.disk, us, cs, ListOf(inodes[..]));
    ListTells(inodes[..]);
    NumbersFit(inodes[..]);
    written := FlushDInodesAsync(sb, f, inodes[..], ListOf(inodes[..]), out);
    forall i | 0 <= i < inodes.Length ensures !inodes[i].dirty && !inodes[i].indirectDirty && inodes[i].nr < NR_INODES {
      assert inodes[i] == inodes[..][i] && inodes[i] in SetOf(inodes[..]);
    }
  }

  lemma NumbersFit(s: seq<Inode>)
    requires Wf(ListOf(s))
    ensures forall i :: 0 <= i < |s| ==> s[i].nr < NR_INODES
  {
    hide ListOf;
    forall i | 0 <= i < |s| ensures s[i].nr < NR_INODES {
      ListAt(s, i);
      assert WfUnsaved(ListOf(s)[i]);
    }
  }

  /** The blocks that saving these inodes writes. */
  ghost predicate SavedIn(ps: set<int>, us: seq<Unsaved>) {
    forall p :: p in ps ==> p in TableBlocks(us) || INODE_START <= p < DATA_START
  }

  /**
   * Saves all inodes with requests that stay in flight on `f`: the device settles to what the synchronous
   * form leaves. No inode block is in flight when it is read, because each comes up once.
   */
  method BulkSyncAsync(sb: SuperBlock, f: nat, inodes: array<Inode>, ghost out: set<int>)
    returns (ghost written: seq<int>, ghost ps: set<int>)
    requires sb.Valid() && Wf(ListOf(inodes[..])) && Distinct(ListOf(inodes[..]))
    requires f < |sb.dev.s.futures| && Flying(sb.dev.s, f, out, 0, {}) && forall p :: p in out ==> IsData(p)
    requires out !! TableBlocks(ListOf(inodes[..]))
    modifies inodes, SetOf(inodes[..])`dirty, SetOf(inodes[..])`indirectDirty, sb.dev
    ensures sb.Valid()
    ensures sb.Vol() == WithDisk(old(sb.Vol()), SyncedOneByOne(old(sb.Vol().disk), old(ListOf(inodes[..]))))
    ensures multiset(inodes[..]) == multiset(old(inodes[..]))
    ensures forall i :: 0 <= i < inodes.Length ==> !inodes[i].dirty && !inodes[i].indirectDirty
    ensures EachOnce(written, inodes[..]) && sb.dev.readLog == old(sb.dev.readLog) + OneEach(written)
    ensures sb.dev.writeLog == old(sb.dev.writeLog) + OneEach(DirtyTables(old(ListOf(inodes[..])))) + OneEach(written)
    ensures Inv(old(sb.dev.s)) && Issued(old(sb.dev.s), sb.dev.s, f, ps) && SavedIn(ps, old(ListOf(inodes[..])))
  {
    hide SuperBlock.Vol, SuperBlock.Valid, ListOf, TablesWritten, DInodesWritten, SyncedOneByOne, EachOnce;
    hide Distinct, Wf, TablesDone;
    hide Flying, Issued, TableBlocks, Blocks, SavedIn, OneEach, DirtyTables;
    ghost var us, v, all, s0 := ListOf(inodes[..]), sb.Vol(), inodes[..], sb.dev.s;
    DeviceValid(sb);
    written, ps := [], {};
    if inodes.Length == 0 {
      EmptyList(inodes[..]);
      OfNothing(sb.Vol().disk);
      IssuedNothing(s0, f);
      NoRequests();
      NothingSaved(us);
      return;
    }
    ListTells(all);
    FlushTablesAsync(sb, f, inodes[..], us, out);
    ListDone(all, us);
    TablesFirst(v.disk, us);
    ghost var s1 := sb.dev.s;
    FlyingMore(s0, s1, f, out, TableBlocks(us));
    IssuedGrows(s0, s1, f, TableBlocks(us));
    TablesAreData(us);
    written := SortAndFlushAsync(sb, f, inodes, us, out + TableBlocks(us));
    IssuedTrans(s0, s1, TableBlocks(us), sb.dev.s, Blocks(written), f);
    ps := TableBlocks(us) + Blocks(written);
    SavedWhere(us, written, inodes[..]);
  }

  lemma NothingSaved(us: seq<Unsaved>)
    ensures SavedIn({}, us)
  {
  }

  lemma TablesAreData(us: seq<Unsaved>)
    requires Wf(us)
    ensures forall p :: p in TableBlocks(us) ==> IsData(p)
  {
  }

  lemma SavedWhere(us: seq<Unsaved>, written: seq<int>, s: seq<Inode>)
    requires EachOnce(written, s) && forall i :: 0 <= i < |s| ==> s[i].nr < NR_INODES
    ensures SavedIn(TableBlocks(us) + Blocks(written), us)
  {
    hide TableBlocks;
    forall b | b in written ensures INODE_START <= b < DATA_START {
      assert HoldsOne(b, s);
    }
  }

  /** Issues the write of the whole block freemap. */
  method FlushBlockFreemapAsync(sb: SuperBlock, f: nat)
    requires sb.Valid() && f < |sb.dev.s.futures| && MayWrite(sb.dev.s, 2, 2)
    modifies sb.dev
    ensures sb.Valid() && Inv(old(sb.dev.s)) && Issued(old(sb.dev.s), sb.dev.s, f, {2, 3})
    ensures var v := old(sb.Vol()); sb.Vol() == WithDisk(v, WithFreemap(v.disk, v.used))
  {
    hide WritingOn, ReadingOn, PendingOn, Into, FinalBuf, Settled, Bitmap.FreemapBlock, Bitmap.BitsOf;
    ghost var s0 := sb.dev.s;
    Bitmap.FreemapBytes(sb.blockFreemap.v[..], NR_BLOCK_BITS, 0);
    Bitmap.FreemapBytes(sb.blockFreemap.v[..], NR_BLOCK_BITS, 1);
    var a: Block := sb.blockFreemap.v[..512];
    var b: Block := sb.blockFreemap.v[512..];
    assert a == sb.blockFreemap.v[..][512 * 0..512 * (0 + 1)] && b == sb.blockFreemap.v[..][512 * 1..512 * (1 + 1)];
    sb.dev.WriteBlocksAsync(METADATA_REACTOR, f, [a, b], 2);
    assert Put(Settled(s0), 2, [a, b]) == Settled(s0)[2 := a][3 := b];
  }

  /** Both blocks of the block freemap written. */
  function WithFreemap(disk: Disk, used: seq<bool>): Disk
    requires |used| == NR_BLOCK_BITS
  {
    disk[2 := Bitmap.FreemapBlock(used, 0)][3 := Bitmap.FreemapBlock(used, 1)]
  }

  /** The dirty ones among the first `n` blocks of the checksum table. */
  function DirtyPieces(dirty: seq<bool>, n: nat): seq<int>
    requires n <= |dirty|
  {
    if n == 0 then [] else DirtyPieces(dirty, n - 1) + if dirty[n - 1] then [CSUM_START + n - 1] else []
  }

  lemma NextPiece(v: Vol, dirty: seq<bool>, nr: nat)
    requires |dirty| == CSUM_TABLE_SIZE && nr < CSUM_TABLE_SIZE
    ensures CsumFlushed(v.disk, v.csum, dirty, 0) == v.disk && OneEach(DirtyPieces(dirty, 0)) == []
    ensures CsumFlushed(v.disk, v.csum, dirty, nr + 1) == if dirty[nr]
      then CsumFlushed(v.disk, v.csum, dirty, nr)[4 + nr := TableBlock(v.csum, nr)]
      else CsumFlushed(v.disk, v.csum, dirty, nr)
    ensures OneEach(DirtyPieces(dirty, nr + 1))
      == OneEach(DirtyPieces(dirty, nr)) + if dirty[nr] then [Extent(4 + nr, 1)] else []
  {
    hide TableBlock;
    OneMore(DirtyPieces(dirty, nr), CSUM_START + nr);
  }

  /** Issues the writes of the dirty blocks of the checksum table, and of no others. */
  method FlushCsumAsync(sb: SuperBlock, f: nat, ghost out: set<int>) returns (ghost ps: set<int>)
    requires sb.Valid() && f < |sb.dev.s.futures|
    requires Flying(sb.dev.s, f, out, 0, {}) && forall p :: p in out ==> !(4 <= p < INODE_START)
    modifies sb`csumDirty, sb.dev
    ensures sb.Valid() && sb.csumDirty == seq(CSUM_TABLE_SIZE, _ => false)
    ensures sb.Vol() == WithDisk(old(sb.Vol()),
      CsumFlushed(old(sb.Vol().disk), sb.csumTable, old(sb.csumDirty), CSUM_TABLE_SIZE))
    ensures Inv(old(sb.dev.s)) && Issued(old(sb.dev.s), sb.dev.s, f, ps)
    ensures forall p :: p in ps <==> 4 <= p < INODE_START && old(sb.csumDirty)[p - 4]
    ensures sb.dev.writeLog == old(sb.dev.writeLog) + OneEach(DirtyPieces(old(sb.csumDirty), CSUM_TABLE_SIZE))
  {
    hide OfInts, TableBlock, Issued, Flying, MayWrite, MayRead, CsumFlushed, OneEach, DirtyPieces;
    ghost var s0, v, dirty := sb.dev.s, sb.Vol(), sb.csumDirty;
    NextPiece(v, dirty, 0);
    DeviceValid(sb);
    IssuedNothing(s0, f);
    ps := {};
    var nr := 0;
    while nr < CSUM_TABLE_SIZE
      invariant 0 <= nr <= CSUM_TABLE_SIZE && sb.Valid() && f < |sb.dev.s.futures|
      invariant forall k: nat :: k < CSUM_TABLE_SIZE ==> sb.csumDirty[k] == (k >= nr && dirty[k])
      invariant sb.Vol() == WithDisk(v, CsumFlushed(v.disk, v.csum, dirty, nr))
      invariant Issued(s0, sb.dev.s, f, ps) && forall p :: p in ps <==> 4 <= p < 4 + nr && dirty[p - 4]
      invariant sb.dev.writeLog == old(sb.dev.writeLog) + OneEach(DirtyPieces(dirty, nr))
    {
      NextPiece(v, dirty, nr);
      if sb.csumDirty[nr] {
        IssuePiece(sb, f, nr, s0, out, ps);
        ps := ps + {4 + nr};
      }
      nr := nr + 1;
    }
  }

  /** Issues the write of one dirty block of the table. */
  method IssuePiece(sb: SuperBlock, f: nat, nr: nat, ghost s0: Io, ghost out: set<int>, ghost ps: set<int>)
    requires sb.Valid() && f < |sb.dev.s.futures| && nr < CSUM_TABLE_SIZE && 4 + nr !in out && 4 + nr !in ps
    requires Inv(s0) && Flying(s0, f, out, 0, {}) && Issued(s0, sb.dev.s, f, ps)
    modifies sb`csumDirty, sb.dev
    ensures sb.Valid() && sb.csumDirty == old(sb.csumDirty)[nr := false] && f < |sb.dev.s.futures|
    ensures sb.Vol() == WithDisk(old(sb.Vol()), old(sb.Vol().disk)[4 + nr := TableBlock(sb.csumTable, nr)])
    ensures Issued(s0, sb.dev.s, f, ps + {4 + nr})
    ensures sb.dev.writeLog == old(sb.dev.writeLog) + [Extent(4 + nr, 1)]
  {
    hide OfInts, TableBlock, Issued, Flying, MayWrite, MayRead;
    ghost var s1 := sb.dev.s;
    MayIssue(s0, s1, f, out, 0, {}, ps, 4 + nr);
    IssueWrite(sb, METADATA_REACTOR, f, TableBlock(sb.csumTable, nr), CSUM_START + nr);
    IssuedTrans(s0, s1, ps, sb.dev.s, {4 + nr}, f);
    sb.csumDirty := sb.csumDirty[nr := false];
  }
}
