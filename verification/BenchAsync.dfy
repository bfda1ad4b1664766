/** The same sequence with all requests in flight at once. */
module BenchAsync {
  import opened Bytes
  import opened Layout
  import opened Checksum
  import opened Volume
  import Bits = Bitmap
  import opened Reactors
  import opened Device
  import opened Super
  import opened Steps
  import opened Inodes
  import opened World
  import opened Table
  import opened Dirents
  import opened Tree
  import opened DirOps
  import opened FileOps
  import opened Contexts
  import opened Commands
  import Alternate
  import opened AltPath
  import opened Bulk
  import opened BulkAsync
  import opened Batch
  import opened WriteCommand
  import opened Mounting
  import opened Bench

  /** Block `p` is a data block of item `j`. */
  ghost predicate DataOf(s: Batch, j: nat, p: int)
    requires Wf(ToSave(s))
  {
    j < |s.items| && p in OwnItem(s, j) && p != s.items[j].d.indirect
  }

  /** What is in flight are data blocks of the first `k` items. */
  ghost predicate InFlight(s: Batch, k: nat, out: set<int>)
    requires Wf(ToSave(s))
  {
    forall p :: p in out ==> exists j: nat :: j < k && DataOf(s, j, p)
  }

  lemma FlightMore(s: Batch, k: nat, out: set<int>)
    requires Wf(ToSave(s)) && InFlight(s, k, out)
    ensures InFlight(s, k + 1, out)
  {
    hide DataOf;
    forall p | p in out ensures exists j: nat :: j < k + 1 && DataOf(s, j, p) {
      var j: nat :| j < k && DataOf(s, j, p);
      assert j < k + 1;
    }
  }

  lemma NoneInFlight(s: Batch)
    requires Wf(ToSave(s))
    ensures InFlight(s, 0, {})
  {
  }

  /** The next item has nothing to do with what is in flight. */
  lemma FlightBeside(w: World, s: Batch, k: nat, out: set<int>)
    requires BatchOk(w, s) && k < |s.items| && InFlight(s, k, out)
    ensures s.items[k].d.size >= 0 && Beside(AltOf(s, k), out)
  {
    hide TablesWritten, Sound, VWorld, BlocksConsistent, OfInts, Volume.Own, Alternate.VDisk, Contents, BatchOk;
    hide OwnItem, Distinct, Wf, IsUsed;
    StepFacts(w, s);
    ItemFit(w, s, k);
    Alternate.SoundBlocks(Alternate.VVol(AltOf(s, k)), s.items[k].d);
    var own := OwnItem(s, k);
    forall p | p in out ensures p !in own {
      var j: nat :| j < k && DataOf(s, j, p);
      ItemsApart(w, s, j, k);
    }
    forall p | p in out ensures IsUsed(Alternate.VVol(AltOf(s, k)), p) {
      var j: nat :| j < k && DataOf(s, j, p);
      ItemFacts(w, s, j);
      DataIsUsed(s, k, p);
    }
    assert out * own == {};
  }

  lemma DataIsUsed(s: Batch, k: nat, p: int)
    requires Wf(ToSave(s)) && k < |s.items|
    ensures IsUsed(Alternate.VVol(AltOf(s, k)), p) <==> IsUsed(VAll(s), p)
  {
    hide TablesWritten, Alternate.VDisk;
  }

  /** What is in flight is neither a changed indirect block nor outside the data blocks. */
  lemma FlightTables(w: World, s: Batch, k: nat, out: set<int>)
    requires BatchOk(w, s) && InFlight(s, k, out)
    ensures out !! TableBlocks(ToSave(s)) && forall p :: p in out ==> IsData(p)
  {
    hide TablesWritten, Sound, VWorld, BlocksConsistent, OfInts, Volume.Own, Alternate.VDisk, Contents, BatchOk;
    hide OwnItem, Distinct, Wf;
    StepFacts(w, s);
    forall p | p in out ensures p !in TableBlocks(ToSave(s)) && IsData(p) {
      var j: nat :| j < k && DataOf(s, j, p);
      ItemFacts(w, s, j);
      assert IsUsed(VAll(s), p);
      forall i | 0 <= i < |s.items| && s.items[i].tableDirty ensures s.items[i].d.indirect != p {
        ItemFacts(w, s, i);
        if i != j {
          ItemsApart(w, s, i, j);
        }
      }
    }
    assert out * TableBlocks(ToSave(s)) == {};
  }

  /** After one more write. */
  lemma FlightNext(w: World, s: Batch, k: nat, buf: seq<byte>, out: set<int>)
    requires BatchOk(w, s) && k < |s.items| && InFlight(s, k, out) && buf != []
    requires Alternate.Write(AltOf(s, k), 0, buf).1 == Done
    ensures var b := Alternate.Write(AltOf(s, k), 0, buf).0;
            && Wf(ToSave(WithAlt(s, k, b)))
            && InFlight(WithAlt(s, k, b), k + 1, out + Range(Alternate.VDisk(b), b.d, 0, LastBlock(0, |buf|) + 1))
  {
    hide TablesWritten, Sound, VWorld, BlocksConsistent, OfInts, Volume.Own, Alternate.VDisk, Contents, BatchOk;
    hide OwnItem, Distinct, Wf;
    hide Alternate.Write, LastBlock, ItemStep, OwnAlt, Range;
    var b := Alternate.Write(AltOf(s, k), 0, buf).0;
    var s' := WithAlt(s, k, b);
    StepFacts(w, s);
    ItemFile(w, s, k);
    WriteItem(w, s, k, 0, buf);
    BatchStep(w, s, k, b);
    StepFacts(w, s');
    WrittenRange(w, s, k, buf);
    var more := Range(Alternate.VDisk(b), b.d, 0, LastBlock(0, |buf|) + 1);
    forall p | p in out + more ensures exists j: nat :: j < k + 1 && DataOf(s', j, p) {
      if p in more {
        assert p in OwnAlt(b) && p != b.d.indirect;
        assert s'.items[k].d == b.d;
        assert DataOf(s', k, p);
      } else {
        var j: nat :| j < k && DataOf(s, j, p);
        OthersOwn(w, s, k, b, j);
        assert j < k + 1 && DataOf(s', j, p);
      }
    }
  }

  /** The blocks that were written are data blocks of the item. */
  lemma WrittenRange(w: World, s: Batch, k: nat, buf: seq<byte>)
    requires BatchOk(w, s) && k < |s.items| && buf != [] && Alternate.Write(AltOf(s, k), 0, buf).1 == Done
    ensures var b := Alternate.Write(AltOf(s, k), 0, buf).0;
            forall p :: p in Range(Alternate.VDisk(b), b.d, 0, LastBlock(0, |buf|) + 1) ==>
              p in OwnAlt(b) && p != b.d.indirect
  {
    hide TablesWritten, VWorld, BlocksConsistent, OfInts, Alternate.VDisk, Contents, BatchOk, OwnItem, Distinct, Wf;
    hide Alternate.Write, Lookup, Csum, OwnStep, CsumOk, Bits.Zeros;
    var a := AltOf(s, k);
    var b := Alternate.Write(a, 0, buf).0;
    ItemFit(w, s, k);
    Alternate.WriteIs(a, 0, buf);
    AfterWrite(Alternate.VVol(a), a.d, 0, buf, Alternate.VVol(b), b.d);
    RangeOwn(Alternate.VVol(b), b.d, LastBlock(0, |buf|) + 1);
  }

  lemma RangeOwn(v: Vol, d: DInode, m: nat)
    requires Sound(v, d) && m <= BlocksFor(d.size)
    ensures forall p :: p in Range(v.disk, d, 0, m) ==> p in Volume.Own(v.disk, d, BlocksFor(d.size)) && p != d.indirect
  {
    hide Lookup, CsumOk;
  }

  /** The other items' blocks are where they were. */
  lemma OthersOwn(w: World, s: Batch, i: nat, b: Alternate.Alt, j: nat)
    requires i < |s.items| && j < |s.items| && j != i && ItemStep(w, s, i, b) && Wf(ToSave(WithAlt(s, i, b)))
    ensures OwnItem(WithAlt(s, i, b), j) == OwnItem(s, j) && WithAlt(s, i, b).items[j] == s.items[j]
  {
    hide TablesWritten, Csum, Sound, VWorld, Contents, BlocksConsistent, OfInts, CsumClean, Volume.Own, OwnStep;
    hide Distinct, Wf;
    hide Alternate.VDisk, NoOtherTable, VAll, Alternate.Coherent, FilesOf, ItemStep;
    StepParts(w, s, i, b);
    NewList(w, s, i, b);
    BatchOwnStep(w, s, i, b);
    ItemFacts(w, s, j);
    ItemsApart(w, s, i, j);
    OtherUntouched(VAll(s), OwnItem(s, i), VAll(WithAlt(s, i, b)), OwnAlt(b), s.items[j].d);
  }

  /** All requests in flight are on future `f`. */
  ghost predicate OnlyOnF(s: Io, f: nat) {
    f < |s.futures| && forall g: nat :: PendingOn(s, g) ==> g == f
  }

  /** What is in flight after one more write that was issued. */
  lemma FlyingOn(s: Io, s': Io, f: nat, out: set<int>, b: Alternate.Alt, len: nat, out': set<int>)
    requires OnlyOnF(s, f) && WriteFlying(s, s', f, out, b, 0, len)
    requires out' == out + Range(Alternate.VDisk(b), b.d, 0, LastBlock(0, len) + 1)
    ensures OnlyOnF(s', f) && Flying(s', f, out', 0, {})
  {
    hide Flying, PendingOn, Range, Alternate.VDisk, LastBlock;
  }

  /** One write whose requests stay in flight. */
  method WriteOneAsync(sb: SuperBlock, f: nat, ghost all: seq<Inode>, in_: Inode, ghost i: nat, content: seq<byte>,
                       ghost w: World, ghost out: set<int>)
  returns (r: Outcome, ghost out': set<int>)
    requires sb.Valid() && Ours(sb, all) && Tabled(all) && i < |all| && all[i] == in_ && BatchOk(w, BatchOf(sb, all))
    requires OnlyOnF(sb.dev.s, f) && Flying(sb.dev.s, f, out, 0, {}) && InFlight(BatchOf(sb, all), i, out)
    modifies in_`din, in_`dirty, in_`indirect, in_`indirectLoaded, in_`indirectDirty
    modifies sb`csumTable, sb`csumDirty, sb.dev, sb.blockFreemap.v
    ensures sb.Valid() && Tabled(all) && r == Alternate.Write(AltOf(old(BatchOf(sb, all)), i), 0, content).1
    ensures !r.Aborted? ==>
      BatchOf(sb, all) == WithAlt(old(BatchOf(sb, all)), i,
        Alternate.Write(AltOf(old(BatchOf(sb, all)), i), 0, content).0)
    ensures r == Done || r == Failed(EFBIG) ==> OnlyOnF(sb.dev.s, f) && Flying(sb.dev.s, f, out', 0, {})
    ensures r == Done || r == Failed(EFBIG) ==> Wf(ToSave(BatchOf(sb, all))) && InFlight(BatchOf(sb, all), i + 1, out')
  {
    hide SuperBlock.Vol, SuperBlock.Valid, Alternate.Write, Alternate.Coherent, BatchOk, ItemsOf, Alternate.VDisk;
    hide Sound, Fit, LastBlock;
    hide Flying, InFlight, Beside, OnlyOnF, WriteFlying, Distinct, Wf, FilesOf, VWorld, Range;
    AllItems(all);
    ghost var s, s0 := BatchOf(sb, all), sb.dev.s;
    MayWriteItem(w, s, i, 0);
    FitBound(AltOf(s, i), 0);
    FlightBeside(w, s, i, out);
    FutureThere(s0, f);
    out' := out;
    r := WriteDataAlternateAsync(in_, f, 0, content, out);
    AllItems(all);
    if !r.Aborted? {
      OneMoved(s, i, State(in_), BatchOf(sb, all));
    }
    if r == Done && content != [] {
      out' := out + Range(Alternate.VDisk(State(in_)), in_.din, 0, LastBlock(0, |content|) + 1);
      FlyingOn(s0, sb.dev.s, f, out, State(in_), |content|, out');
      FlightNext(w, s, i, content, out);
    } else if r == Done || r == Failed(EFBIG) {
      NothingChanges(w, s, i, 0, content);
      StepFacts(w, s);
      FlightMore(s, i, out);
    }
  }

  lemma FutureThere(s: Io, f: nat)
    requires OnlyOnF(s, f)
    ensures f < |s.futures|
  {
  }

  /** Issues the writes of all files, up to the first for which there are not enough blocks. */
  method WriteAllAsync(sb: SuperBlock, f: nat, inodes: array<Inode>, content: seq<byte>, ghost w: World)
  returns (ok: bool, ghost out: set<int>)
    requires sb.Valid() && Ours(sb, inodes[..]) && Tabled(inodes[..]) && BatchOk(w, BatchOf(sb, inodes[..]))
    requires OnlyOnF(sb.dev.s, f) && Flying(sb.dev.s, f, {}, 0, {})
    modifies SetOf(inodes[..])`din, SetOf(inodes[..])`dirty, SetOf(inodes[..])`indirect
    modifies SetOf(inodes[..])`indirectLoaded, SetOf(inodes[..])`indirectDirty
    modifies sb`csumTable, sb`csumDirty, sb.dev, sb.blockFreemap.v
    ensures sb.Valid() && Tabled(inodes[..]) && ok == WriteFirst(old(BatchOf(sb, inodes[..])), inodes.Length, content).1
    ensures ok ==> BatchOf(sb, inodes[..]) == WriteFirst(old(BatchOf(sb, inodes[..])), inodes.Length, content).0
    ensures ok ==> OnlyOnF(sb.dev.s, f) && Flying(sb.dev.s, f, out, 0, {})
    ensures ok ==> Wf(ToSave(BatchOf(sb, inodes[..]))) && InFlight(BatchOf(sb, inodes[..]), inodes.Length, out)
  {
    hide SuperBlock.Vol, SuperBlock.Valid, Alternate.Write, BatchOk, ItemsOf, WriteFirst, WithAlt, VWorld, FilesOf;
    hide OnlyOnF, Flying, InFlight;
    ghost var s, all := BatchOf(sb, inodes[..]), inodes[..];
    NoneWritten(s, content);
    StepFacts(w, s);
    NoneInFlight(s);
    out := {};
    var i := 0;
    ok := true;
    while i < inodes.Length
      invariant 0 <= i <= inodes.Length && sb.Valid() && Tabled(all) && inodes[..] == all && ok
      invariant WriteFirst(s, i, content) == (BatchOf(sb, all), true)
      invariant OnlyOnF(sb.dev.s, f) && Flying(sb.dev.s, f, out, 0, {})
      invariant Wf(ToSave(BatchOf(sb, all))) && InFlight(BatchOf(sb, all), i, out)
    {
      WriteFirstOk(w, s, i, content);
      WriteFirstNext(s, i, content);
      MayClean(all, i);
      var r;
      r, out := WriteOneAsync(sb, f, all, inodes[i], i, content, w, out);
      if r != Done && r != Failed(EFBIG) {
        WriteFirstFails(s, i + 1, inodes.Length, content);
        return false, out;
      }
      i := i + 1;
    }
  }

  lemma FreemapClear(s: Io, f: nat, out: set<int>)
    requires Flying(s, f, out, 0, {}) && 2 !in out && 3 !in out
    ensures MayWrite(s, 2, 2)
  {
    hide WritingOn, ReadingOn;
  }

  lemma StillOnF(s: Io, s': Io, f: nat, out: set<int>, ps: set<int>)
    requires Inv(s) && OnlyOnF(s, f) && Flying(s, f, out, 0, {}) && Issued(s, s', f, ps)
    ensures OnlyOnF(s', f) && Flying(s', f, out + ps, 0, {})
  {
    hide PendingOn, Flying, WritingOn, ReadingOn, Settled, FinalBuf, Into;
    FlyingMore(s, s', f, out, ps);
  }

  lemma AwayFromMaps(out: set<int>, ps: set<int>, us: seq<Unsaved>)
    requires (forall p :: p in out ==> IsData(p)) && Wf(us) && SavedIn(ps, us)
    ensures forall p :: p in out + ps ==> p >= INODE_START
  {
    hide TableBlocks;
    TablesAreData(us);
  }

  /** Issues all that `Commit` writes, and waits for everything that is in flight. */
  method CommitAsync(sb: SuperBlock, f: nat, inodes: array<Inode>, ghost out: set<int>)
    requires sb.Valid() && Tabled(inodes[..])
    requires var us := ToSave(BatchOf(sb, inodes[..])); Wf(us) && Distinct(us) && out !! TableBlocks(us)
    requires OnlyOnF(sb.dev.s, f) && Flying(sb.dev.s, f, out, 0, {}) && forall p :: p in out ==> IsData(p)
    modifies inodes, SetOf(inodes[..])`dirty, SetOf(inodes[..])`indirectDirty, sb`csumDirty, sb.dev
    ensures sb.Valid() && sb.Idle() && sb.Vol() == Committed(old(BatchOf(sb, inodes[..])))
    ensures sb.csumDirty == seq(CSUM_TABLE_SIZE, _ => false)
    ensures multiset(inodes[..]) == multiset(old(inodes[..]))
    ensures forall in_ :: in_ in old(inodes[..]) ==> !in_.dirty && !in_.indirectDirty
  {
    hide SuperBlock.Valid, ItemsOf, SyncedOneByOne, EachOnce, CsumFlushed, Bits.FreemapBlock, ListOf, Distinct, Wf;
    hide Settled;
    hide TableBlocks, OnlyOnF, Flying, Issued, SavedIn, MayWrite, Quiet, PendingOn;
    ghost var s, all, s0 := BatchOf(sb, inodes[..]), inodes[..], sb.dev.s;
    ListIsToSave(sb, all);
    DeviceValid(sb);
    FutureThere(s0, f);
    ghost var written, ps := BulkSyncAsync(sb, f, inodes, out);
    ghost var v1, s1 := sb.Vol(), sb.dev.s;
    DeviceValid(sb);
    StillOnF(s0, s1, f, out, ps);
    AwayFromMaps(out, ps, ToSave(s));
    FreemapClear(s1, f, out + ps);
    FutureThere(s1, f);
    FlushBlockFreemapAsync(sb, f);
    ghost var v2, s2 := sb.Vol(), sb.dev.s;
    DeviceValid(sb);
    StillOnF(s1, s2, f, out + ps, {2, 3});
    FutureThere(s2, f);
    ghost var qs := FlushCsumAsync(sb, f, out + ps + {2, 3});
    ghost var s3 := sb.dev.s;
    DeviceValid(sb);
    StillOnF(s2, s3, f, out + ps + {2, 3}, qs);
    CommittedIs(s, v1, v2, sb.Vol());
    AwaitAll(sb, f);
    AllClean(all, inodes[..]);
  }

  /** `spin_wait` when all that is in flight is on this future: afterwards nothing is. */
  method AwaitAll(sb: SuperBlock, f: nat)
    requires sb.Valid() && OnlyOnF(sb.dev.s, f)
    modifies sb.dev
    ensures sb.Valid() && sb.Idle() && sb.Vol() == old(sb.Vol())
  {
    hide Settled, Quiet, PendingOn;
    ghost var s0 := sb.dev.s;
    sb.dev.SpinWait(f);
    QuietSettled(s0, sb.dev.s);
    NothingLeft(s0, s0, sb.dev.s, f);
  }

  /** All writes issued, with the rest of the context around them. */
  method WriteStageAsync(c: Context, f: nat, a: array<Inode>, content: seq<byte>, ghost nrs: seq<nat>, ghost w: World)
  returns (ok: bool, ghost out: set<int>)
    requires Around(c, a[..], nrs, w) && StartsAs(c.sb, a[..], nrs, w)
    requires OnlyOnF(c.sb.dev.s, f) && Flying(c.sb.dev.s, f, {}, 0, {})
    modifies SetOf(a[..])`din, SetOf(a[..])`dirty, SetOf(a[..])`indirect, SetOf(a[..])`indirectLoaded,
      SetOf(a[..])`indirectDirty
    modifies c.sb`csumTable, c.sb`csumDirty, c.sb.dev, c.sb.blockFreemap.v
    ensures c.sb.Valid() && |old(c.sb.csumDirty)| == CSUM_TABLE_SIZE
      && (forall i :: 0 <= i < |nrs| ==> nrs[i] < NR_INODES)
    ensures ok == AllWrites(w, old(c.sb.csumDirty), nrs, content).1
    ensures ok ==> Around(c, a[..], nrs, w) && BatchOf(c.sb, a[..]) == AllWrites(w, old(c.sb.csumDirty), nrs, content).0
    ensures ok ==> OnlyOnF(c.sb.dev.s, f) && Flying(c.sb.dev.s, f, out, 0, {})
    ensures ok ==> Wf(ToSave(BatchOf(c.sb, a[..]))) && InFlight(BatchOf(c.sb, a[..]), a.Length, out)
  {
    hide SuperBlock.Vol, SuperBlock.Valid, ItemsOf, BatchOk, WriteFirst, PlainFiles, StartBatch, DiskInode;
    hide InodeTable.Valid, RestOnDevice, BatchOf, Open, Ours;
    hide OnlyOnF, Flying, InFlight, Wf;
    ghost var all := a[..];
    CurApart(c, all, nrs);
    FreemapsDiffer(c.sb);
    ok, out := WriteAllAsync(c.sb, f, a, content, w);
    assert Once(c, all) && Unchanged(c.curDir, w);
  }

  /** Commits with requests in flight, waits, and puts the inodes back. */
  method ConcludeAsync(c: Context, f: nat, a: array<Inode>, ghost nrs: seq<nat>, ghost w: World, ghost s: Batch,
      ghost out: set<int>)
    requires Around(c, a[..], nrs, w) && BatchOf(c.sb, a[..]) == s
    requires BatchOk(w, s) && FixedKept(w.vol.disk, s.v.disk) && Wf(ToSave(s)) && InFlight(s, |s.items|, out)
    requires OnlyOnF(c.sb.dev.s, f) && Flying(c.sb.dev.s, f, out, 0, {})
    requires TreeOk(FilesOf(VWorld(w, s)), c.shape) && IsDir(FilesOf(VWorld(w, s)), c.curDir.nr)
    modifies a, SetOf(a[..])`dirty, SetOf(a[..])`indirectDirty, SetOf(a[..])`count, c.table, c.sb`csumDirty, c.sb.dev
    ensures c.Valid() && c.sb.csumDirty == seq(CSUM_TABLE_SIZE, _ => false)
    ensures SavedWorld(w, s, c.W()) && FilesOf(c.W()) == FilesOf(VWorld(w, s))
    ensures TableSaved(c.W().vol.disk, c.W().vol.csum) && FreemapSaved(c.W().vol.disk, c.W().vol.used)
  {
    hide SuperBlock.Vol, SuperBlock.Valid, InodeTable.Valid, DiskInode, Committed, SavedWorld, ItemsOf;
    hide Context.Struct, Context.CachedLive, Context.MapsSaved, Context.W, Context.CacheOk, BlocksConsistent;
    hide Context.Current, FilesOf;
    hide TableSaved, FreemapSaved, BatchOk, VWorld, TreeOk, FixedKept, RestOnDevice, Open, Ours, OnlyOnF, Flying;
    hide InFlight, TableBlocks;
    ghost var all := a[..];
    AllItems(all);
    StepFacts(w, s);
    FlightTables(w, s, |s.items|, out);
    CurApart(c, all, nrs);
    CommitAsync(c.sb, f, a, out);
    SameMembers(all, a[..]);
    ItemsSaved(all, s, s.items);
    assert Once(c, all) && Unchanged(c.curDir, w);
    Finish(c, a, all, nrs, w, s);
  }

  /**
   * Writes the content to all files and saves them with requests that are all in flight together, in whatever
   * order the reactors complete them, and waits once at the end. The world it leaves is the very one that the
   * synchronous sequence leaves.
   */
  method BenchmarkAsyncWrites(c: Context, names: seq<seq<byte>>, content: seq<byte>) returns (ok: bool)
    requires c.Valid() && Targets(c.Files(), c.curDir.nr, names)
    modifies c.curDir`count, c.table, c.sb`csumTable, c.sb`csumDirty, c.sb.dev, c.sb.blockFreemap.v
    ensures c.sb.Valid() && (ok ==> c.Valid() && c.sb.csumDirty == seq(CSUM_TABLE_SIZE, _ => false))
    ensures BenchOutcome(old(c.W()), old(c.sb.csumDirty), c.curDir.nr, names, content, ok, c.W())
  {
    hide SuperBlock.Vol, SuperBlock.Valid, InodeTable.Valid, DiskInode, Committed, SavedWorld, CsumClean, ItemsOf;
    hide Context.Struct, Context.CachedLive, Context.MapsSaved, Context.W, Context.CacheOk, BlocksConsistent;
    hide Context.Current, FilesOf;
    hide TableSaved, FreemapSaved, BatchOk, VWorld, TreeOk, FixedKept, RestOnDevice, WriteFirst, Targets;
    hide PlainFiles, AllWrites, StartBatch;
    hide OnlyOnF, Flying, InFlight;
    ghost var w := c.W();
    TableIsClean(c);
    ghost var nrs := Nrs(c.Files(), c.curDir.nr, names);
    var a := Prepare(c, names, nrs);
    ok := RunAsync(c, a, content, nrs, w);
  }

  method RunAsync(c: Context, a: array<Inode>, content: seq<byte>, ghost nrs: seq<nat>, ghost w: World)
    returns (ok: bool)
    requires Primed(c, a[..], nrs, w)
    modifies a, SetOf(a[..]), c.table, c.sb`csumTable, c.sb`csumDirty, c.sb.dev, c.sb.blockFreemap.v
    ensures c.sb.Valid() && (ok ==> c.Valid() && c.sb.csumDirty == seq(CSUM_TABLE_SIZE, _ => false))
    ensures RunOutcome(w, old(c.sb.csumDirty), nrs, content, ok, c.W())
  {
    hide SuperBlock.Vol, SuperBlock.Valid, InodeTable.Valid, Committed, SavedWorld, CsumClean, ItemsOf, Context.W;
    hide BlocksConsistent, FilesOf, Wf;
    hide TableSaved, FreemapSaved, BatchOk, VWorld, TreeOk, FixedKept, RestOnDevice, WriteFirst, PlainFiles;
    hide AllWrites, StartBatch, Context.InTree, Around, BatchOf;
    hide OnlyOnF, Flying, InFlight;
    ghost var dirty := c.sb.csumDirty;
    PrimedRun(c, a[..], nrs, w, content);
    AroundLength(c, a[..], nrs, w);
    var f := StartFuture(c, a[..], nrs, w);
    ghost var out;
    ok, out := WriteStageAsync(c, f, a, content, nrs, w);
    if ok {
      ConcludeAsync(c, f, a, nrs, w, AllWrites(w, dirty, nrs, content).0, out);
    }
  }

  lemma AroundLength(c: Context, all: seq<Inode>, nrs: seq<nat>, w: World)
    requires Around(c, all, nrs, w)
    ensures |all| == |nrs|
  {
  }

  /** The future that all requests of the sequence share; nothing is in flight yet. */
  method StartFuture(c: Context, ghost all: seq<Inode>, ghost nrs: seq<nat>, ghost w: World) returns (f: nat)
    requires Around(c, all, nrs, w) && c.sb.Idle() && StartsAs(c.sb, all, nrs, w)
    modifies c.sb.dev
    ensures Around(c, all, nrs, w) && StartsAs(c.sb, all, nrs, w)
    ensures OnlyOnF(c.sb.dev.s, f) && Flying(c.sb.dev.s, f, {}, 0, {})
  {
    hide SuperBlock.Valid, InodeTable.Valid, Open, Ours, Once, Unchanged, RestOnDevice, Tabled, BatchOk;
    hide PlainFiles, StartBatch, Quiet, Settled, ItemsOf;
    ghost var s0 := c.sb.dev.s;
    DeviceValid(c.sb);
    f := NewFuture(c.sb);
    QuietIdle(s0, c.sb.dev.s);
    DeviceValid(c.sb);
    IdleFlying(c.sb.dev.s, f);
  }

  /** How a sequence followed by leaving and starting the shell ends. */
  datatype Ending = WritesFailed | PutViolated | CameBack

  /** After the asynchronous sequence everything comes back when the shell is left and started again. */
  method BenchmarkAndRestart(c: Context, names: seq<seq<byte>>, content: seq<byte>) returns (r: Ending, c': Context)
    requires c.Valid() && Targets(c.Files(), c.curDir.nr, names)
    modifies c.curDir`count, c.table, c.sb`csumTable, c.sb`csumDirty, c.sb.dev, c.sb.blockFreemap.v
    ensures AllFit(old(c.W()), c.curDir.nr, names, |content|) <==> r != WritesFailed
    ensures r != WritesFailed ==> r == if old(c.curDir.dirty) then PutViolated else CameBack
    ensures r == CameBack ==> c'.Valid() && AllBack(old(c.W()), c.curDir.nr, names, content, c'.W())
  {
    hide SuperBlock.Vol, SuperBlock.Valid, InodeTable.Valid, Context.Struct, Context.CachedLive, Context.MapsSaved;
    hide Context.W;
    hide BlocksConsistent, FilesOf, Targets, BenchOutcome, TableSaved, TreeOk, Remounted, AllFit, CsumClean;
    hide NeededSaved;
    ghost var w := c.W();
    c' := c;
    TableIsClean(c);
    var ok := BenchmarkAsyncWrites(c, names, content);
    OutcomeFits(w, old(c.sb.csumDirty), c.curDir.nr, names, content, ok, c.W());
    if !ok {
      return WritesFailed, c;
    }
    OutcomeFiles(w, old(c.sb.csumDirty), c.curDir.nr, names, content, c.W());
    SavedTableServes(c.W());
    var left;
    left, c' := Restart(c);
    r := if left == Done then CameBack else PutViolated;
  }

  /** The dinodes of these files before the first write. */
  function DInodesAt(w: World, nrs: seq<nat>): seq<DInode>
    requires forall i :: 0 <= i < |nrs| ==> nrs[i] < NR_INODES
  {
    seq(|nrs|, i requires 0 <= i < |nrs| => w.inodes[nrs[i]])
  }

  /** There are blocks for all writes, one after another, given how many each of them takes. */
  ghost predicate AllFit(w: World, cur: nat, names: seq<seq<byte>>, len: nat) {
    && BlocksConsistent(w) && cur in FilesOf(w) && Targets(FilesOf(w), cur, names)
    && var nrs := Nrs(FilesOf(w), cur, names);
       (forall i :: 0 <= i < |nrs| ==> nrs[i] < NR_INODES) && AllGo(DInodesAt(w, nrs), len, RoomOf(w.vol))
  }

  lemma OutcomeFits(w: World, csumDirty: seq<bool>, cur: nat, names: seq<seq<byte>>, content: seq<byte>, ok: bool,
      w': World)
    requires BenchOutcome(w, csumDirty, cur, names, content, ok, w') && CsumClean(w.vol.disk, w.vol.csum, csumDirty)
    ensures ok <==> AllFit(w, cur, names, |content|)
  {
    hide BlocksConsistent, FilesOf, Targets, SavedWorld, WriteFirst, BatchOk, VWorld, CsumClean, AllGo;
    hide Bits.Zeros, Slots;
    var nrs := Nrs(FilesOf(w), cur, names);
    var s := StartBatch(w, csumDirty, nrs);
    StartOk(w, csumDirty, nrs);
    WriteFirstWhen(w, s, |nrs|, content);
    assert DInodesOf(s, |nrs|) == DInodesAt(w, nrs);
  }

  /**
   * What a mount finds on the device that world `w` is on: the same device, freemaps and checksum table, and the same
   * dinodes, but for that of the current directory when it has changes that were not saved.
   */
  ghost predicate Found(w: World, cur: nat, dirty: bool, w': World) {
    && w'.vol == w.vol && w'.live == w.live
         && (forall nr: nat :: nr < NR_INODES && nr != cur ==> w'.inodes[nr] == w.inodes[nr])
    && (!dirty ==> w' == w)
  }

  /** With freemaps and checksum table on the device, a mount finds what is in memory, without any unmounting. */
  method MountAgain(c: Context) returns (c': Context)
    requires c.Valid() && TableSaved(c.W().vol.disk, c.W().vol.csum) && FreemapSaved(c.W().vol.disk, c.W().vol.used)
    modifies c.sb.dev
    ensures c.sb.Valid() && c.W() == old(c.W()) && c.curDir.dirty == old(c.curDir.dirty)
    ensures fresh(c') && fresh(c'.sb) && c'.sb.Valid() && Found(old(c.W()), c.curDir.nr, old(c.curDir.dirty), c'.W())
    ensures !old(c.curDir.dirty) ==> c'.Valid() && c'.curDir.nr == 0 && c'.W() == old(c.W())
  {
    hide SuperBlock.InodesUsed, InodeTable.Valid, DecodeDInode, Bits.BitsOf, ToInts, OfInts, Bits.FreemapBlock;
    hide BlocksConsistent, FilesOf, TableSaved, FreemapSaved, Context.W, TreeOk, Loaded;
    ghost var w, sh := c.W(), c.shape;
    OnDevice(c);
    c' := Mount(c.sb.dev);
    c'.LiveIs();
    DiskKept(c, c'.sb);
    FoundIs(w, c.curDir.nr, c.curDir.dirty, c'.W());
    c'.shape := sh;
    if !c.curDir.dirty {
      FoundValid(c', w);
    }
  }

  /** Mounting only reads the device. */
  twostate lemma DiskKept(c: Context, new sb: SuperBlock)
    requires old(c.sb.Valid()) && sb.Valid() && sb.dev == c.sb.dev && sb.Vol().disk == old(c.sb.dev.Disk())
    requires unchanged(c, c.table, c.sb, c.sb.inodeFreemap.v, c.sb.blockFreemap.v)
    requires forall i :: i in c.table.view ==> unchanged(c.table.view[i])
    ensures c.sb.Valid() && c.W() == old(c.W())
  {
    hide DecodeDInode;
    c.SameW();
  }

  /** What is in memory only: the dinode of the current directory, when that has unsaved changes. */
  lemma OnDevice(c: Context)
    requires c.Valid()
    ensures c.sb.dev.Valid() && c.sb.dev.s.pending == [] && c.W().vol.disk == c.sb.dev.Disk() && NumbersSaved(c.W())
    ensures forall nr: nat :: nr < NR_INODES && (nr != c.curDir.nr || !c.curDir.dirty) ==>
      c.W().inodes[nr] == DiskInode(c.W().vol.disk, nr)
    ensures BlocksConsistent(c.W()) && TreeOk(FilesOf(c.W()), c.shape) && IsDir(FilesOf(c.W()), c.curDir.nr)
  {
    hide BlocksConsistent, FilesOf, TreeOk, DecodeDInode, Bits.FreemapBlock;
    assert c.CacheOk(c.curDir.nr);
  }

  lemma FoundIs(w: World, cur: nat, dirty: bool, w': World)
    requires TableSaved(w.vol.disk, w.vol.csum) && FreemapSaved(w.vol.disk, w.vol.used) && NumbersSaved(w)
    requires forall nr: nat :: nr < NR_INODES && (nr != cur || !dirty) ==> w.inodes[nr] == DiskInode(w.vol.disk, nr)
    requires Loaded(w'.vol) && w'.vol.disk == w.vol.disk && w' == DiskWorld(w'.vol, Bits.BitsOf(w.vol.disk[1], 4096))
    ensures Found(w, cur, dirty, w')
  {
    hide DecodeDInode, Bits.BitsOf, Bits.BitsBlock, TableSaved, ToInts, OfInts;
    Bits.BitsOfBitsBlock(w.vol.used[4096 * 0..4096 * (0 + 1)]);
    Bits.BitsOfBitsBlock(w.vol.used[4096 * 1..4096 * (1 + 1)]);
    Bits.BitsOfBitsBlock(w.live[4096 * 0..4096 * (0 + 1)]);
    assert w.vol.used[..4096] + w.vol.used[4096..] == w.vol.used;
    assert w.live[..4096] == w.live;
    ReloadedTable(w.vol.disk, w.vol.csum, w'.vol.csum);
    if !dirty {
      assert w'.inodes == w.inodes;
    }
  }

  lemma FoundValid(c: Context, w: World)
    requires c.Struct() && c.W() == w && BlocksConsistent(w) && TreeOk(FilesOf(w), c.shape) && NumbersSaved(w)
    requires FromDevice(c) && forall nr: nat :: nr < CSUM_TABLE_SIZE ==> !c.sb.csumDirty[nr]
    requires c.table.view == map[c.curDir.nr := c.curDir] && c.curDir.nr == 0 && c.curDir.count == 1
    ensures c.Valid()
  {
    hide BlocksConsistent, FilesOf, TreeOk, DecodeDInode, Bits.FreemapBlock, Bits.BitsOf, SuperBlock.InodesUsed;
    hide ToInts, OfInts;
    RootThere(FilesOf(w), c.shape);
    c.LiveFile(0);
    assert c.sb.csumDirty == seq(CSUM_TABLE_SIZE, _ => false);
    ReloadedTable(c.sb.Vol().disk, c.sb.csumTable, c.sb.csumTable);
  }

  /**
   * A mount right after either sequence, which has saved inodes, block freemap and checksum table itself, finds the
   * very world that the sequence has left.
   */
  method BenchmarkAndMount(c: Context, names: seq<seq<byte>>, content: seq<byte>, isAsync: bool)
    returns (ok: bool, c': Context)
    requires c.Valid() && Targets(c.Files(), c.curDir.nr, names)
    modifies c.curDir`count, c.table, c.sb`csumTable, c.sb`csumDirty, c.sb.dev, c.sb.blockFreemap.v
    ensures c.sb.Valid() && BenchOutcome(old(c.W()), old(c.sb.csumDirty), c.curDir.nr, names, content, ok, c.W())
    ensures ok <==> AllFit(old(c.W()), c.curDir.nr, names, |content|)
    ensures ok ==> c'.sb.Valid() && c'.sb != c.sb && Found(c.W(), c.curDir.nr, c.curDir.dirty, c'.W())
    ensures ok && !c.curDir.dirty ==> c'.Valid() && AllBack(old(c.W()), c.curDir.nr, names, content, c'.W())
  {
    hide SuperBlock.Vol, SuperBlock.Valid, InodeTable.Valid, Context.Struct, Context.CachedLive, Context.MapsSaved;
    hide Context.W;
    hide BlocksConsistent, FilesOf, Targets, BenchOutcome, TableSaved, FreemapSaved, TreeOk, Found, AllFit, CsumClean;
    ghost var w := c.W();
    c' := c;
    TableIsClean(c);
    if isAsync {
      ok := BenchmarkAsyncWrites(c, names, content);
    } else {
      ok := BenchmarkSyncWrites(c, names, content);
    }
    OutcomeFits(w, old(c.sb.csumDirty), c.curDir.nr, names, content, ok, c.W());
    if ok {
      ghost var w1 := c.W();
      OutcomeFiles(w, old(c.sb.csumDirty), c.curDir.nr, names, content, w1);
      c' := MountAgain(c);
    }
  }

  /** The files are overlaid with the content. */
  ghost predicate AllBack(w: World, cur: nat, names: seq<seq<byte>>, content: seq<byte>, w': World) {
    && BlocksConsistent(w) && cur in FilesOf(w) && Targets(FilesOf(w), cur, names)
    && BlocksConsistent(w') && FilesOf(w') == AllWritten(FilesOf(w), Nrs(FilesOf(w), cur, names), content)
  }

  lemma OutcomeFiles(w: World, csumDirty: seq<bool>, cur: nat, names: seq<seq<byte>>, content: seq<byte>, w': World)
    requires BenchOutcome(w, csumDirty, cur, names, content, true, w')
    ensures AllBack(w, cur, names, content, w') && TableSaved(w'.vol.disk, w'.vol.csum)
    ensures FreemapSaved(w'.vol.disk, w'.vol.used)
  {
    hide BlocksConsistent, FilesOf, Targets, TableSaved, FreemapSaved, SavedWorld, AllWrites;
  }
}
