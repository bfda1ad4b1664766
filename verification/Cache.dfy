/** Whole runs on inodes whose indirect blocks are cached: whatever is written and saved, no cached one ever lies. */
module Cache {
  import opened Bytes
  import opened Layout
  import opened Checksum
  import opened Volume
  import Bits = Bitmap
  import opened Device
  import opened Super
  import opened Steps
  import opened Inodes
  import opened World
  import opened Bulk
  import opened BulkAsync
  import opened AltPath
  import Alternate
  import opened Batch
  import opened Bench

  // The ordinary operations on one inode

  /** `testfs_truncate_data` on an inode whose indirect block may be cached. */
  method TruncateCached(in_: Inode, size: nat) returns (r: Outcome)
    requires Able(in_) && in_.Ready() && !in_.indirectDirty && Sound(in_.sb.Vol(), in_.din)
    modifies in_`din, in_`dirty, in_.sb.dev, in_.sb.blockFreemap.v
    ensures in_.sb.Valid() && |in_.indirect| == 128
    ensures r == Done ==>
      (Alternate.Coherent(State(in_)) <==>
       !(in_.indirectLoaded && size < old(in_.din.size) && NR_DIRECT < BlocksFor(size) < BlocksFor(old(in_.din.size))))
  {
    hide SuperBlock.Vol, SuperBlock.Valid, Sound, Alternate.Coherent, Truncated, Own;
    ghost var a := State(in_);
    SoundMapped(in_.sb.Vol(), in_.din);
    r := in_.Truncate(size);
    if r == Done && size < a.d.size {
      Alternate.TruncateBreaks(a, size, in_.sb.Vol(), in_.din);
      SameCoherence(Alternate.Past(a, in_.sb.Vol(), in_.din), State(in_));
    } else if r == Done {
      SameCoherence(a, State(in_));
    }
  }

  lemma SoundMapped(v: Vol, d: DInode)
    requires Sound(v, d)
    ensures WfInode(v.disk, d) && AllUsed(v, Own(v.disk, d, BlocksFor(d.size))) && Mapped(v, d, BlocksFor(d.size))
  {
  }

  /** Whether an inode was changed plays no part. */
  lemma SameCoherence(a: Alternate.Alt, b: Alternate.Alt)
    requires b.v.disk == a.v.disk && b.d == a.d && b.table == a.table && b.loaded == a.loaded
    requires b.tableDirty == a.tableDirty
    ensures Alternate.Coherent(b) <==> Alternate.Coherent(a)
  {
  }

  /** `testfs_allocate_block` for the next block of an inode whose indirect block may be cached. */
  method AllocateCached(in_: Inode, ghost n: nat, l: nat) returns (phy: int)
    requires Able(in_) && in_.Ready() && !in_.indirectDirty && Mapped(in_.sb.Vol(), in_.din, n) && l == n < NR_MAPPED
    modifies in_`din, in_`dirty, in_.sb.dev, in_.sb.blockFreemap.v
    ensures in_.sb.Valid() && |in_.indirect| == 128
    ensures phy > 0 ==>
      (Alternate.Coherent(State(in_)) <==>
       !in_.indirectLoaded || n < NR_DIRECT
         || (old(in_.din.indirect) == 0 && in_.indirect == seq(128, _ => 0)[0 := phy]))
    ensures phy <= 0 ==>
      (Alternate.Coherent(State(in_)) <==>
       !in_.indirectLoaded || Bits.Zeros(old(in_.sb.Vol()).used) == 0 || in_.indirect == seq(128, _ => 0))
  {
    hide SuperBlock.Vol, SuperBlock.Valid, Alternate.Coherent, Mapped, GrownBy, NotGrown, Bits.Zeros, Slots;
    ghost var a := State(in_);
    var block;
    phy, block := in_.AllocateBlock(l, n);
    ghost var b := Alternate.Past(a, in_.sb.Vol(), in_.din);
    if phy > 0 {
      Alternate.GrowBreaks(a, n, in_.sb.Vol(), in_.din, phy);
    } else {
      Alternate.NotGrownBreaks(a, n, in_.sb.Vol(), in_.din);
    }
    SameCoherence(b, State(in_));
  }

  // Saving some or all of the inodes of a batch

  /** Some items were saved, and nothing else happened: files, blocks and checksums are what they were. */
  ghost predicate SavesSome(s: Batch, s': Batch)
    requires Wf(ToSave(s))
  {
    && |s'.items| == |s.items| && Wf(ToSave(s'))
    && (forall i: nat :: i < |s.items| ==> MaySave(s.items[i], s'.items[i]))
    && s'.v.used == s.v.used && s'.v.csum == s.v.csum && s'.csumDirty == s.csumDirty
    && (forall p :: 4 <= p < INODE_START ==> s'.v.disk[p] == s.v.disk[p])
    && (forall p :: IsData(p) ==> VAll(s').disk[p] == VAll(s).disk[p])
  }

  predicate MaySave(it: Item, it': Item) {
    it'.nr == it.nr && it'.d == it.d && it'.table == it.table && it'.loaded == it.loaded
      && (it'.tableDirty ==> it.tableDirty)
  }

  lemma SavedInodes(was: seq<DInode>, s: Batch, s': Batch, nr: nat)
    requires nr < |was| <= NR_INODES && Wf(ToSave(s)) && SavesSome(s, s') && Distinct(ToSave(s)) && Distinct(ToSave(s'))
    ensures DInodeOf(was, s', nr) == DInodeOf(was, s, nr)
  {
    hide Wf, VAll, Distinct;
    if i: nat :| IsItem(s, i, nr) {
      assert MaySave(s.items[i], s'.items[i]);
      DInodeOfItem(was, s, i);
      DInodeOfItem(was, s', i);
    } else {
      forall i: nat ensures !IsItem(s', i, nr) {
        assert !IsItem(s, i, nr) && (i < |s.items| ==> MaySave(s.items[i], s'.items[i]));
      }
    }
  }

  lemma StillDistinct(s: Batch, s': Batch)
    requires Wf(ToSave(s)) && SavesSome(s, s') && Distinct(ToSave(s))
    ensures Distinct(ToSave(s'))
    ensures forall j: nat, p :: IsTable(ToSave(s'), j, p) ==> IsTable(ToSave(s), j, p)
  {
    hide VAll, Wf;
    var us, us' := ToSave(s), ToSave(s');
    forall i: nat | i < |us|
      ensures us'[i].nr == us[i].nr && us'[i].d == us[i].d && (us'[i].tableDirty ==> us[i].tableDirty) {
      assert MaySave(s.items[i], s'.items[i]);
    }
  }

  /** The cached indirect block of every item is as right as it was. */
  lemma SavedCoherent(w: World, s: Batch, s': Batch, i: nat)
    requires BatchOk(w, s) && SavesSome(s, s') && Distinct(ToSave(s')) && i < |s.items|
    requires forall j: nat, p :: IsTable(ToSave(s'), j, p) ==> IsTable(ToSave(s), j, p)
    ensures Alternate.Coherent(AltOf(s', i))
  {
    hide TablesWritten, Lookup, Csum, Sound, VWorld, Contents, BlocksConsistent, OfInts, CsumClean, VAll, Wf, Distinct;
    var a, b := AltOf(s, i), AltOf(s', i);
    assert MaySave(s.items[i], s'.items[i]);
    ItemFacts(w, s, i);
    if a.loaded && a.d.indirect != 0 {
      var o := {a.d.indirect as int};
      OthersElsewhere(w, s, i);
      assert NoOtherTable(s, i, o) && NoOtherTable(s', i, o);
      SameThere(s, i, o);
      SameThere(s', i, o);
    }
  }

  lemma SavedOk(w: World, s: Batch, s': Batch)
    requires BatchOk(w, s) && SavesSome(s, s')
    ensures BatchOk(w, s') && BlocksConsistent(VWorld(w, s)) && BlocksConsistent(VWorld(w, s'))
    ensures FilesOf(VWorld(w, s')) == FilesOf(VWorld(w, s))
  {
    hide TablesWritten, Sound, BlocksConsistent, OfInts, VAll, Wf, Distinct, SavesSome, FilesOf, DInodeOf, TableBlock;
    StepFacts(w, s);
    StillDistinct(s, s');
    SavedParts(s, s');
    forall nr: nat | nr < NR_INODES ensures DInodeOf(w.inodes, s', nr) == DInodeOf(w.inodes, s, nr) {
      SavedInodes(w.inodes, s, s', nr);
    }
    assert VWorld(w, s').inodes == VWorld(w, s).inodes;
    StepNone(VWorld(w, s), VAll(s'));
    forall i: nat | i < |s'.items| ensures ItemOk(w, s', i) {
      assert ItemOk(w, s, i);
      SavedItemIs(s, s', i);
      SavedCoherent(w, s, s', i);
    }
  }

  lemma SavedItemIs(s: Batch, s': Batch, i: nat)
    requires Wf(ToSave(s)) && SavesSome(s, s') && i < |s.items|
    ensures i < |s'.items| && s'.items[i].nr == s.items[i].nr && s'.items[i].d == s.items[i].d
  {
    hide VAll, Wf;
    assert MaySave(s.items[i], s'.items[i]);
  }

  lemma SavedParts(s: Batch, s': Batch)
    requires Wf(ToSave(s)) && SavesSome(s, s')
    ensures Wf(ToSave(s')) && |s'.items| == |s.items|
    ensures VAll(s').used == VAll(s).used && VAll(s').csum == VAll(s).csum
    ensures forall p :: IsData(p) ==> VAll(s').disk[p] == VAll(s).disk[p]
    ensures CsumClean(s.v.disk, s.v.csum, s.csumDirty) ==> CsumClean(s'.v.disk, s'.v.csum, s'.csumDirty)
  {
    hide TablesWritten, TableBlock, Wf;
  }

  /** One item saved by itself. */
  function SavedOne(s: Batch, i: nat): Batch
    requires i < |s.items| && Wf(ToSave(s))
  {
    assert WfUnsaved(ToSave(s)[i]);
    WithAlt(s, i, Alternate.Synced(AltOf(s, i), s.items[i].nr))
  }

  lemma SavesOne(w: World, s: Batch, i: nat)
    requires BatchOk(w, s) && i < |s.items|
    ensures Wf(ToSave(s)) && SavesSome(s, SavedOne(s, i)) && Alternate.InStep(AltOf(SavedOne(s, i), i))
  {
    hide TablesWritten, OfInts, EncodeDInode, CsumClean, BlocksConsistent, VWorld;
    var s' := SavedOne(s, i);
    var us, us' := ToSave(s), ToSave(s');
    assert WfUnsaved(us[i]);
    OneCleaned(us, us', i);
    assert ItemOk(w, s, i);
    Alternate.SyncedIs(AltOf(s, i), s.items[i].nr);
    assert AltOf(s', i) == Alternate.Synced(AltOf(s, i), s.items[i].nr);
    forall p: nat | IsData(p) ensures VAll(s').disk[p] == VAll(s).disk[p] {
      TablesAt(s.v.disk, us, p);
      TablesAt(s'.v.disk, us', p);
      if j: nat :| j != i && IsTable(us, j, p) {
        assert IsTable(us', j, p) && us'[j].table == us[j].table;
      } else {
        forall j: nat ensures !IsTable(us', j, p) {
        }
      }
    }
  }

  lemma OneCleaned(us: seq<Unsaved>, us': seq<Unsaved>, i: nat)
    requires Wf(us) && Distinct(us) && i < |us| == |us'|
    requires forall j :: 0 <= j < |us| ==>
      us'[j] == if j == i then Unsaved(us[i].nr, us[i].d, false, us[i].table) else us[j]
    ensures Wf(us') && Distinct(us')
    ensures forall j: nat, p :: IsTable(us', j, p) <==> j != i && IsTable(us, j, p)
    ensures forall j: nat, p :: j != i && IsTable(us, j, p) ==> !IsTable(us, i, p)
  {
    forall j | 0 <= j < |us'| ensures WfUnsaved(us'[j]) {
      assert WfUnsaved(us[j]);
    }
    forall j: nat | j < |us| && j != i ensures us[j].nr != us[i].nr {
    }
  }

  /** All items saved at once. */
  function SavedAll(s: Batch): Batch
    requires Wf(ToSave(s))
  {
    Batch(WithDisk(s.v, SyncedOneByOne(s.v.disk, ToSave(s))), s.csumDirty,
          seq(|s.items|, i requires 0 <= i < |s.items| => Cleaned(s.items[i])))
  }

  function Cleaned(it: Item): Item {
    Item(it.nr, it.d, it.table, it.loaded, false, false)
  }

  lemma SavesAll(w: World, s: Batch)
    requires BatchOk(w, s)
    ensures Wf(ToSave(s)) && SavesSome(s, SavedAll(s))
    ensures forall i: nat :: i < |s.items| ==> Alternate.InStep(AltOf(SavedAll(s), i))
  {
    hide TablesWritten, DInodesWritten, SyncedOneByOne, OfInts, CsumClean, BlocksConsistent, VWorld;
    var s' := SavedAll(s);
    var us, us' := ToSave(s), ToSave(s');
    forall i | 0 <= i < |us'| ensures WfUnsaved(us'[i]) {
      assert WfUnsaved(us[i]);
    }
    TablesFirst(s.v.disk, us);
    NothingToWrite(s'.v.disk, us');
    forall p: nat | p < DISK_BLOCKS && !(INODE_START <= p < DATA_START)
      ensures s'.v.disk[p] == TablesWritten(s.v.disk, us)[p] && (p < DATA_START ==> s'.v.disk[p] == s.v.disk[p])
    {
      DInodesElsewhere(TablesWritten(s.v.disk, us), us, p);
      if p < DATA_START {
        TablesElsewhere(s.v.disk, us, p);
      }
    }
    assert SavesSome(s, s');
    StillDistinct(s, s');
    forall i: nat | i < |s.items| ensures Alternate.InStep(AltOf(s', i)) {
      SavedCoherent(w, s, s', i);
    }
  }

  /** Every cached indirect block is right. */
  ghost predicate AllCoherent(s: Batch) {
    forall i: nat :: i < |s.items| ==> Alternate.Coherent(AltOf(s, i))
  }

  lemma BatchCoherent(w: World, s: Batch)
    requires BatchOk(w, s)
    ensures AllCoherent(s) && Wf(ToSave(s))
  {
    hide Wf, VWorld, BlocksConsistent;
    forall i: nat | i < |s.items| ensures Alternate.Coherent(AltOf(s, i)) {
      assert ItemOk(w, s, i);
    }
  }

  /** A write that ran out of space spoils no cached indirect block, neither its own nor any other. */
  lemma FailedWrite(w: World, s: Batch, i: nat, start: nat, buf: seq<byte>)
    requires BatchOk(w, s) && StartsIn(s, i, start) && Alternate.Write(AltOf(s, i), start, buf).1 == Failed(ENOSPC)
    ensures AllCoherent(WithAlt(s, i, Alternate.Write(AltOf(s, i), start, buf).0))
  {
    hide TablesWritten, Csum, Sound, VWorld, Contents, BlocksConsistent, OfInts, Own, Distinct, Wf, ItemOk;
    hide BatchOk, Lookup;
    hide VAll, Alternate.Write, Alternate.SpaceGone, OwnItem, Alternate.Coherent, Alternate.VDisk;
    var a := AltOf(s, i);
    var b := Alternate.Write(a, start, buf).0;
    var s' := WithAlt(s, i, b);
    assert buf != [] by {
      EmptyWrite(a, start);
    }
    ItemFit(w, s, i);
    BatchClean(w, s);
    Alternate.WriteNoSpace(a, start, buf);
    GoneParts(a, b);
    forall j: nat | j < |s'.items| ensures Alternate.Coherent(AltOf(s', j)) {
      if j == i {
        assert AltOf(s', i) == b;
      } else {
        OtherCoherent(w, s, i, b, j);
      }
    }
  }

  lemma EmptyWrite(a: Alternate.Alt, start: nat)
    requires start % 512 == 0
    ensures Alternate.Write(a, start, []).1 == Done
  {
  }

  lemma BatchClean(w: World, s: Batch)
    requires BatchOk(w, s)
    ensures CsumClean(s.v.disk, s.v.csum, s.csumDirty)
  {
    hide CsumClean, BlocksConsistent;
  }

  lemma GoneParts(a: Alternate.Alt, b: Alternate.Alt)
    requires Alternate.SpaceGone(a, b)
    ensures Alternate.Coherent(b) && a.d.size >= 0 && Alternate.OthersKept(a, b)
  {
    hide Alternate.Coherent, Alternate.OthersKept;
  }

  lemma OtherCoherent(w: World, s: Batch, i: nat, b: Alternate.Alt, j: nat)
    requires BatchOk(w, s) && i < |s.items| && j < |s.items| && j != i && s.items[i].d.size >= 0
    requires Alternate.OthersKept(AltOf(s, i), b)
    ensures Alternate.Coherent(AltOf(WithAlt(s, i, b), j))
  {
    hide TablesWritten, Csum, Sound, VWorld, Contents, BlocksConsistent, OfInts, Own, Distinct, Wf, ItemOk;
    hide BatchOk, Lookup, OwnItem;
    var a, c := AltOf(s, i), AltOf(s, j);
    StepFacts(w, s);
    ItemFacts(w, s, i);
    ItemFacts(w, s, j);
    ItemFit(w, s, i);
    ItemsApart(w, s, i, j);
    var p := c.d.indirect;
    if c.loaded && p != 0 {
      assert p in OwnItem(s, j) && p !in OwnItem(s, i);
      assert IsUsed(VAll(s), p) && IsUsed(a.v, p);
      assert a.d.indirect != 0 ==> a.d.indirect in OwnItem(s, i);
      assert Alternate.VDisk(b)[p] == Alternate.VDisk(a)[p] && b.v.disk[p] == a.v.disk[p];
    }
  }

  // Runs

  datatype Op = WriteAt(i: nat, start: nat, buf: seq<byte>) | SyncOne(i: nat) | SyncAll

  /** The inode is one of the batch, and is written from a block boundary inside it. */
  predicate May(s: Batch, op: Op) {
    match op
    case WriteAt(i, start, _) => StartsIn(s, i, start)
    case SyncOne(i) => i < |s.items|
    case SyncAll => true
  }

  /** What one operation makes of the batch, and how it ends; only an inode with changes may be saved by itself. */
  function After(s: Batch, op: Op): (Batch, Outcome)
    requires May(s, op) && Wf(ToSave(s))
  {
    match op
    case WriteAt(i, start, buf) =>
      var (a, r) := Alternate.Write(AltOf(s, i), start, buf);
      (WithAlt(s, i, a), r)
    case SyncOne(i) => if s.items[i].dirty then (SavedOne(s, i), Done) else (s, Aborted(DirtyOnSync))
    case SyncAll => (SavedAll(s), Done)
  }

  predicate GoesOn(r: Outcome) {
    r == Done || r == Failed(EFBIG)
  }

  /** The files after the operation. */
  function Effect(files: Files, s: Batch, op: Op): Files
    requires May(s, op)
  {
    match op
    case WriteAt(i, start, buf) => OneWritten(files, s.items[i].nr, start, buf)
    case _ => files
  }

  lemma StepOk(w: World, s: Batch, op: Op)
    requires BatchOk(w, s) && May(s, op)
    ensures Wf(ToSave(s)) && BlocksConsistent(VWorld(w, s))
    ensures var (s', r) := After(s, op);
            && (GoesOn(r) ==> BatchOk(w, s') && BlocksConsistent(VWorld(w, s')))
            && (GoesOn(r) ==> FilesOf(VWorld(w, s')) == Effect(FilesOf(VWorld(w, s)), s, op))
            && (r == Failed(ENOSPC) ==> AllCoherent(s'))
            && |s'.items| == |s.items|
  {
    hide BatchOk, SavesSome, Alternate.Write, VWorld, FilesOf, BlocksConsistent, Wf, SavedOne, SavedAll;
    hide AllCoherent, OneWritten;
    StepFacts(w, s);
    match op {
      case WriteAt(i, start, buf) =>
        var r := Alternate.Write(AltOf(s, i), start, buf).1;
        if GoesOn(r) {
          WriteNext(w, s, i, start, buf);
          StepFacts(w, After(s, op).0);
        } else if r == Failed(ENOSPC) {
          FailedWrite(w, s, i, start, buf);
        }
      case SyncOne(i) =>
        SavesOne(w, s, i);
        SavedOk(w, s, SavedOne(s, i));
      case SyncAll =>
        SavesAll(w, s);
        SavedOk(w, s, SavedAll(s));
    }
    SameNumber(s, op);
  }

  lemma SameNumber(s: Batch, op: Op)
    requires May(s, op) && Wf(ToSave(s))
    ensures |After(s, op).0.items| == |s.items|
  {
    hide Alternate.Write, Alternate.Synced, Wf, SyncedOneByOne;
  }

  /** Every operation of the run is possible when its turn comes. */
  ghost predicate Possible(w: World, s: Batch, ops: seq<Op>)
    requires BatchOk(w, s)
    decreases |ops|
  {
    ops == [] || (May(s, ops[0]) && (
      StepOk(w, s, ops[0]);
      GoesOn(After(s, ops[0]).1) ==> Possible(w, After(s, ops[0]).0, ops[1..])))
  }

  /**
   * Any run of writes, single saves and bulk saves, up to the first that fails: all along, and also after a write
   * that ran out of space, every cached indirect block is right.
   */
  ghost function Run(w: World, s: Batch, ops: seq<Op>): (r: (Batch, Outcome))
    requires BatchOk(w, s) && Possible(w, s, ops)
    ensures GoesOn(r.1) ==> BatchOk(w, r.0)
    ensures !r.1.Aborted? ==> AllCoherent(r.0)
    ensures r.1 == Done || r.1.Aborted? || r.1 == Failed(ENOSPC)
    decreases |ops|
  {
    BatchCoherent(w, s);
    if ops == [] then (s, Done)
    else
      StepOk(w, s, ops[0]);
      WriteErrors(w, s, ops[0]);
      var (s1, r1) := After(s, ops[0]);
      if GoesOn(r1) then Run(w, s1, ops[1..]) else (s1, r1)
  }

  lemma WriteErrors(w: World, s: Batch, op: Op)
    requires BatchOk(w, s) && May(s, op) && Wf(ToSave(s))
    ensures var r := After(s, op).1; r.Failed? ==> r == Failed(EFBIG) || r == Failed(ENOSPC)
  {
    hide BatchOk, Alternate.Write, VWorld, Wf, Sound, Alternate.VDisk, Contents, Alternate.Coherent, Own, VAll, Wrote;
    if op.WriteAt? && op.buf != [] {
      ItemFit(w, s, op.i);
      Alternate.WriteIs(AltOf(s, op.i), op.start, op.buf);
    } else if op.WriteAt? {
      EmptyWrite(AltOf(s, op.i), op.start);
    }
  }

  /** The files after the whole run. */
  ghost function Effects(w: World, s: Batch, files: Files, ops: seq<Op>): Files
    requires BatchOk(w, s) && Possible(w, s, ops)
    decreases |ops|
  {
    if ops == [] then files
    else
      StepOk(w, s, ops[0]);
      var (s1, r1) := After(s, ops[0]);
      if GoesOn(r1) then Effects(w, s1, Effect(files, s, ops[0]), ops[1..]) else files
  }

  /** A run that came through has overlaid the files with what was written, in this order. */
  lemma {:induction false} RunFiles(w: World, s: Batch, ops: seq<Op>)
    requires BatchOk(w, s) && Possible(w, s, ops) && Run(w, s, ops).1 == Done
    ensures BlocksConsistent(VWorld(w, s)) && BlocksConsistent(VWorld(w, Run(w, s, ops).0))
    ensures FilesOf(VWorld(w, Run(w, s, ops).0)) == Effects(w, s, FilesOf(VWorld(w, s)), ops)
    decreases |ops|
  {
    hide BatchOk, VWorld, FilesOf, BlocksConsistent, Wf, Effect;
    StepFacts(w, s);
    if ops != [] {
      StepOk(w, s, ops[0]);
      var (s1, r1) := After(s, ops[0]);
      RunFiles(w, s1, ops[1..]);
    }
  }

  // The same on inodes in memory

  /** Saves one of the inodes. */
  method SaveOne(sb: SuperBlock, ghost all: seq<Inode>, in_: Inode, ghost i: nat, ghost w: World) returns (r: Outcome)
    requires sb.Valid() && sb.Idle() && Ours(sb, all) && Tabled(all) && i < |all| && all[i] == in_
    requires BatchOk(w, BatchOf(sb, all))
    modifies in_`dirty, in_`indirectDirty, sb.dev
    ensures sb.Valid() && sb.Idle() && Tabled(all) && Wf(ToSave(old(BatchOf(sb, all))))
    ensures (BatchOf(sb, all), r) == After(old(BatchOf(sb, all)), SyncOne(i))
  {
    hide SuperBlock.Vol, SuperBlock.Valid, BatchOk, ItemsOf, Alternate.VDisk, Sound, SyncedDisk;
    AllItems(all);
    ghost var s := BatchOf(sb, all);
    StepFacts(w, s);
    assert WfUnsaved(ToSave(s)[i]);
    var ok := in_.Sync();
    AllItems(all);
    r := if ok then Done else Aborted(DirtyOnSync);
    OneMoved(s, i, State(in_), BatchOf(sb, all));
  }

  /** Saves all of them. */
  method SaveAll(sb: SuperBlock, all: seq<Inode>, ghost w: World)
    requires sb.Valid() && sb.Idle() && Ours(sb, all) && Tabled(all) && BatchOk(w, BatchOf(sb, all))
    modifies SetOf(all)`dirty, SetOf(all)`indirectDirty, sb.dev
    ensures sb.Valid() && sb.Idle() && Tabled(all) && Wf(ToSave(old(BatchOf(sb, all))))
    ensures BatchOf(sb, all) == SavedAll(old(BatchOf(sb, all)))
  {
    hide SuperBlock.Vol, SuperBlock.Valid, BatchOk, ItemsOf, SyncedOneByOne, ListOf, Wf, Distinct, EachOnce;
    hide DirtyTables, OneEach;
    ghost var s := BatchOf(sb, all);
    StepFacts(w, s);
    ListIsToSave(sb, all);
    AllItems(all);
    var a := new Inode[|all|](i requires 0 <= i < |all| => all[i]);
    assert a[..] == all;
    ghost var written := BulkSync(sb, a);
    AllItems(all);
    forall i: nat | i < |all| ensures BatchOf(sb, all).items[i] == Cleaned(s.items[i]) {
      SomewhereIn(all, a[..], i);
    }
    assert BatchOf(sb, all).items == SavedAll(s).items;
  }

  lemma SomewhereIn(s: seq<Inode>, t: seq<Inode>, i: nat)
    requires multiset(s) == multiset(t) && i < |s|
    ensures exists k: nat :: k < |t| && t[k] == s[i]
  {
    assert s[i] in multiset(s);
    assert s[i] in multiset(t) && s[i] in t;
  }

  /** Runs the operations, up to the first that fails. */
  method RunOps(sb: SuperBlock, all: seq<Inode>, ops: seq<Op>, ghost w: World) returns (r: Outcome)
    requires sb.Valid() && sb.Idle() && Ours(sb, all) && Tabled(all)
    requires BatchOk(w, BatchOf(sb, all)) && Possible(w, BatchOf(sb, all), ops)
    modifies SetOf(all)`din, SetOf(all)`dirty, SetOf(all)`indirect, SetOf(all)`indirectLoaded, SetOf(all)`indirectDirty
    modifies sb`csumTable, sb`csumDirty, sb.dev, sb.blockFreemap.v
    ensures sb.Valid() && Tabled(all) && r == Run(w, old(BatchOf(sb, all)), ops).1
    ensures !r.Aborted? ==> BatchOf(sb, all) == Run(w, old(BatchOf(sb, all)), ops).0
  {
    hide SuperBlock.Vol, SuperBlock.Valid, BatchOk, ItemsOf, After, Wf, AllCoherent;
    ghost var s := BatchOf(sb, all);
    var k := 0;
    r := Done;
    assert ops[0..] == ops;
    while k < |ops|
      invariant 0 <= k <= |ops| && sb.Valid() && sb.Idle() && Tabled(all) && r == Done
      invariant BatchOk(w, BatchOf(sb, all)) && Possible(w, BatchOf(sb, all), ops[k..])
      invariant Run(w, s, ops) == Run(w, BatchOf(sb, all), ops[k..])
    {
      ghost var s1 := BatchOf(sb, all);
      assert ops[k..][0] == ops[k] && ops[k..][1..] == ops[k + 1..];
      StepOk(w, s1, ops[k]);
      r := RunOne(sb, all, ops[k], w);
      if !GoesOn(r) {
        return;
      }
      r := Done;
      k := k + 1;
    }
  }

  /** One operation. */
  method RunOne(sb: SuperBlock, all: seq<Inode>, op: Op, ghost w: World) returns (r: Outcome)
    requires sb.Valid() && sb.Idle() && Ours(sb, all) && Tabled(all) && BatchOk(w, BatchOf(sb, all))
    requires May(BatchOf(sb, all), op)
    modifies SetOf(all)`din, SetOf(all)`dirty, SetOf(all)`indirect, SetOf(all)`indirectLoaded, SetOf(all)`indirectDirty
    modifies sb`csumTable, sb`csumDirty, sb.dev, sb.blockFreemap.v
    ensures sb.Valid() && sb.Idle() && Tabled(all) && Wf(ToSave(old(BatchOf(sb, all))))
    ensures r == After(old(BatchOf(sb, all)), op).1
      && (!r.Aborted? ==> BatchOf(sb, all) == After(old(BatchOf(sb, all)), op).0)
  {
    hide SuperBlock.Vol, SuperBlock.Valid, BatchOk, ItemsOf, Wf, SavedOne, SavedAll, Alternate.Write;
    StepFacts(w, BatchOf(sb, all));
    match op {
      case WriteAt(i, start, buf) =>
        MayClean(all, i);
        r := WriteOne(sb, all, all[i], i, start, buf, w);
      case SyncOne(i) =>
        MayClean(all, i);
        r := SaveOne(sb, all, all[i], i, w);
      case SyncAll =>
        SaveAll(sb, all, w);
        r := Done;
    }
  }
}
