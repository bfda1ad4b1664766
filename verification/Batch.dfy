/** Several cached inodes that are written one after another before any of them is saved. */
module Batch {
  import opened Bytes
  import opened Layout
  import opened Checksum
  import opened Volume
  import Bits = Bitmap
  import opened Super
  import opened Steps
  import opened Inodes
  import opened World
  import opened DirOps
  import Alternate
  import opened Bulk
  import opened BulkAsync

  /** One cached inode. */
  datatype ItemData = Item(nr: nat, d: DInode, table: seq<int32>, loaded: bool, tableDirty: bool, dirty: bool)

  type Item = i: ItemData | |i.table| == 128 witness Item(0, ZERO_DINODE, seq(128, _ => 0), false, false, false)

  datatype BatchData = Batch(v: Vol, csumDirty: seq<bool>, items: seq<Item>)

  type Batch = b: BatchData | |b.csumDirty| == CSUM_TABLE_SIZE
    witness Batch(VolData.Vol(seq<Block>(DISK_BLOCKS, _ => ZERO_BLOCK), seq(NR_BLOCK_BITS, _ => false),
      seq<int32>(MAX_NR_CSUMS, _ => 0)),
                  seq(CSUM_TABLE_SIZE, _ => false), [])

  /** Item `i` as the alternate path sees it. */
  function AltOf(s: Batch, i: nat): Alternate.Alt
    requires i < |s.items|
  {
    var it := s.items[i];
    Alternate.Alt(s.v, s.csumDirty, it.d, it.table, it.loaded, it.tableDirty, it.dirty)
  }

  function WithAlt(s: Batch, i: nat, a: Alternate.Alt): Batch
    requires i < |s.items|
  {
    Batch(a.v, a.csumDirty, s.items[i := Item(s.items[i].nr, a.d, a.table, a.loaded, a.tableDirty, a.dirty)])
  }

  /**
   * The first `k` items written in turn, and whether there were blocks enough; after the first write that runs
   * out of them nothing more is done. A write that is too big changes nothing.
   */
  function WriteFirst(s: Batch, k: nat, buf: seq<byte>): (r: (Batch, bool))
    requires k <= |s.items|
    ensures |r.0.items| == |s.items| && forall i: nat :: i < |s.items| ==> r.0.items[i].nr == s.items[i].nr
  {
    if k == 0 then (s, true)
    else
      var (s1, ok) := WriteFirst(s, k - 1, buf);
      var (a, r) := Alternate.Write(AltOf(s1, k - 1), 0, buf);
      if ok && (r == Done || r == Failed(EFBIG)) then (WithAlt(s1, k - 1, a), true) else (s1, false)
  }

  /** What is still to be saved. */
  function ToSave(s: Batch): (us: seq<Unsaved>)
    ensures |us| == |s.items|
  {
    seq(|s.items|, i requires 0 <= i < |s.items| => Unsaved(s.items[i].nr, s.items[i].d, s.items[i].tableDirty,
      s.items[i].table))
  }

  /** The volume with all changed indirect blocks applied. */
  function VAll(s: Batch): Vol
    requires Wf(ToSave(s))
  {
    WithDisk(s.v, TablesWritten(s.v.disk, ToSave(s)))
  }

  /** Number `nr` is that of item `i`. */
  predicate IsItem(s: Batch, i: nat, nr: nat) {
    i < |s.items| && s.items[i].nr == nr
  }

  /** The dinode of a number: that of its item, or the one it had. */
  ghost function DInodeOf(was: seq<DInode>, s: Batch, nr: nat): DInode
    requires nr < |was|
  {
    if exists i: nat :: IsItem(s, i, nr) then
      var i: nat :| IsItem(s, i, nr);
      s.items[i].d
    else was[nr]
  }

  /** The world as it will be when the batch is saved. */
  ghost function VWorld(w: World, s: Batch): World
    requires Wf(ToSave(s))
  {
    WorldData.World(VAll(s), w.live, seq(NR_INODES, nr requires 0 <= nr < NR_INODES => DInodeOf(w.inodes, s, nr)))
  }

  ghost predicate BatchOk(w: World, s: Batch) {
    && Wf(ToSave(s)) && Distinct(ToSave(s)) && BlocksConsistent(VWorld(w, s))
    && (forall i: nat :: i < |s.items| ==> ItemOk(w, s, i))
    && CsumClean(s.v.disk, s.v.csum, s.csumDirty)
  }

  ghost predicate ItemOk(w: World, s: Batch, i: nat)
    requires i < |s.items|
  {
    IsLive(w, s.items[i].nr) && Alternate.Coherent(AltOf(s, i)) && s.items[i].d.typ == I_FILE
  }

  /** Block `p` holds a changed indirect block. */
  ghost predicate IsTable(us: seq<Unsaved>, j: nat, p: int) {
    j < |us| && us[j].tableDirty && us[j].d.indirect == p
  }

  lemma {:induction false} TablesAt(disk: Disk, us: seq<Unsaved>, p: nat)
    requires Wf(us) && Distinct(us) && p < DISK_BLOCKS
    ensures forall j: nat :: IsTable(us, j, p) ==> TablesWritten(disk, us)[p] == OfInts(us[j].table)
    ensures (forall j: nat :: !IsTable(us, j, p)) ==> TablesWritten(disk, us)[p] == disk[p]
  {
    hide OfInts;
    if us != [] {
      var n := |us| - 1;
      TablesAt(disk, us[..n], p);
      forall j: nat | IsTable(us, j, p) ensures TablesWritten(disk, us)[p] == OfInts(us[j].table) {
        if j < n {
          assert IsTable(us[..n], j, p);
          assert us[j].nr != us[n].nr;
        }
      }
      if forall j: nat :: !IsTable(us, j, p) {
        assert !IsTable(us, n, p);
        forall j: nat ensures !IsTable(us[..n], j, p) {
          assert !IsTable(us, j, p);
        }
      }
    }
  }

  /** A file does not notice what happens to blocks that are not its own. */
  lemma AgreeOnOwn(v: Vol, v': Vol, d: DInode)
    requires Sound(v, d) && v'.used == v.used && v'.csum == v.csum
    requires forall p :: p in Own(v.disk, d, BlocksFor(d.size)) ==> IsData(p) && v'.disk[p] == v.disk[p]
    ensures Sound(v', d) && Contents(v'.disk, d) == Contents(v.disk, d)
    ensures Own(v'.disk, d, BlocksFor(d.size)) == Own(v.disk, d, BlocksFor(d.size))
    ensures forall l: nat :: Lookup(v'.disk, d, l) == Lookup(v.disk, d, l)
  {
    hide IntAt, Csum, Contents;
    var n := BlocksFor(d.size);
    SameOnOwn(v.disk, v'.disk, d, n);
    forall l: nat | l < n ensures CsumAt(v', d, l) && v'.disk[Lookup(v.disk, d, l)] == v.disk[Lookup(v.disk, d, l)] {
      InOwn(v.disk, d, n, l);
      assert CsumAt(v, d, l);
    }
    SameContents(v.disk, v'.disk, d);
  }

  /** The blocks of item `i`. */
  ghost function OwnItem(s: Batch, i: nat): set<int>
    requires i < |s.items| && Wf(ToSave(s))
  {
    Own(VAll(s).disk, s.items[i].d, BlocksFor(s.items[i].d.size))
  }

  lemma DInodeOfItem(was: seq<DInode>, s: Batch, i: nat)
    requires i < |s.items| && s.items[i].nr < |was| && Distinct(ToSave(s))
    ensures DInodeOf(was, s, s.items[i].nr) == s.items[i].d
  {
    var nr := s.items[i].nr;
    assert IsItem(s, i, nr);
    forall j: nat | IsItem(s, j, nr) ensures j == i {
      assert ToSave(s)[i].nr == nr && ToSave(s)[j].nr == nr;
    }
  }

  lemma ItemFacts(w: World, s: Batch, i: nat)
    requires BatchOk(w, s) && i < |s.items|
    ensures var it := s.items[i];
            && it.nr < NR_INODES && IsLive(VWorld(w, s), it.nr) && VWorld(w, s).inodes[it.nr] == it.d
                 && it.d.typ == I_FILE
            && Sound(VAll(s), it.d) && OwnOf(VWorld(w, s), it.nr) == OwnItem(s, i) && Alternate.Coherent(AltOf(s, i))
            && (it.d.indirect != 0 ==> it.d.indirect in OwnItem(s, i))
            && AllUsed(VAll(s), OwnItem(s, i))
  {
    hide TablesWritten, Lookup, Csum;
    assert ItemOk(w, s, i);
    DInodeOfItem(w.inodes, s, i);
    SizeKnown(VWorld(w, s), s.items[i].nr);
  }

  lemma ItemsApart(w: World, s: Batch, i: nat, j: nat)
    requires BatchOk(w, s) && i < |s.items| && j < |s.items| && i != j
    ensures OwnItem(s, i) !! OwnItem(s, j) && s.items[i].nr != s.items[j].nr
  {
    hide TablesWritten, Lookup, Csum, Sound, Own;
    ItemFacts(w, s, i);
    ItemFacts(w, s, j);
    assert ToSave(s)[i].nr != ToSave(s)[j].nr;
  }

  /** On the blocks `o` no other item's changed indirect block is in the way. */
  ghost predicate NoOtherTable(s: Batch, i: nat, o: set<int>) {
    forall j: nat, p :: j != i && p in o ==> !IsTable(ToSave(s), j, p)
  }

  lemma OthersElsewhere(w: World, s: Batch, i: nat)
    requires BatchOk(w, s) && i < |s.items|
    ensures NoOtherTable(s, i, OwnItem(s, i))
  {
    hide TablesWritten, Lookup, Csum, Sound, Own, VWorld;
    forall j: nat, p | j != i && p in OwnItem(s, i) ensures !IsTable(ToSave(s), j, p) {
      if IsTable(ToSave(s), j, p) {
        ItemFacts(w, s, j);
        ItemsApart(w, s, i, j);
      }
    }
  }

  /** Where no other item has a table, the whole batch and the item alone show the same blocks. */
  lemma SameThere(s: Batch, i: nat, o: set<int>)
    requires Wf(ToSave(s)) && Distinct(ToSave(s)) && i < |s.items| && NoOtherTable(s, i, o)
    ensures forall p :: p in o && 0 <= p < DISK_BLOCKS ==> VAll(s).disk[p] == Alternate.VDisk(AltOf(s, i))[p]
  {
    hide TablesWritten, OfInts;
    var us := ToSave(s);
    forall p | p in o && 0 <= p < DISK_BLOCKS ensures VAll(s).disk[p] == Alternate.VDisk(AltOf(s, i))[p] {
      TablesAt(s.v.disk, us, p);
      if IsTable(us, i, p) {
        assert WfUnsaved(us[i]);
      } else {
        assert forall j: nat :: !IsTable(us, j, p);
      }
    }
  }

  /** Every item can be written through the alternate path. */
  lemma ItemFit(w: World, s: Batch, i: nat)
    requires BatchOk(w, s) && i < |s.items|
    ensures var a := AltOf(s, i);
            && Alternate.Coherent(a) && a.d.size >= 0 && Sound(Alternate.VVol(a), a.d)
            && Contents(Alternate.VDisk(a), a.d) == Contents(VAll(s).disk, a.d)
            && Own(Alternate.VDisk(a), a.d, BlocksFor(a.d.size)) == OwnItem(s, i)
            && forall l: nat :: Lookup(Alternate.VDisk(a), a.d, l) == Lookup(VAll(s).disk, a.d, l)
  {
    hide TablesWritten, Lookup, CsumOk, Own, Contents, VWorld, Alternate.VDisk;
    var a := AltOf(s, i);
    ItemFacts(w, s, i);
    OthersElsewhere(w, s, i);
    SameThere(s, i, OwnItem(s, i));
    forall p | p in OwnItem(s, i) ensures IsData(p) {
      assert IsUsed(VAll(s), p);
    }
    SoundBound(VAll(s), a.d);
    AgreeOnOwn(VAll(s), Alternate.VVol(a), a.d);
  }

  /** Item `i` went from `a` to `b` and only its own blocks were involved. */
  ghost predicate ItemStep(w: World, s: Batch, i: nat, b: Alternate.Alt)
    requires i < |s.items|
  {
    var a := AltOf(s, i);
    && BatchOk(w, s) && Alternate.Coherent(b) && Sound(Alternate.VVol(b), b.d) && a.d.size >= 0 && b.d.typ == a.d.typ
    && OwnStep(Alternate.VVol(a), OwnItem(s, i), Alternate.VVol(b), OwnAlt(b))
    && CsumClean(b.v.disk, b.v.csum, b.csumDirty)
  }

  ghost function OwnAlt(b: Alternate.Alt): set<int> {
    Own(Alternate.VDisk(b), b.d, BlocksFor(b.d.size))
  }

  /** What the item gained belonged to no other item. */
  lemma GainedApart(w: World, s: Batch, i: nat, b: Alternate.Alt, j: nat)
    requires i < |s.items| && ItemStep(w, s, i, b) && j < |s.items| && j != i
    ensures OwnItem(s, j) !! OwnAlt(b)
  {
    hide TablesWritten, Lookup, Csum, Sound, Own, VWorld, Alternate.VDisk, Contents;
    ItemFacts(w, s, j);
    ItemsApart(w, s, i, j);
    var own, mine := OwnItem(s, j), OwnAlt(b);
    forall p | p in own ensures p !in mine {
      assert IsUsed(VAll(s), p) && IsUsed(Alternate.VVol(AltOf(s, i)), p);
    }
    assert own * mine == {};
  }

  lemma NewList(w: World, s: Batch, i: nat, b: Alternate.Alt)
    requires i < |s.items| && ItemStep(w, s, i, b)
    ensures Wf(ToSave(WithAlt(s, i, b))) && Distinct(ToSave(WithAlt(s, i, b)))
    ensures forall j: nat, p :: j != i ==> (IsTable(ToSave(WithAlt(s, i, b)), j, p) <==> IsTable(ToSave(s), j, p))
    ensures NoOtherTable(WithAlt(s, i, b), i, OwnAlt(b))
  {
    hide TablesWritten, Lookup, Csum, Sound, VWorld, Alternate.VDisk, Contents, OwnStep, BlocksConsistent;
    var us, us' := ToSave(s), ToSave(WithAlt(s, i, b));
    forall j: nat | j < |us| && j != i
      ensures us'[j] == us[j] && us[j].nr != us[i].nr && OwnItem(s, j) !! OwnAlt(b)
      ensures us[j].tableDirty ==> us[j].d.indirect in OwnItem(s, j)
    {
      ItemFacts(w, s, j);
      ItemsApart(w, s, i, j);
      GainedApart(w, s, i, b, j);
    }
    ItemFacts(w, s, i);
    assert b.d.indirect != 0 ==> b.d.indirect in OwnAlt(b);
  }

  lemma OwnTable(b: Alternate.Alt)
    requires Alternate.Coherent(b)
    ensures b.d.indirect != 0 ==> b.d.indirect in OwnAlt(b) && IsData(b.d.indirect)
  {
    hide Alternate.VDisk, OfInts;
  }

  lemma BatchOwnStep(w: World, s: Batch, i: nat, b: Alternate.Alt)
    requires i < |s.items| && ItemStep(w, s, i, b) && Wf(ToSave(WithAlt(s, i, b))) && Distinct(ToSave(WithAlt(s, i, b)))
    requires forall j: nat, p :: j != i ==> (IsTable(ToSave(WithAlt(s, i, b)), j, p) <==> IsTable(ToSave(s), j, p))
    ensures OwnStep(VAll(s), OwnItem(s, i), VAll(WithAlt(s, i, b)), OwnAlt(b))
  {
    hide TablesWritten, Lookup, Csum, Sound, VWorld, Contents, BlocksConsistent, OfInts, Own, CsumClean;
    var s' := WithAlt(s, i, b);
    var v, v', o, o' := VAll(s), VAll(s'), OwnItem(s, i), OwnAlt(b);
    ItemFacts(w, s, i);
    OwnTable(b);
    forall p | IsData(p) && p !in o && p !in o' ensures OtherKept(v, v', p) {
      assert OtherKept(Alternate.VVol(AltOf(s, i)), Alternate.VVol(b), p);
      BatchBlock(s, i, b, p);
    }
    forall p | 0 <= p < DATA_START && IsFixed(p) ensures v'.disk[p] == v.disk[p] {
      BatchBlock(s, i, b, p);
    }
    BatchCleared(w, s, i, b);
  }

  lemma TableIsUsed(w: World, s: Batch, j: nat, p: int)
    requires BatchOk(w, s) && IsTable(ToSave(s), j, p)
    ensures j < |s.items| && p in OwnItem(s, j) && IsUsed(s.v, p)
  {
    hide TablesWritten, Lookup, Csum, Sound, VWorld, Contents, BlocksConsistent, OfInts, Own, CsumClean;
    ItemFacts(w, s, j);
    assert IsUsed(VAll(s), p);
  }

  lemma TableStaysUsed(w: World, s: Batch, i: nat, b: Alternate.Alt, j: nat, p: int)
    requires i < |s.items| && ItemStep(w, s, i, b) && j != i && IsTable(ToSave(s), j, p)
    ensures IsUsed(b.v, p)
  {
    hide TablesWritten, Lookup, Csum, Sound, VWorld, Contents, BlocksConsistent, OfInts, Own, CsumClean;
    TableIsUsed(w, s, j, p);
    ItemsApart(w, s, i, j);
    GainedApart(w, s, i, b, j);
    assert OtherKept(Alternate.VVol(AltOf(s, i)), Alternate.VVol(b), p);
  }

  /** A free block holds nobody's indirect block, so that the batch and the item alone show the same. */
  lemma FreeShows(w: World, s: Batch, i: nat, p: int)
    requires BatchOk(w, s) && i < |s.items| && IsData(p) && !IsUsed(s.v, p)
    ensures VAll(s).disk[p] == s.v.disk[p] == Alternate.VDisk(AltOf(s, i))[p]
    ensures p !in OwnItem(s, i) && forall j: nat :: !IsTable(ToSave(s), j, p)
  {
    hide TablesWritten, Lookup, Csum, Sound, VWorld, Contents, BlocksConsistent, OfInts, Own, CsumClean;
    forall j: nat ensures !IsTable(ToSave(s), j, p) {
      if IsTable(ToSave(s), j, p) {
        TableIsUsed(w, s, j, p);
      }
    }
    ItemFacts(w, s, i);
    assert !IsUsed(VAll(s), p) && !IsTable(ToSave(s), i, p);
    TablesAt(s.v.disk, ToSave(s), p);
  }

  /** So it does when the item is written: what is free then is no table of another item. */
  lemma FreedShows(w: World, s: Batch, i: nat, b: Alternate.Alt, p: int)
    requires i < |s.items| && ItemStep(w, s, i, b) && Wf(ToSave(WithAlt(s, i, b))) && Distinct(ToSave(WithAlt(s, i, b)))
    requires forall j: nat, p :: j != i ==> (IsTable(ToSave(WithAlt(s, i, b)), j, p) <==> IsTable(ToSave(s), j, p))
    requires IsData(p) && !IsUsed(b.v, p)
    ensures VAll(WithAlt(s, i, b)).disk[p] == b.v.disk[p] == Alternate.VDisk(b)[p]
  {
    hide TablesWritten, Lookup, Csum, Sound, VWorld, Contents, BlocksConsistent, OfInts, Own, CsumClean;
    OwnTable(b);
    var us' := ToSave(WithAlt(s, i, b));
    forall j: nat ensures !IsTable(us', j, p) {
      if j != i && IsTable(ToSave(s), j, p) {
        TableStaysUsed(w, s, i, b, j, p);
      }
    }
    TablesAt(b.v.disk, us', p);
  }

  lemma BatchCleared(w: World, s: Batch, i: nat, b: Alternate.Alt)
    requires i < |s.items| && ItemStep(w, s, i, b) && Wf(ToSave(WithAlt(s, i, b))) && Distinct(ToSave(WithAlt(s, i, b)))
    requires forall j: nat, p :: j != i ==> (IsTable(ToSave(WithAlt(s, i, b)), j, p) <==> IsTable(ToSave(s), j, p))
    ensures Cleared(VAll(s), VAll(WithAlt(s, i, b)))
  {
    hide TablesWritten, Lookup, Csum, Sound, VWorld, Contents, BlocksConsistent, OfInts, Own, CsumClean;
    hide Alternate.VDisk, Alternate.Coherent;
    var v, v' := VAll(s), VAll(WithAlt(s, i, b));
    forall p | IsData(p) ensures ClearedAt(v, v', p) {
      assert ClearedAt(Alternate.VVol(AltOf(s, i)), Alternate.VVol(b), p);
      if !IsUsed(b.v, p) {
        FreedShows(w, s, i, b, p);
        if !IsUsed(s.v, p) {
          FreeShows(w, s, i, p);
        }
      }
    }
  }

  /** Any block but those of item `i` looks the same to the batch as it did, when it does to the item. */
  lemma BatchBlock(s: Batch, i: nat, b: Alternate.Alt, p: nat)
    requires i < |s.items| && p < DISK_BLOCKS && Wf(ToSave(s)) && Distinct(ToSave(s))
    requires Wf(ToSave(WithAlt(s, i, b))) && Distinct(ToSave(WithAlt(s, i, b)))
    requires forall j: nat, q :: j != i ==> (IsTable(ToSave(WithAlt(s, i, b)), j, q) <==> IsTable(ToSave(s), j, q))
    requires !IsTable(ToSave(s), i, p) && !IsTable(ToSave(WithAlt(s, i, b)), i, p)
    requires p != 0 ==> AltOf(s, i).d.indirect != p && b.d.indirect != p
    ensures Alternate.VDisk(b)[p] == Alternate.VDisk(AltOf(s, i))[p] ==>
      VAll(WithAlt(s, i, b)).disk[p] == VAll(s).disk[p]
    ensures b.v.disk[p] == s.v.disk[p] <==> Alternate.VDisk(b)[p] == Alternate.VDisk(AltOf(s, i))[p]
  {
    hide TablesWritten, OfInts;
    var s' := WithAlt(s, i, b);
    var us, us' := ToSave(s), ToSave(s');
    TablesAt(s.v.disk, us, p);
    TablesAt(b.v.disk, us', p);
    if j: nat :| IsTable(us, j, p) {
      assert IsTable(us', j, p) && us'[j].table == us[j].table;
    } else {
      forall j: nat ensures !IsTable(us', j, p) {
        assert !IsTable(us, j, p);
      }
    }
  }

  /** The other items' cached indirect blocks are still right. */
  lemma OthersCoherent(w: World, s: Batch, i: nat, b: Alternate.Alt, j: nat)
    requires i < |s.items| && ItemStep(w, s, i, b) && j < |s.items| && j != i
    requires Wf(ToSave(WithAlt(s, i, b))) && Distinct(ToSave(WithAlt(s, i, b)))
    requires forall j: nat, p :: j != i ==> (IsTable(ToSave(WithAlt(s, i, b)), j, p) <==> IsTable(ToSave(s), j, p))
    ensures Alternate.Coherent(AltOf(WithAlt(s, i, b), j))
  {
    hide TablesWritten, Lookup, Csum, Sound, VWorld, Contents, BlocksConsistent, OfInts, CsumClean;
    var a, a' := AltOf(s, j), AltOf(WithAlt(s, i, b), j);
    ItemFacts(w, s, i);
    ItemFacts(w, s, j);
    ItemsApart(w, s, i, j);
    GainedApart(w, s, i, b, j);
    var p := a.d.indirect;
    if a.loaded && p != 0 && !a.tableDirty {
      assert p in OwnItem(s, j) && p !in OwnItem(s, i) && p !in OwnAlt(b);
      assert b.d.indirect != 0 ==> b.d.indirect in OwnAlt(b);
      assert OtherKept(Alternate.VVol(AltOf(s, i)), Alternate.VVol(b), p);
      BatchBlock(s, i, b, p);
    }
  }

  lemma ItemSound(w: World, s: Batch, i: nat, b: Alternate.Alt)
    requires i < |s.items| && ItemStep(w, s, i, b)
    requires Wf(ToSave(WithAlt(s, i, b))) && Distinct(ToSave(WithAlt(s, i, b)))
    requires NoOtherTable(WithAlt(s, i, b), i, OwnAlt(b))
    ensures var v := VAll(WithAlt(s, i, b));
            && Sound(v, b.d) && b.d.size >= 0 && Contents(v.disk, b.d) == Contents(Alternate.VDisk(b), b.d)
            && Own(v.disk, b.d, BlocksFor(b.d.size)) == OwnAlt(b)
  {
    hide TablesWritten, Csum, VWorld, Contents, BlocksConsistent, OfInts, CsumClean, Lookup, CsumOk, WfMap;
    hide Distinct, Wf;
    var s' := WithAlt(s, i, b);
    SameThere(s', i, OwnAlt(b));
    assert AltOf(s', i) == b;
    forall p | p in OwnAlt(b) ensures IsData(p) {
      assert IsUsed(Alternate.VVol(b), p);
    }
    SoundBound(Alternate.VVol(b), b.d);
    AgreeOnOwn(Alternate.VVol(b), VAll(s'), b.d);
  }

  lemma WorldMoves(w: World, s: Batch, i: nat, b: Alternate.Alt)
    requires i < |s.items| && s.items[i].nr < NR_INODES && Wf(ToSave(s)) && Distinct(ToSave(s))
    requires Wf(ToSave(WithAlt(s, i, b))) && Distinct(ToSave(WithAlt(s, i, b)))
    ensures VWorld(w, WithAlt(s, i, b)) == With(VWorld(w, s), VAll(WithAlt(s, i, b)), s.items[i].nr, b.d)
  {
    hide TablesWritten, Wf;
    var s' := WithAlt(s, i, b);
    forall nr: nat | nr < NR_INODES
      ensures DInodeOf(w.inodes, s', nr) == if nr == s.items[i].nr then b.d else DInodeOf(w.inodes, s, nr) {
      if j: nat :| IsItem(s, j, nr) {
        DInodeOfItem(w.inodes, s, j);
        DInodeOfItem(w.inodes, s', j);
        assert ToSave(s)[j].nr == s.items[j].nr && ToSave(s)[i].nr == s.items[i].nr;
      } else {
        assert !IsItem(s, i, nr);
        forall j: nat ensures !IsItem(s', j, nr) {
          assert !IsItem(s, j, nr);
        }
      }
    }
    assert VWorld(w, s').inodes == VWorld(w, s).inodes[s.items[i].nr := b.d];
  }

  /** One item was written: the batch is in order again, and of all files only this one changed. */
  lemma BatchStep(w: World, s: Batch, i: nat, b: Alternate.Alt)
    requires i < |s.items| && ItemStep(w, s, i, b)
    ensures var s' := WithAlt(s, i, b);
            && BatchOk(w, s') && b.d.size >= 0
            && FilesOf(VWorld(w, s'))
                 == FilesOf(VWorld(w, s))[s.items[i].nr := Node(I_FILE, Contents(Alternate.VDisk(b), b.d))]
    ensures OwnItem(WithAlt(s, i, b), i) == OwnAlt(b)
  {
    hide TablesWritten, Csum, Sound, VWorld, Contents, BlocksConsistent, OfInts, CsumClean, Own, OwnStep, Distinct, Wf;
    hide Alternate.VDisk, NoOtherTable, VAll, Alternate.Coherent, FilesOf, ItemStep;
    var s' := WithAlt(s, i, b);
    StepParts(w, s, i, b);
    NewList(w, s, i, b);
    ItemFacts(w, s, i);
    BatchOwnStep(w, s, i, b);
    ItemSound(w, s, i, b);
    WorldMoves(w, s, i, b);
    StepOne(VWorld(w, s), s.items[i].nr, VAll(s'), b.d);
    forall j: nat | j < |s'.items| ensures ItemOk(w, s', j) {
      assert ItemOk(w, s, j);
      if j != i {
        OthersCoherent(w, s, i, b, j);
      } else {
        assert AltOf(s', i) == b;
      }
    }
  }

  lemma StepParts(w: World, s: Batch, i: nat, b: Alternate.Alt)
    requires i < |s.items| && ItemStep(w, s, i, b)
    ensures BatchOk(w, s) && Alternate.Coherent(b) && b.d.typ == s.items[i].d.typ
    ensures CsumClean(b.v.disk, b.v.csum, b.csumDirty)
    ensures Wf(ToSave(s)) && VWorld(w, s).vol == VAll(s)
  {
    hide Alternate.Coherent, CsumClean;
  }

  // The files that writing makes

  /** File `nr` overlaid with the bytes from `start` on, unless they reach behind what any file can hold. */
  function OneWritten(files: Files, nr: nat, start: nat, buf: seq<byte>): Files {
    if nr in files && start <= |files[nr].bytes| && LastBlock(start, |buf|) < NR_MAPPED then
      files[nr := Node(files[nr].typ, Overlay(files[nr].bytes, start, buf))]
    else
      files
  }

  /** All these files overlaid with the same bytes. */
  function AllWritten(files: Files, nrs: seq<nat>, buf: seq<byte>): Files {
    if nrs == [] then files else OneWritten(AllWritten(files, nrs[..|nrs| - 1], buf), nrs[|nrs| - 1], 0, buf)
  }

  function NumbersOf(s: Batch, k: nat): (nrs: seq<nat>)
    requires k <= |s.items|
    ensures |nrs| == k
  {
    seq(k, i requires 0 <= i < k => s.items[i].nr)
  }

  lemma ItemFile(w: World, s: Batch, i: nat)
    requires BatchOk(w, s) && i < |s.items|
    ensures var files := FilesOf(VWorld(w, s));
            && s.items[i].nr in files && s.items[i].d.size >= 0
            && files[s.items[i].nr] == Node(I_FILE, Contents(Alternate.VDisk(AltOf(s, i)), s.items[i].d))
  {
    hide TablesWritten, Csum, Sound, Contents, OfInts, Own, Distinct, Wf, Alternate.VDisk, VAll, Alternate.Coherent;
    ItemFacts(w, s, i);
    ItemFit(w, s, i);
  }

  /** Where item `i` can be written from. */
  predicate StartsIn(s: Batch, i: nat, start: nat) {
    i < |s.items| && start % BLOCK_SIZE == 0 && start <= s.items[i].d.size
  }

  lemma WriteItem(w: World, s: Batch, i: nat, start: nat, buf: seq<byte>)
    requires BatchOk(w, s) && StartsIn(s, i, start) && buf != [] && Alternate.Write(AltOf(s, i), start, buf).1 == Done
    ensures var b := Alternate.Write(AltOf(s, i), start, buf).0;
            && ItemStep(w, s, i, b) && b.d.size >= 0 && s.items[i].d.size >= 0
            && Contents(Alternate.VDisk(b), b.d)
                 == Overlay(Contents(Alternate.VDisk(AltOf(s, i)), s.items[i].d), start, buf)
            && Slots(s.v) <= Slots(b.v) + 133 && FixedKept(s.v.disk, b.v.disk)
    ensures LastBlock(start, |buf|) < NR_MAPPED
  {
    hide TablesWritten, Csum, Sound, VWorld, Contents, BlocksConsistent, OfInts, Own, OwnStep, Distinct, Wf, ItemOk;
    hide Alternate.VDisk, VAll, Alternate.Coherent, Alternate.Write, LastBlock, Bits.Zeros, OwnItem, Mapped;
    hide CsumOk, Overlay;
    var a := AltOf(s, i);
    var b := Alternate.Write(a, start, buf).0;
    ItemFit(w, s, i);
    Alternate.WriteIs(a, start, buf);
    Alternate.WriteClean(a, start, buf);
    AfterWrite(Alternate.VVol(a), a.d, start, buf, Alternate.VVol(b), b.d);
    Alternate.SoundBlocks(Alternate.VVol(a), a.d);
    FixedBelow(a, b);
  }

  lemma FixedBelow(a: Alternate.Alt, b: Alternate.Alt)
    requires a.d.size >= 0 && b.d.size >= 0
    requires OwnStep(Alternate.VVol(a), Own(Alternate.VDisk(a), a.d, BlocksFor(a.d.size)), Alternate.VVol(b), OwnAlt(b))
    ensures FixedKept(a.v.disk, b.v.disk)
  {
    hide Own, OfInts, OtherKept;
  }

  /** One more write, whatever comes of it. */
  lemma WriteNext(w: World, s: Batch, i: nat, start: nat, buf: seq<byte>)
    requires BatchOk(w, s) && StartsIn(s, i, start)
    requires var r := Alternate.Write(AltOf(s, i), start, buf).1; r == Done || r == Failed(EFBIG)
    ensures var s' := WithAlt(s, i, Alternate.Write(AltOf(s, i), start, buf).0);
            && BatchOk(w, s') && Slots(s.v) <= Slots(s'.v) + 133 && FixedKept(s.v.disk, s'.v.disk)
            && FilesOf(VWorld(w, s')) == OneWritten(FilesOf(VWorld(w, s)), s.items[i].nr, start, buf)
  {
    hide TablesWritten, Csum, Sound, VWorld, Contents, BlocksConsistent, OfInts, Own, OwnStep, Distinct, Wf;
    hide ItemOk, FilesOf;
    hide Alternate.VDisk, VAll, Alternate.Coherent, Alternate.Write, LastBlock, Bits.Zeros, OwnItem, Mapped;
    hide CsumOk, Overlay, ItemStep, BatchOk, Lookup;
    var a := AltOf(s, i);
    var (b, r) := Alternate.Write(a, start, buf);
    StepFacts(w, s);
    ItemFile(w, s, i);
    if r == Done && buf != [] {
      WriteItem(w, s, i, start, buf);
      BatchStep(w, s, i, b);
    } else {
      NothingChanges(w, s, i, start, buf);
    }
  }

  lemma StepFacts(w: World, s: Batch)
    requires BatchOk(w, s)
    ensures Wf(ToSave(s)) && Distinct(ToSave(s)) && BlocksConsistent(VWorld(w, s))
  {
  }

  lemma NothingChanges(w: World, s: Batch, i: nat, start: nat, buf: seq<byte>)
    requires BatchOk(w, s) && StartsIn(s, i, start)
    requires Alternate.Write(AltOf(s, i), start, buf).1 == Failed(EFBIG) || buf == []
    ensures WithAlt(s, i, Alternate.Write(AltOf(s, i), start, buf).0) == s
    ensures OneWritten(FilesOf(VWorld(w, s)), s.items[i].nr, start, buf) == FilesOf(VWorld(w, s))
  {
    hide TablesWritten, Csum, Sound, VWorld, Contents, BlocksConsistent, OfInts, Own, Distinct, Wf, ItemOk, FilesOf;
    hide Alternate.VDisk, VAll, Alternate.Coherent, Bits.Zeros, Mapped, CsumOk, BatchOk, Lookup;
    hide Alternate.WriteRun, Alternate.WriteBlock;
    StepFacts(w, s);
    if buf != [] {
      ItemFit(w, s, i);
      Alternate.WriteIs(AltOf(s, i), start, buf);
      Alternate.BodyAndTail(start, |buf|);
    } else {
      ItemFile(w, s, i);
      NothingOverlaid(FilesOf(VWorld(w, s)), s.items[i].nr, start);
    }
    SameItem(s, i);
  }

  lemma SameItem(s: Batch, i: nat)
    requires i < |s.items|
    ensures WithAlt(s, i, AltOf(s, i)) == s
  {
  }

  lemma NothingOverlaid(files: Files, nr: nat, start: nat)
    requires nr in files && start <= |files[nr].bytes|
    ensures OneWritten(files, nr, start, []) == files
  {
    assert Overlay(files[nr].bytes, start, []) == files[nr].bytes;
  }

  /** Writing any number of them one after another overlays exactly these files, in memory and on the volume. */
  lemma {:induction false} WriteFirstOk(w: World, s: Batch, k: nat, buf: seq<byte>)
    requires BatchOk(w, s) && k <= |s.items|
    ensures var (s', ok) := WriteFirst(s, k, buf);
            ok ==>
              && BatchOk(w, s') && FixedKept(s.v.disk, s'.v.disk)
              && FilesOf(VWorld(w, s')) == AllWritten(FilesOf(VWorld(w, s)), NumbersOf(s, k), buf)
  {
    hide Alternate.Write, BatchOk, VWorld, FilesOf, OneWritten, BlocksConsistent, Wf;
    StepFacts(w, s);
    if k > 0 {
      WriteFirstOk(w, s, k - 1, buf);
      var (s1, ok) := WriteFirst(s, k - 1, buf);
      assert NumbersOf(s, k)[..k - 1] == NumbersOf(s, k - 1);
      if WriteFirst(s, k, buf).1 {
        StepFacts(w, s1);
        ItemFile(w, s1, k - 1);
        WriteNext(w, s1, k - 1, 0, buf);
      }
    }
  }

  /** With enough free blocks that have a checksum slot every write goes through. */
  lemma {:induction false} EnoughBlocks(w: World, s: Batch, k: nat, buf: seq<byte>)
    requires BatchOk(w, s) && k <= |s.items| && Slots(s.v) >= 133 * k
    ensures var (s', ok) := WriteFirst(s, k, buf); ok && Slots(s'.v) + 133 * k >= Slots(s.v)
  {
    hide Alternate.Write, BatchOk, VWorld, Slots, FilesOf, BlocksConsistent, FixedKept, OneWritten, AllWritten;
    hide Contents, Wf;
    hide WithAlt, AltOf;
    if k > 0 {
      EnoughBlocks(w, s, k - 1, buf);
      WriteFirstOk(w, s, k - 1, buf);
      EnoughForOne(w, WriteFirst(s, k - 1, buf).0, k - 1, buf);
    }
  }

  lemma EnoughForOne(w: World, s: Batch, i: nat, buf: seq<byte>)
    requires BatchOk(w, s) && i < |s.items| && Slots(s.v) >= 133
    ensures var (a, r) := Alternate.Write(AltOf(s, i), 0, buf);
            (r == Done || r == Failed(EFBIG)) && Slots(WithAlt(s, i, a).v) + 133 >= Slots(s.v)
  {
    hide Alternate.Write, BatchOk, VWorld, Slots, FilesOf, BlocksConsistent, FixedKept, OneWritten, Contents, Wf;
    CanWrite(w, s, i, buf);
    ItemFile(w, s, i);
    WriteNext(w, s, i, 0, buf);
  }

  lemma CanWrite(w: World, s: Batch, i: nat, buf: seq<byte>)
    requires BatchOk(w, s) && i < |s.items| && Slots(s.v) >= 133
    ensures var r := Alternate.Write(AltOf(s, i), 0, buf).1; r == Done || r == Failed(EFBIG)
  {
    hide TablesWritten, Csum, Sound, VWorld, Contents, BlocksConsistent, OfInts, Own, Distinct, Wf, ItemOk, BatchOk;
    hide Alternate.VDisk, VAll, Alternate.Coherent, Bits.Zeros, Mapped, CsumOk, Lookup, Alternate.WriteRun;
    hide Alternate.WriteBlock, Alternate.ReadBlock;
    if buf != [] {
      ItemFit(w, s, i);
      Alternate.WriteIs(AltOf(s, i), 0, buf);
      SoundBound(Alternate.VVol(AltOf(s, i)), s.items[i].d);
      RoomBounds(s.v);
    }
  }

  // Whether all writes go through, told from the files before the first of them

  /** Free blocks that writing `len` bytes at the start of a file takes; too many bytes for a file change nothing. */
  function WriteCost(d: DInode, len: nat): nat {
    var n, last := BlocksFor(Max(d.size, 0)), LastBlock(0, len);
    if len == 0 || last >= NR_MAPPED || n > last then 0 else Cost(d.indirect != 0, n, last + 1)
  }

  function CostOf(ds: seq<DInode>, len: nat): nat {
    if ds == [] then 0 else CostOf(ds[..|ds| - 1], len) + WriteCost(ds[|ds| - 1], len)
  }

  /** What is left when `k` blocks were taken, those with a checksum slot first. */
  function RoomLeft(room: Room, k: nat): Room {
    Room(Max(room.free - k, 0), Max(room.slots - k, 0))
  }

  /** The write ends well, or has too many bytes for a file. */
  predicate GoesThrough(d: DInode, len: nat, room: Room) {
    || len == 0 || LastBlock(0, len) >= NR_MAPPED
    || Alternate.AltOutcome(Max(d.size, 0), d.indirect != 0, LastBlock(0, len), room) == Done
  }

  /** Each write goes through in the room that those before it leave. */
  predicate AllGo(ds: seq<DInode>, len: nat, room: Room) {
    forall i: nat :: i < |ds| ==> GoesThrough(ds[i], len, RoomLeft(room, CostOf(ds[..i], len)))
  }

  function DInodesOf(s: Batch, k: nat): (ds: seq<DInode>)
    requires k <= |s.items|
    ensures |ds| == k && forall i :: 0 <= i < k ==> ds[i] == s.items[i].d
  {
    seq(k, i requires 0 <= i < k => s.items[i].d)
  }

  /** One write: whether it goes through, and what it leaves. */
  lemma WriteWhen(w: World, s: Batch, i: nat, buf: seq<byte>)
    requires BatchOk(w, s) && i < |s.items|
    ensures var (b, r) := Alternate.Write(AltOf(s, i), 0, buf); var ok := r == Done || r == Failed(EFBIG);
            && (ok <==> GoesThrough(s.items[i].d, |buf|, RoomOf(s.v)))
            && (ok ==> RoomOf(b.v) == RoomLeft(RoomOf(s.v), WriteCost(s.items[i].d, |buf|)))
  {
    hide TablesWritten, Csum, Sound, VWorld, Contents, BlocksConsistent, OfInts, Own, Distinct, Wf, ItemOk, BatchOk;
    hide Alternate.VDisk, VAll, Alternate.Coherent, Bits.Zeros, Slots, Mapped, CsumOk, Lookup, Alternate.Write, OwnStep;
    if buf != [] && LastBlock(0, |buf|) < NR_MAPPED {
      ItemFit(w, s, i);
      Alternate.WriteIs(AltOf(s, i), 0, buf);
      SoundBound(Alternate.VVol(AltOf(s, i)), s.items[i].d);
      RoomBounds(s.v);
      SameRoom(s.v, Alternate.VVol(AltOf(s, i)));
      var b := Alternate.Write(AltOf(s, i), 0, buf).0;
      SameRoom(b.v, Alternate.VVol(b));
    } else {
      NoneTaken(w, s, i, buf);
    }
  }

  lemma SameRoom(v: Vol, v': Vol)
    requires v'.used == v.used
    ensures RoomOf(v') == RoomOf(v)
  {
  }

  lemma NoneTaken(w: World, s: Batch, i: nat, buf: seq<byte>)
    requires BatchOk(w, s) && i < |s.items| && (buf == [] || LastBlock(0, |buf|) >= NR_MAPPED)
    ensures var (b, r) := Alternate.Write(AltOf(s, i), 0, buf);
            (r == Done || r == Failed(EFBIG)) && b.v == s.v
  {
    hide BatchOk, Alternate.WriteRun, Alternate.WriteBlock, Alternate.ReadBlock;
    if buf != [] {
      Alternate.BodyAndTail(0, |buf|);
    }
  }

  /** All writes go through exactly when there is room for one after another. */
  lemma {:induction false} WriteFirstWhen(w: World, s: Batch, k: nat, buf: seq<byte>)
    requires BatchOk(w, s) && k <= |s.items|
    ensures var (s', ok) := WriteFirst(s, k, buf);
            && (ok <==> AllGo(DInodesOf(s, k), |buf|, RoomOf(s.v)))
            && (ok ==> RoomOf(s'.v) == RoomLeft(RoomOf(s.v), CostOf(DInodesOf(s, k), |buf|)))
            && (ok ==> forall i :: k <= i < |s.items| ==> s'.items[i] == s.items[i])
  {
    hide Alternate.Write, BatchOk, VWorld, FilesOf, BlocksConsistent, Wf, GoesThrough, WriteCost, Bits.Zeros, Slots;
    hide AllGo, RoomLeft, RoomOf, FixedKept, AllWritten;
    var ds := DInodesOf(s, k);
    if k > 0 {
      WriteFirstWhen(w, s, k - 1, buf);
      WriteFirstOk(w, s, k - 1, buf);
      var (s1, ok1) := WriteFirst(s, k - 1, buf);
      assert ds[..k - 1] == DInodesOf(s, k - 1);
      AllGoStep(ds, |buf|, RoomOf(s.v));
      if ok1 {
        WriteWhen(w, s1, k - 1, buf);
        LeftTwice(RoomOf(s.v), CostOf(ds[..k - 1], |buf|), WriteCost(ds[k - 1], |buf|));
      }
    } else {
      NoneGo(RoomOf(s.v), |buf|);
      assert ds == [];
    }
  }

  lemma NoneGo(room: Room, len: nat)
    ensures AllGo([], len, room) && RoomLeft(room, CostOf([], len)) == room
  {
  }

  lemma AllGoStep(ds: seq<DInode>, len: nat, room: Room)
    requires ds != []
    ensures var n := |ds| - 1;
            AllGo(ds, len, room) <==>
              AllGo(ds[..n], len, room) && GoesThrough(ds[n], len, RoomLeft(room, CostOf(ds[..n], len)))
  {
    hide GoesThrough, WriteCost, RoomLeft;
    var n := |ds| - 1;
    if AllGo(ds, len, room) {
      forall i: nat | i < n ensures GoesThrough(ds[..n][i], len, RoomLeft(room, CostOf(ds[..n][..i], len))) {
        assert ds[..n][..i] == ds[..i];
        assert GoesThrough(ds[i], len, RoomLeft(room, CostOf(ds[..i], len)));
      }
    }
    if AllGo(ds[..n], len, room) && GoesThrough(ds[n], len, RoomLeft(room, CostOf(ds[..n], len))) {
      forall i: nat | i < |ds| ensures GoesThrough(ds[i], len, RoomLeft(room, CostOf(ds[..i], len))) {
        if i < n {
          assert ds[..n][..i] == ds[..i];
          assert GoesThrough(ds[..n][i], len, RoomLeft(room, CostOf(ds[..n][..i], len)));
        }
      }
    }
  }

  lemma LeftTwice(room: Room, j: nat, k: nat)
    ensures RoomLeft(RoomLeft(room, j), k) == RoomLeft(room, j + k)
  {
  }

  // Saving the batch

  /** The volume when the inodes, the block freemap and the changed blocks of the checksum table have been saved. */
  function Committed(s: Batch): Vol
    requires Wf(ToSave(s))
  {
    WithDisk(s.v, CsumFlushed(WithFreemap(SyncedOneByOne(s.v.disk, ToSave(s)), s.v.used), s.v.csum, s.csumDirty,
      CSUM_TABLE_SIZE))
  }

  lemma {:induction false} DInodesAt(disk: Disk, us: seq<Unsaved>, nr: nat)
    requires Wf(us) && Distinct(us) && nr < NR_INODES
    ensures forall i :: 0 <= i < |us| && us[i].nr == nr ==> DiskInode(DInodesWritten(disk, us), nr) == us[i].d
    ensures (forall i :: 0 <= i < |us| ==> us[i].nr != nr) ==>
      DiskInode(DInodesWritten(disk, us), nr) == DiskInode(disk, nr)
  {
    hide DiskInode, WithDInode;
    if us != [] {
      var n := |us| - 1;
      DInodesAt(disk, us[..n], nr);
      DInodeAt(DInodesWritten(disk, us[..n]), us[n].nr, us[n].d, nr);
      assert us[..n + 1] == us;
    }
  }

  lemma DInodeAt(disk: Disk, i: nat, d: DInode, nr: nat)
    requires i < NR_INODES && nr < NR_INODES
    ensures DiskInode(WithDInode(disk, i, d), nr) == if i == nr then d else DiskInode(disk, nr)
  {
    hide DecodeDInode, EncodeDInode;
    if i == nr {
      DecodeEncodeDInode(disk[INODE_START + nr / 16], nr, d);
    } else if i / 16 == nr / 16 {
      DecodeEncodeOther(disk[INODE_START + nr / 16], i, d, nr);
    }
  }

  lemma {:induction false} DInodesElsewhere(disk: Disk, us: seq<Unsaved>, p: nat)
    requires Wf(us) && p < DISK_BLOCKS && !(INODE_START <= p < DATA_START)
    ensures DInodesWritten(disk, us)[p] == disk[p]
  {
    hide EncodeDInode;
    if us != [] {
      DInodesElsewhere(disk, us[..|us| - 1], p);
    }
  }

  lemma {:induction false} TablesElsewhere(disk: Disk, us: seq<Unsaved>, p: nat)
    requires Wf(us) && p < DATA_START
    ensures TablesWritten(disk, us)[p] == disk[p]
  {
    hide OfInts;
    if us != [] {
      TablesElsewhere(disk, us[..|us| - 1], p);
    }
  }

  /** What is on the device when all is saved. */
  lemma CommittedDisk(s: Batch)
    requires Wf(ToSave(s)) && Distinct(ToSave(s)) && CsumClean(s.v.disk, s.v.csum, s.csumDirty)
    ensures var v := Committed(s);
            && (forall p :: IsData(p) ==> v.disk[p] == VAll(s).disk[p])
            && TableSaved(v.disk, v.csum) && FreemapSaved(v.disk, v.used)
            && (forall i: nat :: i < |s.items| ==>
                 s.items[i].nr < NR_INODES && DiskInode(v.disk, s.items[i].nr) == s.items[i].d)
            && (forall nr: nat :: nr < NR_INODES && !IsSome(s, nr) ==> DiskInode(v.disk, nr) == DiskInode(s.v.disk, nr))
    ensures forall p :: 0 <= p < INODE_START && (p == 0 || p == 1) ==> Committed(s).disk[p] == s.v.disk[p]
  {
    hide TablesWritten, DInodesWritten, SyncedOneByOne, TableBlock, DecodeDInode, Bits.FreemapBlock, CsumFlushed;
    var us, v := ToSave(s), Committed(s);
    TablesFirst(s.v.disk, us);
    var d1 := TablesWritten(s.v.disk, us);
    var d2 := DInodesWritten(d1, us);
    forall p: nat | p < DISK_BLOCKS
      ensures v.disk[p] == if p == 2 then Bits.FreemapBlock(s.v.used, 0)
        else if p == 3 then Bits.FreemapBlock(s.v.used, 1)
                           else if 4 <= p < INODE_START
                             && s.csumDirty[p - 4] then TableBlock(s.v.csum, p - 4) else d2[p]
      ensures !(INODE_START <= p < DATA_START) ==> d2[p] == d1[p]
      ensures p < DATA_START ==> d1[p] == s.v.disk[p]
    {
      CsumFlushedAt(WithFreemap(d2, s.v.used), s.v.csum, s.csumDirty, CSUM_TABLE_SIZE, p);
      if !(INODE_START <= p < DATA_START) {
        DInodesElsewhere(d1, us, p);
      }
      if p < DATA_START {
        TablesElsewhere(s.v.disk, us, p);
      }
    }
    forall nr: nat | nr < NR_INODES
      ensures DiskInode(v.disk, nr) == DiskInode(d2, nr) && DiskInode(d1, nr) == DiskInode(s.v.disk, nr)
      ensures forall i :: 0 <= i < |us| && us[i].nr == nr ==> DiskInode(d2, nr) == us[i].d
      ensures !IsSome(s, nr) ==> DiskInode(d2, nr) == DiskInode(d1, nr)
    {
      DInodesAt(d1, us, nr);
      if !IsSome(s, nr) {
        forall i | 0 <= i < |us| ensures us[i].nr != nr {
          assert !IsItem(s, i, nr);
        }
      }
    }
    forall i: nat | i < |s.items|
      ensures s.items[i].nr < NR_INODES && DiskInode(v.disk, s.items[i].nr) == s.items[i].d {
      assert WfUnsaved(us[i]);
    }
  }

  /** Both blocks of the block freemap are on the device. */
  ghost predicate FreemapSaved(disk: Disk, used: seq<bool>)
    requires |used| == NR_BLOCK_BITS
  {
    disk[2] == Bits.FreemapBlock(used, 0) && disk[3] == Bits.FreemapBlock(used, 1)
  }

  ghost predicate IsSome(s: Batch, nr: nat) {
    exists i: nat :: IsItem(s, i, nr)
  }

  /** The world afterwards: saved dinodes are those on the device, the others were not touched. */
  ghost predicate SavedWorld(w: World, s: Batch, w': World) {
    && Wf(ToSave(s)) && w'.vol == Committed(s) && w'.live == w.live
    && forall nr: nat :: nr < NR_INODES ==> w'.inodes[nr] == DInodeOf(w.inodes, s, nr)
  }

  /** The saved batch is consistent, holds the files of the batch, and nothing of it is in memory only. */
  lemma CommittedWorld(w: World, s: Batch, w': World)
    requires BatchOk(w, s) && SavedWorld(w, s, w')
    ensures BlocksConsistent(w') && FilesOf(w') == FilesOf(VWorld(w, s))
    ensures TableSaved(w'.vol.disk, w'.vol.csum) && FreemapSaved(w'.vol.disk, w'.vol.used)
  {
    hide TablesWritten, CsumFlushed, BlocksConsistent, FilesOf, SyncedOneByOne, TableBlock, Bits.FreemapBlock, DInodeOf;
    CommittedDisk(s);
    var w1 := VWorld(w, s);
    assert w'.inodes == w1.inodes;
    StepNone(w1, w'.vol);
  }

  // Starting a batch

  /** The inodes `nrs` as they come from the disk. */
  function StartBatch(w: World, csumDirty: seq<bool>, nrs: seq<nat>): (s: Batch)
    requires |csumDirty| == CSUM_TABLE_SIZE && forall i :: 0 <= i < |nrs| ==> nrs[i] < NR_INODES
    ensures |s.items| == |nrs| && NumbersOf(s, |nrs|) == nrs
  {
    Batch(w.vol, csumDirty, seq(|nrs|, i requires 0 <= i < |nrs| && nrs[i] < NR_INODES =>
      Item(nrs[i], w.inodes[nrs[i]], seq(128, _ => 0), false, false, false)))
  }

  /** All are different, live, plain files. */
  ghost predicate PlainFiles(w: World, nrs: seq<nat>)
  {
    && (forall i :: 0 <= i < |nrs| ==> IsPlain(w, nrs[i]))
    && (forall i, j :: 0 <= i < j < |nrs| ==> nrs[i] != nrs[j])
  }

  predicate IsPlain(w: World, nr: nat) {
    IsLive(w, nr) && w.inodes[nr].typ == I_FILE
  }

  lemma StartOk(w: World, csumDirty: seq<bool>, nrs: seq<nat>)
    requires BlocksConsistent(w) && PlainFiles(w, nrs) && |csumDirty| == CSUM_TABLE_SIZE
    requires CsumClean(w.vol.disk, w.vol.csum, csumDirty)
    ensures var s := StartBatch(w, csumDirty, nrs); BatchOk(w, s) && VWorld(w, s) == w
  {
    hide BlocksConsistent, Sound, CsumClean;
    var s := StartBatch(w, csumDirty, nrs);
    forall i: nat | i < |nrs|
      ensures s.items[i].nr == nrs[i] && s.items[i].d == w.inodes[nrs[i]] && IsPlain(w, nrs[i]) {
    }
    assert Distinct(ToSave(s));
    NothingToWrite(w.vol.disk, ToSave(s));
    forall nr: nat | nr < NR_INODES ensures DInodeOf(w.inodes, s, nr) == w.inodes[nr] {
      if i: nat :| IsItem(s, i, nr) {
        DInodeOfItem(w.inodes, s, i);
      }
    }
    assert VWorld(w, s).inodes == w.inodes;
    forall i: nat | i < |nrs| ensures ItemOk(w, s, i) {
      SizeKnown(w, nrs[i]);
      SoundIndirect(w.vol, w.inodes[nrs[i]]);
    }
  }

  lemma SoundIndirect(v: Vol, d: DInode)
    requires Sound(v, d)
    ensures d.indirect == 0 || IsData(d.indirect)
  {
  }

  lemma {:induction false} NothingToWrite(disk: Disk, us: seq<Unsaved>)
    requires Wf(us) && forall i :: 0 <= i < |us| ==> !us[i].tableDirty
    ensures TablesWritten(disk, us) == disk
  {
    if us != [] {
      NothingToWrite(disk, us[..|us| - 1]);
    }
  }
}
