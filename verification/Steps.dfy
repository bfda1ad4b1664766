/** What allocating, storing and freeing one block does to the mapping of a file. */
module Steps {
  import opened Bytes
  import opened Layout
  import opened Checksum
  import opened Volume
  import opened Bitmap
  import opened Super

  /** The first `n` blocks are mapped, and all that the inode holds is allocated. */
  ghost predicate Mapped(v: Vol, d: DInode, n: int) {
    WfMap(v.disk, d, n) && AllUsed(v, Own(v.disk, d, n))
  }

  /** One more block, `p`, was mapped after the first `n`. */
  ghost predicate Grown(v: Vol, d: DInode, n: nat, v': Vol, d': DInode, p: int) {
    && Mapped(v', d', n + 1) && Lookup(v'.disk, d', n) == p
    && Keeps(v.disk, d, v'.disk, d', n)
    && OwnStep(v, Own(v.disk, d, n), v', Own(v'.disk, d', n + 1))
    && v'.csum == v.csum && TableKept(v.disk, v'.disk)
  }

  ghost predicate TableKept(disk: Disk, disk': Disk) {
    forall p :: 4 <= p < INODE_START ==> disk'[p] == disk[p]
  }

  /** Free blocks that have a slot in the checksum table. */
  function Slots(v: Vol): nat {
    Zeros(v.used[..MAX_NR_CSUMS])
  }

  /** How many blocks are free, and how many of these have a slot in the checksum table. */
  datatype Room = Room(free: nat, slots: nat)

  function RoomOf(v: Vol): Room {
    Room(Zeros(v.used), Slots(v))
  }

  lemma RoomBounds(v: Vol)
    ensures RoomOf(v).slots <= RoomOf(v).free <= RoomOf(v).slots + 512
  {
    ZerosOfPrefix(v.used, MAX_NR_CSUMS);
    ZerosSplit(v.used, MAX_NR_CSUMS);
  }

  /** `k` blocks were taken, those with a checksum slot first. */
  ghost predicate Took(v: Vol, v': Vol, k: int) {
    Zeros(v'.used) + k == Zeros(v.used) && Slots(v') == Max(Slots(v) - k, 0)
  }

  /** Block bit `i` was taken; the freemap blocks on the device may or may not tell. */
  ghost predicate Taken(v: Vol, i: nat, v': Vol)
    requires i < NR_BLOCK_BITS
  {
    && v'.used == v.used[i := true] && v'.csum == v.csum
    && forall p :: 0 <= p < DISK_BLOCKS && p != 2 && p != 3 ==> v'.disk[p] == v.disk[p]
  }

  lemma TakenFacts(v: Vol, i: nat, v': Vol)
    requires i < NR_BLOCK_BITS && !v.used[i] && Taken(v, i, v')
    ensures forall p :: IsUsed(v', p) <==> IsUsed(v, p) || p == DATA_START + i
    ensures Zeros(v'.used) + 1 == Zeros(v.used)
    ensures i == FirstClear(v.used, 0) ==> Took(v, v', 1) && (Slots(v) > 0 <==> i < MAX_NR_CSUMS)
  {
    OnesUpdate(v.used, i, true);
    OnesBound(v.used[i := true]);
    if i == FirstClear(v.used, 0) {
      FirstFit(v.used, MAX_NR_CSUMS);
    }
  }

  lemma AllocatedFacts(v: Vol, i: nat)
    requires i < NR_BLOCK_BITS && !v.used[i]
    ensures var v' := Allocated(v, i);
            && Taken(v, i, v')
            && (forall p :: 0 <= p < DISK_BLOCKS && p != 2 && p != 3 ==> v'.disk[p] == v.disk[p])
            && (forall p :: IsUsed(v', p) <==> IsUsed(v, p) || p == DATA_START + i)
            && v'.csum == v.csum && Zeros(v'.used) + 1 == Zeros(v.used)
            && (i == FirstClear(v.used, 0) ==> Took(v, v', 1) && (Slots(v) > 0 <==> i < MAX_NR_CSUMS))
  {
    hide FreemapBlock, Zeros;
    TakenFacts(v, i, Allocated(v, i));
  }

  lemma FreedFacts(v: Vol, i: nat)
    requires i < NR_BLOCK_BITS && v.used[i]
    ensures var v' := Freed(v, i);
            && (forall p :: 0 <= p < DISK_BLOCKS && p != 2 && p != 3 && p != DATA_START + i ==> v'.disk[p] == v.disk[p])
            && (forall p :: IsUsed(v', p) <==> IsUsed(v, p) && p != DATA_START + i)
            && v'.disk[DATA_START + i] == ZERO_BLOCK && v'.csum == v.csum && Zeros(v'.used) == Zeros(v.used) + 1
  {
    hide FreemapBlock;
    OnesUpdate(v.used, i, false);
    OnesBound(v.used[i := false]);
  }

  /** Growing through a direct slot. */
  lemma GrowDirect(v: Vol, d: DInode, n: nat, i: nat, v': Vol)
    requires Mapped(v, d, n) && n < 4 && i < NR_BLOCK_BITS && !v.used[i] && Taken(v, i, v')
    ensures Grown(v, d, n, v', d.(direct := d.direct[n := DATA_START + i]), DATA_START + i)
  {
    hide Lookup, Zeros;
    var p, d' := DATA_START + i, d.(direct := d.direct[n := DATA_START + i]);
    TakenFacts(v, i, v');
    assert p !in Own(v.disk, d, n);
    SameOnOwn(v.disk, v'.disk, d, n);
    MapDirect(v'.disk, d, n, p);
    GrownStep(v, Own(v.disk, d, n), v', p);
    KeepsTrans(v.disk, d, v'.disk, d, v'.disk, d', n);
  }

  /** The volume gained block `p` and nothing else that is allocated changed. */
  lemma GrownStep(v: Vol, o: set<int>, v': Vol, p: int)
    requires AllUsed(v, o) && IsData(p) && !IsUsed(v, p)
    requires forall q :: IsUsed(v', q) <==> IsUsed(v, q) || q == p
    requires forall q :: IsData(q) && q !in o && q != p ==> v'.disk[q] == v.disk[q]
    requires forall q :: 0 <= q < DATA_START && IsFixed(q) ==> v'.disk[q] == v.disk[q]
    requires v'.csum == v.csum
    ensures OwnStep(v, o, v', o + {p})
  {
  }

  /** Growing through an indirect block that is there already. */
  lemma GrowIndirect(v: Vol, d: DInode, n: nat, i: nat, v1: Vol)
    requires Mapped(v, d, n) && 4 <= n < NR_MAPPED && d.indirect != 0 && i < NR_BLOCK_BITS && !v.used[i]
    requires Taken(v, i, v1)
    ensures var disk' := v1.disk[d.indirect := SetInt(v1.disk[d.indirect], n - 4, DATA_START + i)];
            Grown(v, d, n, v1.(disk := disk'), d, DATA_START + i)
  {
    hide Lookup, SetInt, Zeros;
    var p := DATA_START + i;
    var v' := v1.(disk := v1.disk[d.indirect := SetInt(v1.disk[d.indirect], n - 4, p)]);
    TakenFacts(v, i, v1);
    assert p !in Own(v.disk, d, n);
    SameOnOwn(v.disk, v1.disk, d, n);
    MapIndirect(v1.disk, d, n, p);
    GrownStep(v, Own(v.disk, d, n), v', p);
    assert Keeps(v.disk, d, v1.disk, d, n);
    KeepsTrans(v.disk, d, v1.disk, d, v'.disk, d, n);
  }

  /** The inode got an empty indirect block `p`. */
  ghost predicate Indirected(v: Vol, d: DInode, n: nat, v': Vol, d': DInode, p: int) {
    && d' == d.(indirect := d'.indirect) && d'.indirect == p && p != 0
    && Mapped(v', d', n) && Keeps(v.disk, d, v'.disk, d', n)
    && OwnStep(v, Own(v.disk, d, n), v', Own(v'.disk, d', n))
    && Own(v'.disk, d', n) == Own(v.disk, d, n) + {p}
    && v'.csum == v.csum && TableKept(v.disk, v'.disk)
  }

  lemma GrowFresh(v: Vol, d: DInode, n: nat, i: nat, v1: Vol)
    requires Mapped(v, d, n) && n == 4 && d.indirect == 0 && i < NR_BLOCK_BITS && !v.used[i] && Taken(v, i, v1)
    ensures Indirected(v, d, n, v1.(disk := v1.disk[DATA_START + i := ZERO_BLOCK]), d.(indirect := DATA_START + i),
      DATA_START + i)
  {
    hide Lookup, Zeros;
    var p, d' := DATA_START + i, d.(indirect := DATA_START + i);
    var v' := v1.(disk := v1.disk[p := ZERO_BLOCK]);
    TakenFacts(v, i, v1);
    assert p !in Own(v.disk, d, n);
    SameOnOwn(v.disk, v1.disk, d, n);
    FreshIndirect(v1.disk, d, n, p);
    GrownStep(v, Own(v.disk, d, n), v', p);
    assert Keeps(v.disk, d, v1.disk, d, n);
    KeepsTrans(v.disk, d, v1.disk, d, v'.disk, d', n);
  }

  /** A fresh indirect block, block `i`, and a data block through it, block `j`. */
  lemma GrowBoth(v: Vol, d: DInode, i: nat, v1: Vol, j: nat, v2: Vol)
    requires Mapped(v, d, 4) && d.indirect == 0 && i < NR_BLOCK_BITS && !v.used[i] && j < NR_BLOCK_BITS
    requires !v.used[i := true][j]
    requires Taken(v, i, v1) && Taken(v1, j, v2)
    ensures var disk' := v2.disk[DATA_START + i := SetInt(ZERO_BLOCK, 0, DATA_START + j)];
            Grown(v, d, 4, v2.(disk := disk'), d.(indirect := DATA_START + i), DATA_START + j)
  {
    hide Lookup, SetInt, Zeros;
    var p, d1 := DATA_START + i, d.(indirect := DATA_START + i);
    var m := v1.(disk := v1.disk[p := ZERO_BLOCK]);
    GrowFresh(v, d, 4, i, v1);
    var w := v2.(disk := v2.disk[p := ZERO_BLOCK]);
    GrowIndirect(m, d1, 4, j, w);
    var v' := v2.(disk := v2.disk[p := SetInt(ZERO_BLOCK, 0, DATA_START + j)]);
    var w' := w.(disk := w.disk[p := SetInt(w.disk[p], 0, DATA_START + j)]);
    assert v'.disk == w'.disk;
    OwnStepTrans(v, Own(v.disk, d, 4), m, Own(m.disk, d1, 4), v', Own(v'.disk, d1, 5));
    KeepsTrans(v.disk, d, m.disk, d1, v'.disk, d1, 4);
  }

  // Storing a data block

  /** Block `k` of the file was written and its checksum entered in the table. */
  ghost predicate Stored(v: Vol, d: DInode, n: int, k: nat, b: Block, v': Vol)
    requires k < n && WfMap(v.disk, d, n)
  {
    var p := Lookup(v.disk, d, k);
    && p < DATA_START + MAX_NR_CSUMS
    && v'.used == v.used && v'.csum == v.csum[p - DATA_START := Csum(b)]
    && (forall q :: 0 <= q < DISK_BLOCKS && !(4 <= q < INODE_START) ==> v'.disk[q] == if q == p then b else v.disk[q])
  }

  lemma StoreStep(v: Vol, d: DInode, n: int, k: nat, b: Block, v': Vol)
    requires Mapped(v, d, n) && k < n && Stored(v, d, n, k, b, v')
    ensures Mapped(v', d, n) && Own(v'.disk, d, n) == Own(v.disk, d, n)
    ensures OwnStep(v, Own(v.disk, d, n), v', Own(v'.disk, d, n))
    ensures forall l: nat :: Lookup(v'.disk, d, l) == Lookup(v.disk, d, l)
    ensures forall pos: nat :: pos < n * 512 ==>
      RawByte(v'.disk, d, pos) == if pos / 512 == k then b[pos % 512] else RawByte(v.disk, d, pos)
  {
    hide Csum;
    var p := Lookup(v.disk, d, k);
    InOwn(v.disk, d, n, k);
    SameOnOwn(v.disk, v'.disk, d, n);
    forall pos: nat | pos < n * 512
      ensures RawByte(v'.disk, d, pos) == if pos / 512 == k then b[pos % 512] else RawByte(v.disk, d, pos)
    {
      var l := pos / 512;
      assert l < n;
      assert l != k ==> Lookup(v.disk, d, l) != p;
    }
  }

  lemma StoreCsum(v: Vol, d: DInode, n: int, k: nat, b: Block, v': Vol, ok: int)
    requires Mapped(v, d, n) && k < n && Stored(v, d, n, k, b, v')
    requires ok <= n && forall l: nat :: l < ok && l != k ==> CsumAt(v, d, l)
    ensures forall l: nat :: l < ok || l == k ==> CsumAt(v', d, l)
  {
    hide Csum, Lookup;
    StoreStep(v, d, n, k, b, v');
    forall l: nat | l < ok || l == k ensures CsumAt(v', d, l) {
      if l != k {
        assert Lookup(v.disk, d, l) != Lookup(v.disk, d, k);
        assert CsumAt(v, d, l);
      }
      assert IsData(Lookup(v.disk, d, l));
    }
  }

  // Freeing blocks

  /** The blocks in `freed` were zeroed and given back, and nothing else changed but the block freemap. */
  ghost predicate Released(v: Vol, freed: set<int>, v': Vol) {
    && (forall p :: p in freed && IsData(p) ==> v'.disk[p] == ZERO_BLOCK)
    && (forall p :: IsUsed(v', p) <==> IsUsed(v, p) && p !in freed)
    && (forall p :: 0 <= p < DISK_BLOCKS && p != 2 && p != 3 && p !in freed ==> v'.disk[p] == v.disk[p])
    && v'.csum == v.csum
  }

  lemma ReleaseOne(v: Vol, freed: set<int>, v1: Vol, i: nat)
    requires Released(v, freed, v1) && i < NR_BLOCK_BITS && v1.used[i]
    ensures Released(v, freed + {DATA_START + i}, Freed(v1, i)) && Zeros(Freed(v1, i).used) == Zeros(v1.used) + 1
  {
    hide FreemapBlock, Freed;
    FreedFacts(v1, i);
  }

  /** Physical blocks of the logical blocks from `m` up to `n`. */
  ghost function Range(disk: Disk, d: DInode, m: int, n: int): set<int> {
    set l: nat | m <= l < n :: Lookup(disk, d, l)
  }

  /** What cutting the mapping from `n` down to `m` blocks leaves. */
  ghost predicate Cut(v: Vol, d: DInode, n: int, m: int, v': Vol, d': DInode) {
    && (forall l: nat :: l < 4 ==> d'.direct[l] == if l < m then d.direct[l] else 0)
    && d'.indirect == (if m <= 4 then 0 else d.indirect)
    && (forall p :: IsUsed(v', p) <==> IsUsed(v, p) && p !in CutBlocks(v.disk, d, n, m))
    && (forall p ::
         0 <= p < DISK_BLOCKS && p != 2 && p != 3 && (p != d.indirect || p == 0) && p !in Range(v.disk, d, m, n) ==>
           v'.disk[p] == v.disk[p])
    && (forall p :: p in CutBlocks(v.disk, d, n, m) && IsData(p) ==> v'.disk[p] == ZERO_BLOCK)
    && (m > 4 ==> IsData(d.indirect) && CutTable(v.disk[d.indirect], m, v'.disk[d.indirect]))
    && v'.csum == v.csum
  }

  /** The indirect block lost its entries from logical block `m` on. */
  ghost predicate CutTable(was: Block, m: int, b: Block) {
    forall i: nat :: i < 128 ==> IntAt(b, i) == if 4 + i < m then IntAt(was, i) else 0
  }

  ghost function CutBlocks(disk: Disk, d: DInode, n: int, m: int): set<int> {
    Range(disk, d, m, n) + (if m <= 4 && d.indirect != 0 then {d.indirect as int} else {})
  }

  lemma InRange(disk: Disk, d: DInode, m: int, n: int, l: nat)
    requires m <= l < n
    ensures Lookup(disk, d, l) in Range(disk, d, m, n)
  {
  }

  lemma CutStep(v: Vol, d: DInode, n: int, m: int, v': Vol, d': DInode)
    requires Mapped(v, d, n) && 0 <= m <= n && (n <= 4 ==> d.indirect == 0)
    requires Cut(v, d, n, m, v', d')
    ensures Mapped(v', d', m) && Keeps(v.disk, d, v'.disk, d', m)
    ensures OwnStep(v, Own(v.disk, d, n), v', Own(v'.disk, d', m))
    ensures TableKept(v.disk, v'.disk)
  {
    hide IntAt, Lookup;
    var gone := Range(v.disk, d, m, n);
    CutLookup(v, d, n, m, v', d');
    forall l: nat | l < m ensures Lookup(v.disk, d, l) !in CutBlocks(v.disk, d, n, m) {
    }
    CutOwn(v, d, n, m, v', d');
    forall l: nat | l < m ensures v'.disk[Lookup(v.disk, d, l)] == v.disk[Lookup(v.disk, d, l)] {
      assert Lookup(v.disk, d, l) !in gone;
    }
    forall p | p in gone ensures p in Own(v.disk, d, n) && IsData(p) {
      var l: nat :| m <= l < n && Lookup(v.disk, d, l) == p;
      InOwn(v.disk, d, n, l);
    }
  }

  lemma CutLookup(v: Vol, d: DInode, n: int, m: int, v': Vol, d': DInode)
    requires Mapped(v, d, n) && 0 <= m <= n && Cut(v, d, n, m, v', d')
    ensures forall l: nat :: l < NR_MAPPED ==> Lookup(v'.disk, d', l) == if l < m then Lookup(v.disk, d, l) else 0
  {
    hide IntAt, Range;
    forall l: nat | l < NR_MAPPED ensures Lookup(v'.disk, d', l) == if l < m then Lookup(v.disk, d, l) else 0 {
      var was := Lookup(v.disk, d, l);
      if l >= 4 && m > 4 {
        var i: nat := l - 4;
        assert IntAt(v'.disk[d.indirect], i) == if l < m then IntAt(v.disk[d.indirect], i) else 0;
        assert Lookup(v'.disk, d', l) == IntAt(v'.disk[d.indirect], l - 4);
      }
    }
  }

  lemma CutOwn(v: Vol, d: DInode, n: int, m: int, v': Vol, d': DInode)
    requires Mapped(v, d, n) && 0 <= m <= n && (n <= 4 ==> d.indirect == 0)
    requires Cut(v, d, n, m, v', d')
    requires forall l: nat :: l < NR_MAPPED ==> Lookup(v'.disk, d', l) == if l < m then Lookup(v.disk, d, l) else 0
    ensures Own(v'.disk, d', m) == Own(v.disk, d, n) - CutBlocks(v.disk, d, n, m)
    ensures AllUsed(v', Own(v'.disk, d', m))
  {
    hide IntAt;
    var o, o', c := Own(v.disk, d, n), Own(v'.disk, d', m), CutBlocks(v.disk, d, n, m);
    forall p | p in o' ensures p in o && p !in c {
      if p != d'.indirect {
        var l: nat :| l < m && Lookup(v'.disk, d', l) == p;
        InOwn(v.disk, d, n, l);
      }
    }
    forall p | p in o && p !in c ensures p in o' {
      if p != d.indirect {
        var l: nat :| l < n && Lookup(v.disk, d, l) == p;
        if l >= m {
          InRange(v.disk, d, m, n, l);
        } else {
          InOwn(v'.disk, d', m, l);
        }
      }
    }
  }
}
