/** How inodes map files onto data blocks, and what it means for one operation to touch one file only. */
module Volume {
  import opened Bytes
  import opened Layout
  import opened Checksum

  datatype VolData = Vol(disk: Disk, used: seq<bool>, csum: seq<int32>)

  /** Device contents, block freemap bits and checksum table. */
  type Vol = v: VolData | |v.used| == NR_BLOCK_BITS && |v.csum| == MAX_NR_CSUMS
    witness Vol(seq<Block>(DISK_BLOCKS, _ => ZERO_BLOCK), seq(NR_BLOCK_BITS, _ => false),
      seq<int32>(MAX_NR_CSUMS, _ => 0))

  predicate IsUsed(v: Vol, p: int) {
    IsData(p) && v.used[p - DATA_START]
  }

  /** Physical block of logical block `l`; 0 when it is not mapped. */
  function Lookup(disk: Disk, d: DInode, l: nat): int {
    if l < 4 then d.direct[l]
    else if l < NR_MAPPED && IsData(d.indirect) then IntAt(disk[d.indirect], l - 4)
    else 0
  }

  /**
   * The first `n` logical blocks are mapped, to data blocks of their own, and no others are. There is an
   * indirect block when there must be one, and perhaps when the direct slots are just full.
   */
  ghost predicate WfMap(disk: Disk, d: DInode, n: int) {
    && 0 <= n <= NR_MAPPED
    && (d.indirect == 0 || IsData(d.indirect))
    && (n > 4 ==> d.indirect != 0)
    && (d.indirect != 0 ==> n >= 4)
    && (forall l: nat :: l < n ==> IsData(Lookup(disk, d, l)) && Lookup(disk, d, l) != d.indirect)
    && (forall l: nat :: n <= l < NR_MAPPED ==> Lookup(disk, d, l) == 0)
    && (forall i: nat, j: nat :: i < j < n ==> Lookup(disk, d, i) != Lookup(disk, d, j))
  }

  /** The mapping covers exactly the blocks that the size needs. */
  ghost predicate WfInode(disk: Disk, d: DInode) {
    d.size >= 0 && WfMap(disk, d, BlocksFor(d.size))
  }

  /** An indirect block that no mapped block needs: it is what a failed write can leave behind. */
  predicate Dangling(d: DInode) {
    BlocksFor(d.size) <= 4 && d.indirect != 0
  }

  /** The data blocks that `d` holds when `n` blocks are mapped. */
  ghost function Own(disk: Disk, d: DInode, n: int): set<int> {
    (set l: nat | l < n :: Lookup(disk, d, l)) + (if d.indirect == 0 then {} else {d.indirect as int})
  }

  function RawByte(disk: Disk, d: DInode, pos: nat): byte {
    var p := Lookup(disk, d, pos / 512);
    if IsData(p) then disk[p][pos % 512] else 0
  }

  /** The bytes of the file. */
  function Contents(disk: Disk, d: DInode): (s: seq<byte>)
    requires d.size >= 0
    ensures |s| == d.size
  {
    seq(d.size, pos requires 0 <= pos < d.size => RawByte(disk, d, pos))
  }

  /** Every mapped data block has its checksum in the table. */
  ghost predicate CsumOk(v: Vol, d: DInode, n: int) {
    forall l: nat :: l < n ==> CsumAt(v, d, l)
  }

  ghost predicate CsumAt(v: Vol, d: DInode, l: nat) {
    var p := Lookup(v.disk, d, l);
    DATA_START <= p < DATA_START + MAX_NR_CSUMS && v.csum[p - DATA_START] == Csum(v.disk[p])
  }

  /** The first `n` mapped blocks stay where they are and keep their bytes. */
  ghost predicate Keeps(disk: Disk, d: DInode, disk': Disk, d': DInode, n: int) {
    forall l: nat :: l < n ==>
      var p := Lookup(disk, d, l);
      Lookup(disk', d', l) == p && IsData(p) && disk'[p] == disk[p]
  }

  ghost predicate AllUsed(v: Vol, o: set<int>) {
    forall p :: p in o ==> IsUsed(v, p)
  }

  /** Blocks that an operation on one file leaves alone: super block, inode freemap, inode blocks. */
  predicate IsFixed(p: int) {
    p == 0 || p == 1 || INODE_START <= p < DATA_START
  }

  /** Super block, inode freemap and inode blocks are as they were. */
  ghost predicate FixedKept(disk: Disk, disk': Disk) {
    forall p :: 0 <= p < DATA_START && IsFixed(p) ==> disk'[p] == disk[p]
  }

  /**
   * One file went from holding `o` to holding `o'` and no other file noticed: what it gained was
   * free before, what it lost is free now, and every other allocated block kept its bytes and checksum.
   */
  ghost predicate OwnStep(v: Vol, o: set<int>, v': Vol, o': set<int>) {
    && (forall p :: p in o' ==> IsUsed(v', p))
    && (forall p :: p in o && p !in o' ==> !IsUsed(v', p))
    && (forall p :: p in o' && p !in o ==> !IsUsed(v, p))
    && (forall p :: IsData(p) && p !in o && p !in o' ==> OtherKept(v, v', p))
    && (forall p :: 0 <= p < DATA_START && IsFixed(p) ==> v'.disk[p] == v.disk[p])
    && Cleared(v, v')
  }

  /**
   * Of the blocks that are free now, those that were allocated before hold nothing but zeroes, and so do those that
   * were free before, unless they are as they were.
   */
  ghost predicate Cleared(v: Vol, v': Vol) {
    forall p {:trigger ClearedAt(v, v', p)} :: IsData(p) ==> ClearedAt(v, v', p)
  }

  ghost predicate ClearedAt(v: Vol, v': Vol, p: int)
    requires IsData(p)
  {
    !IsUsed(v', p) ==> v'.disk[p] == ZERO_BLOCK || (!IsUsed(v, p) && v'.disk[p] == v.disk[p])
  }

  lemma ClearedTrans(v: Vol, v1: Vol, v2: Vol)
    requires Cleared(v, v1) && Cleared(v1, v2)
    ensures Cleared(v, v2)
  {
    forall p | IsData(p) ensures ClearedAt(v, v2, p) {
      assert ClearedAt(v, v1, p) && ClearedAt(v1, v2, p);
    }
  }

  /** What `Cleared` means for the blocks that were given back. */
  lemma FreedIsZero(v: Vol, v': Vol, p: int)
    requires Cleared(v, v') && IsUsed(v, p) && !IsUsed(v', p)
    ensures v'.disk[p] == ZERO_BLOCK
  {
    assert ClearedAt(v, v', p);
  }

  lemma ClearedSame(v: Vol, v': Vol)
    requires v'.used == v.used && forall p :: IsData(p) ==> v'.disk[p] == v.disk[p]
    ensures Cleared(v, v')
  {
  }

  ghost predicate OtherKept(v: Vol, v': Vol, p: int)
    requires IsData(p)
  {
    && IsUsed(v', p) == IsUsed(v, p)
    && (IsUsed(v, p) ==>
         v'.disk[p] == v.disk[p]
           && (p < DATA_START + MAX_NR_CSUMS ==> v'.csum[p - DATA_START] == v.csum[p - DATA_START]))
  }

  lemma OwnStepTrans(v: Vol, o: set<int>, v1: Vol, o1: set<int>, v2: Vol, o2: set<int>)
    requires OwnStep(v, o, v1, o1) && OwnStep(v1, o1, v2, o2)
    ensures OwnStep(v, o, v2, o2)
  {
    ClearedTrans(v, v1, v2);
    forall p | IsData(p) && p !in o && p !in o2 ensures OtherKept(v, v2, p) {
      if p !in o1 {
        assert OtherKept(v, v1, p) && OtherKept(v1, v2, p);
      }
    }
    forall p | p in o && p !in o2 ensures !IsUsed(v2, p) {
      if p !in o1 && IsData(p) {
        assert OtherKept(v1, v2, p);
      }
    }
    forall p | p in o2 && p !in o ensures !IsUsed(v, p) {
      if p !in o1 && IsData(p) {
        assert OtherKept(v, v1, p);
      }
    }
  }

  lemma InOwn(disk: Disk, d: DInode, n: int, l: nat)
    requires l < n
    ensures Lookup(disk, d, l) in Own(disk, d, n)
  {
  }

  /** A file is untouched when its blocks are. */
  lemma SameOnOwn(disk: Disk, disk': Disk, d: DInode, n: int)
    requires WfMap(disk, d, n)
    requires d.indirect != 0 ==> disk'[d.indirect] == disk[d.indirect]
    ensures WfMap(disk', d, n) && Own(disk', d, n) == Own(disk, d, n)
    ensures forall l: nat :: Lookup(disk', d, l) == Lookup(disk, d, l)
  {
    forall l: nat ensures Lookup(disk', d, l) == Lookup(disk, d, l) {
    }
    assert Own(disk', d, n) == Own(disk, d, n);
  }

  lemma KeepsBytes(disk: Disk, d: DInode, disk': Disk, d': DInode, n: int)
    requires Keeps(disk, d, disk', d', n)
    ensures forall pos: nat :: pos < n * 512 ==> RawByte(disk', d', pos) == RawByte(disk, d, pos)
  {
    forall pos: nat | pos < n * 512 ensures RawByte(disk', d', pos) == RawByte(disk, d, pos) {
      assert pos / 512 < n;
    }
  }

  lemma KeepsTrans(disk: Disk, d: DInode, disk1: Disk, d1: DInode, disk2: Disk, d2: DInode, n: int)
    requires Keeps(disk, d, disk1, d1, n) && Keeps(disk1, d1, disk2, d2, n)
    ensures Keeps(disk, d, disk2, d2, n)
  {
  }

  lemma KeepsCsum(v: Vol, d: DInode, v': Vol, d': DInode, n: int)
    requires Keeps(v.disk, d, v'.disk, d', n) && v'.csum == v.csum && CsumOk(v, d, n)
    ensures CsumOk(v', d', n)
  {
    hide Lookup, Csum;
    forall l: nat | l < n ensures CsumAt(v', d', l) {
      assert CsumAt(v, d, l);
    }
  }

  /** Mapping the next block through a direct slot. */
  lemma MapDirect(disk: Disk, d: DInode, n: int, p: int)
    requires WfMap(disk, d, n) && n < 4 && IsData(p) && p !in Own(disk, d, n)
    ensures var d' := d.(direct := d.direct[n := p]);
            && WfMap(disk, d', n + 1) && Own(disk, d', n + 1) == Own(disk, d, n) + {p}
            && Lookup(disk, d', n) == p && Keeps(disk, d, disk, d', n)
  {
    var d' := d.(direct := d.direct[n := p]);
    assert forall l: nat :: l != n ==> Lookup(disk, d', l) == Lookup(disk, d, l);
    assert Lookup(disk, d', n) == p;
    forall l: nat | l < n ensures Lookup(disk, d, l) != p {
      InOwn(disk, d, n, l);
    }
    OwnGrows(disk, d, disk, d', n, p);
  }

  lemma OwnGrows(disk: Disk, d: DInode, disk': Disk, d': DInode, n: nat, p: int)
    requires d'.indirect == d.indirect && Lookup(disk', d', n) == p
    requires forall l: nat :: l < n ==> Lookup(disk', d', l) == Lookup(disk, d, l)
    ensures Own(disk', d', n + 1) == Own(disk, d, n) + {p}
  {
    forall q | q in Own(disk, d, n) + {p} ensures q in Own(disk', d', n + 1) {
      if q == p {
        InOwn(disk', d', n + 1, n);
      } else if q != d.indirect {
        var l: nat :| l < n && Lookup(disk, d, l) == q;
        InOwn(disk', d', n + 1, l);
      }
    }
    forall q | q in Own(disk', d', n + 1) ensures q in Own(disk, d, n) + {p} {
      if q != d.indirect {
        var l: nat :| l < n + 1 && Lookup(disk', d', l) == q;
        if l < n {
          InOwn(disk, d, n, l);
        }
      }
    }
  }

  /** Mapping the next block through the indirect block. */
  lemma MapIndirect(disk: Disk, d: DInode, n: int, p: int)
    requires WfMap(disk, d, n) && 4 <= n < NR_MAPPED && d.indirect != 0 && IsData(p) && p !in Own(disk, d, n)
    ensures var disk' := disk[d.indirect := SetInt(disk[d.indirect], n - 4, p)];
            && WfMap(disk', d, n + 1) && Own(disk', d, n + 1) == Own(disk, d, n) + {p}
            && Lookup(disk', d, n) == p && Keeps(disk, d, disk', d, n)
  {
    hide IntAt, SetInt;
    var disk' := disk[d.indirect := SetInt(disk[d.indirect], n - 4, p)];
    forall l: nat | l < NR_MAPPED ensures Lookup(disk', d, l) == if l == n then p else Lookup(disk, d, l) {
      if l >= 4 {
        IntAtSetInt(disk[d.indirect], n - 4, p, l - 4);
      }
    }
    forall l: nat | l < n ensures Lookup(disk, d, l) != p {
      InOwn(disk, d, n, l);
    }
    OwnGrows(disk, d, disk', d, n, p);
  }

  /** Giving the inode an empty indirect block. */
  lemma FreshIndirect(disk: Disk, d: DInode, n: int, p: int)
    requires WfMap(disk, d, n) && n == 4 && d.indirect == 0 && IsData(p) && p !in Own(disk, d, n)
    ensures var disk', d' := disk[p := ZERO_BLOCK], d.(indirect := p);
            && WfMap(disk', d', n) && Own(disk', d', n) == Own(disk, d, n) + {p}
            && Keeps(disk, d, disk', d', n)
  {
    var disk', d' := disk[p := ZERO_BLOCK], d.(indirect := p);
    forall l: nat | l < NR_MAPPED ensures Lookup(disk', d', l) == Lookup(disk, d, l) {
      if l >= 4 {
        ZeroBlockInts(l - 4);
      }
    }
    forall l: nat | l < n ensures Lookup(disk, d, l) != p {
      InOwn(disk, d, n, l);
    }
    assert Own(disk', d', n) == Own(disk, d, n) + {p};
  }
}
