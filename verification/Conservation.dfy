/** Counting: every allocated block is held by exactly one live inode. */
module Conservation {
  import opened Bytes
  import opened Layout
  import opened Volume
  import Bits = Bitmap
  import opened Steps
  import opened Inodes
  import opened World

  /** The blocks that an inode holds: those its size needs, and its indirect block. */
  function Held(d: DInode): int {
    BlocksFor(d.size) + if d.indirect != 0 then 1 else 0
  }

  /** The blocks held by the live inodes below `n`. */
  ghost function HeldBelow(w: World, n: nat): int
    requires n <= NR_INODES
  {
    if n == 0 then 0 else HeldBelow(w, n - 1) + if w.live[n - 1] then Held(w.inodes[n - 1]) else 0
  }

  ghost function OwnBelow(w: World, n: nat): set<int>
    requires n <= NR_INODES
  {
    if n == 0 then {} else OwnBelow(w, n - 1) + if w.live[n - 1] then OwnOf(w, n - 1) else {}
  }

  ghost function UsedBelow(used: seq<bool>, n: nat): set<int>
    requires n <= |used|
  {
    if n == 0 then {} else UsedBelow(used, n - 1) + if used[n - 1] then {DATA_START + (n - 1)} else {}
  }

  lemma {:induction false} UsedCount(used: seq<bool>, n: nat)
    requires n <= |used|
    ensures |UsedBelow(used, n)| == Bits.Ones(used[..n])
    ensures forall p :: p in UsedBelow(used, n) <==> DATA_START <= p < DATA_START + n && used[p - DATA_START]
  {
    if n > 0 {
      UsedCount(used, n - 1);
      assert used[..n][..n - 1] == used[..n - 1];
    }
  }

  ghost function MappedBlocks(disk: Disk, d: DInode, n: nat): set<int> {
    set l: nat | l < n :: Lookup(disk, d, l)
  }

  lemma {:induction false} MappedCount(disk: Disk, d: DInode, n: nat)
    requires forall i: nat, j: nat :: i < j < n ==> Lookup(disk, d, i) != Lookup(disk, d, j)
    ensures |MappedBlocks(disk, d, n)| == n
  {
    hide Lookup;
    if n > 0 {
      MappedCount(disk, d, n - 1);
      assert MappedBlocks(disk, d, n) == MappedBlocks(disk, d, n - 1) + {Lookup(disk, d, n - 1)};
      assert Lookup(disk, d, n - 1) !in MappedBlocks(disk, d, n - 1);
    } else {
      assert MappedBlocks(disk, d, n) == {};
    }
  }

  lemma OwnCount(disk: Disk, d: DInode, n: nat)
    requires WfMap(disk, d, n)
    ensures |Own(disk, d, n)| == n + if d.indirect != 0 then 1 else 0
  {
    hide Lookup;
    MappedCount(disk, d, n);
    assert Own(disk, d, n) == MappedBlocks(disk, d, n) + if d.indirect == 0 then {} else {d.indirect as int};
  }

  lemma {:induction false} OwnBelowCount(w: World, n: nat)
    requires BlocksConsistent(w) && n <= NR_INODES
    ensures |OwnBelow(w, n)| == HeldBelow(w, n)
    ensures forall p :: p in OwnBelow(w, n) <==> exists i: nat :: i < n && IsLive(w, i) && p in OwnOf(w, i)
  {
    hide OwnOf, Sound, Owned;
    if n > 0 {
      OwnBelowCount(w, n - 1);
      if w.live[n - 1] {
        HeldIs(w, n - 1);
        var own := OwnOf(w, n - 1);
        forall p | p in own ensures p !in OwnBelow(w, n - 1) {
          forall i: nat | i < n - 1 && IsLive(w, i) ensures p !in OwnOf(w, i) {
            assert IsLive(w, n - 1) && OwnOf(w, i) !! OwnOf(w, n - 1);
          }
        }
        assert OwnBelow(w, n - 1) * own == {};
      }
    }
  }

  lemma HeldIs(w: World, i: nat)
    requires BlocksConsistent(w) && IsLive(w, i)
    ensures |OwnOf(w, i)| == Held(w.inodes[i]) && forall p :: p in OwnOf(w, i) ==> IsUsed(w.vol, p)
  {
    hide Own, CsumOk;
    SizeKnown(w, i);
    OwnCount(w.vol.disk, w.inodes[i], BlocksFor(w.inodes[i].size));
  }

  /** The number of allocated blocks is what all live inodes hold together. */
  lemma BlocksConserved(w: World)
    requires BlocksConsistent(w)
    ensures Bits.Ones(w.vol.used) == HeldBelow(w, NR_INODES)
  {
    hide OwnOf, Sound, HeldBelow, OwnBelow, UsedBelow, Bits.Ones;
    UsedCount(w.vol.used, NR_BLOCK_BITS);
    OwnBelowCount(w, NR_INODES);
    assert w.vol.used[..NR_BLOCK_BITS] == w.vol.used;
    var used, own := UsedBelow(w.vol.used, NR_BLOCK_BITS), OwnBelow(w, NR_INODES);
    forall p ensures p in used <==> p in own {
      if p in used {
        assert IsUsed(w.vol, p) && Owned(w, p);
      }
      if p in own {
        var i: nat :| i < NR_INODES && IsLive(w, i) && p in OwnOf(w, i);
        HeldIs(w, i);
      }
    }
    assert used == own;
  }

  /** Beyond its data an inode holds a block exactly when it needs it for mapping, or was left with one. */
  lemma HeldWhen(w: World, i: nat)
    requires BlocksConsistent(w) && IsLive(w, i)
    ensures Held(w.inodes[i]) == BlocksFor(w.inodes[i].size) + if BlocksFor(w.inodes[i].size) > 4
      || Dangling(w.inodes[i]) then 1 else 0
  {
    hide Own, CsumOk, Lookup;
    SizeKnown(w, i);
  }

  /** The number of allocated inode numbers is the number of files. */
  lemma InodesConserved(w: World)
    requires BlocksConsistent(w)
    ensures Bits.Ones(w.live) == |FilesOf(w)|
  {
    hide Sound, Owned;
    NumbersCount(w.live, NR_INODE_BITS);
    assert w.live[..NR_INODE_BITS] == w.live;
    assert (set i: nat | i < NR_INODE_BITS && w.live[i]) == FilesOf(w).Keys;
  }

  lemma {:induction false} NumbersCount(live: seq<bool>, n: nat)
    requires n <= |live|
    ensures |set i: nat | i < n && live[i]| == Bits.Ones(live[..n])
  {
    if n > 0 {
      NumbersCount(live, n - 1);
      assert live[..n][..n - 1] == live[..n - 1];
      var was, now := set i: nat | i < n - 1 && live[i], set i: nat | i < n && live[i];
      assert now == was + if live[n - 1] then {n - 1} else {};
    }
  }

  lemma {:induction false} HeldWith(w: World, w': World, nr: nat, n: nat)
    requires nr < NR_INODES && n <= NR_INODES && w'.live == w.live && w.live[nr]
    requires w'.inodes == w.inodes[nr := w'.inodes[nr]]
    ensures HeldBelow(w', n) == HeldBelow(w, n) + if nr < n then Held(w'.inodes[nr]) - Held(w.inodes[nr]) else 0
  {
    hide Held;
    if n > 0 {
      HeldWith(w, w', nr, n - 1);
    }
  }

  /** An operation on a file took all free blocks, and the file has the size it had. */
  ghost predicate SpaceLost(v: Vol, d: DInode, v': Vol, d': DInode) {
    && Bits.Zeros(v.used) > 0 && Bits.Zeros(v'.used) == 0 && d'.size == d.size && (d.indirect != 0 ==> d'.indirect != 0)
    && (d.indirect == 0 && d'.indirect != 0 ==> Bits.Zeros(v.used) >= 2)
  }

  /** Then some blocks are allocated that no file accounts for. */
  lemma LostIsInconsistent(w: World, nr: nat, w': World)
    requires BlocksConsistent(w) && IsLive(w, nr) && w'.live == w.live && w'.inodes == w.inodes[nr := w'.inodes[nr]]
    requires SpaceLost(w.vol, w.inodes[nr], w'.vol, w'.inodes[nr])
    ensures !BlocksConsistent(w')
  {
    hide BlocksConsistent, HeldBelow, Bits.Ones;
    BlocksConserved(w);
    HeldWith(w, w', nr, NR_INODES);
    if BlocksConsistent(w') {
      BlocksConserved(w');
      assert false;
    }
  }
}
