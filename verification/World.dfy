/** The whole file system as a value: who owns which block, and the files that makes. */
module World {
  import opened Bytes
  import opened Layout
  import opened Checksum
  import opened Volume
  import opened Bitmap
  import opened Super
  import opened Steps
  import opened Inodes

  datatype WorldData = World(vol: Vol, live: seq<bool>, inodes: seq<DInode>)

  /** Volume, inode freemap bits, and the current dinode of every inode number, cached or on disk. */
  type World = w: WorldData | |w.live| == NR_INODE_BITS && |w.inodes| == NR_INODES
    witness World(Vol(seq<Block>(DISK_BLOCKS, _ => ZERO_BLOCK), seq(NR_BLOCK_BITS, _ => false),
      seq<int32>(MAX_NR_CSUMS, _ => 0)),
                  seq(NR_INODE_BITS, _ => false), seq<DInode>(NR_INODES, _ => ZERO_DINODE))

  /** The world when no inode is cached. */
  function DiskWorld(v: Vol, live: seq<bool>): World
    requires |live| == NR_INODE_BITS
  {
    WorldData.World(v, live, seq(NR_INODES, i requires 0 <= i < NR_INODES => DiskInode(v.disk, i)))
  }

  /** The inode freemap on the device is the one in memory. */
  ghost predicate NumbersSaved(w: World) {
    w.vol.disk[1] == FreemapBlock(w.live, 0)
  }

  /** A file as a user sees it. */
  datatype Node = Node(typ: int32, bytes: seq<byte>)

  type Files = map<nat, Node>

  ghost function OwnOf(w: World, i: nat): set<int>
    requires i < NR_INODES
  {
    Own(w.vol.disk, w.inodes[i], BlocksFor(w.inodes[i].size))
  }

  predicate IsLive(w: World, i: nat) {
    i < NR_INODES && w.live[i]
  }

  ghost predicate LiveSound(w: World, i: nat)
    requires i < NR_INODES
  {
    Sound(w.vol, w.inodes[i]) && (w.inodes[i].typ == I_FILE || w.inodes[i].typ == I_DIR)
  }

  ghost predicate Owned(w: World, p: int) {
    exists i: nat :: IsLive(w, i) && p in OwnOf(w, i)
  }

  /**
   * Every live inode is sound, no block belongs to two of them, every allocated block belongs to one,
   * and inodes that are not live are empty.
   */
  ghost predicate BlocksConsistent(w: World) {
    && (forall i: nat :: IsLive(w, i) ==> LiveSound(w, i))
    && (forall i: nat, j: nat :: IsLive(w, i) && IsLive(w, j) && i != j ==> OwnOf(w, i) !! OwnOf(w, j))
    && (forall p :: IsUsed(w.vol, p) ==> Owned(w, p))
    && (forall i: nat :: i < NR_INODES && !w.live[i] ==> w.inodes[i] == ZERO_DINODE)
    && (forall i :: NR_INODES <= i < NR_INODE_BITS ==> !w.live[i])
  }

  ghost function NodeOf(w: World, i: nat): Node
    requires i < NR_INODES && w.inodes[i].size >= 0
  {
    Node(w.inodes[i].typ, Contents(w.vol.disk, w.inodes[i]))
  }

  ghost function FilesOf(w: World): Files
    requires BlocksConsistent(w)
  {
    map i: nat | i < NR_INODES && IsLive(w, i) :: SizeKnown(w, i); NodeOf(w, i)
  }

  lemma SizeKnown(w: World, i: nat)
    requires BlocksConsistent(w) && IsLive(w, i)
    ensures w.inodes[i].size >= 0 && LiveSound(w, i)
  {
  }

  /** The world after inode `nr` became `d` on volume `v`. */
  function With(w: World, v: Vol, nr: nat, d: DInode): World
    requires nr < NR_INODES
  {
    WorldData.World(v, w.live, w.inodes[nr := d])
  }

  /** A step on one inode leaves the blocks of the others alone. */
  lemma OtherUntouched(v: Vol, o: set<int>, v': Vol, o': set<int>, d: DInode)
    requires OwnStep(v, o, v', o') && Sound(v, d) && o !! Own(v.disk, d, BlocksFor(d.size))
    ensures Sound(v', d) && Contents(v'.disk, d) == Contents(v.disk, d)
    ensures Own(v'.disk, d, BlocksFor(d.size)) == Own(v.disk, d, BlocksFor(d.size))
    ensures o' !! Own(v.disk, d, BlocksFor(d.size))
  {
    hide IntAt, Csum, Contents;
    var n := BlocksFor(d.size);
    var own := Own(v.disk, d, n);
    forall p | p in own ensures IsUsed(v, p) && p !in o' && OtherKept(v, v', p) {
    }
    SameOnOwn(v.disk, v'.disk, d, n);
    forall l: nat | l < n ensures CsumAt(v', d, l) && v'.disk[Lookup(v.disk, d, l)] == v.disk[Lookup(v.disk, d, l)] {
      InOwn(v.disk, d, n, l);
      assert CsumAt(v, d, l);
    }
    SameContents(v.disk, v'.disk, d);
  }

  lemma SameContents(disk: Disk, disk': Disk, d: DInode)
    requires WfInode(disk, d) && forall l: nat :: Lookup(disk', d, l) == Lookup(disk, d, l)
    requires forall l: nat :: l < BlocksFor(d.size) ==> disk'[Lookup(disk, d, l)] == disk[Lookup(disk, d, l)]
    ensures Contents(disk', d) == Contents(disk, d)
  {
    hide Lookup;
    forall pos: nat | pos < d.size ensures RawByte(disk', d, pos) == RawByte(disk, d, pos) {
      assert pos / 512 < BlocksFor(d.size);
    }
  }

  /** One live inode changed, and everything about the others is as it was. */
  lemma StepOne(w: World, nr: nat, v': Vol, d': DInode)
    requires BlocksConsistent(w) && IsLive(w, nr)
    requires OwnStep(w.vol, OwnOf(w, nr), v', Own(v'.disk, d', BlocksFor(d'.size)))
    requires Sound(v', d') && d'.typ == w.inodes[nr].typ
    ensures BlocksConsistent(With(w, v', nr, d'))
    ensures FilesOf(With(w, v', nr, d')) == FilesOf(w)[nr := Node(d'.typ, Contents(v'.disk, d'))]
  {
    hide Sound, Own, Contents, Lookup;
    var w' := With(w, v', nr, d');
    forall i: nat | IsLive(w, i) && i != nr
      ensures LiveSound(w', i) && OwnOf(w', i) == OwnOf(w, i) && OwnOf(w, i) !! OwnOf(w', nr)
      ensures w.inodes[i].size >= 0 && NodeOf(w', i) == NodeOf(w, i)
    {
      SizeKnown(w, i);
      OtherUntouched(w.vol, OwnOf(w, nr), v', OwnOf(w', nr), w.inodes[i]);
    }
    SizeKnown(w, nr);
    SoundSize(v', d');
    forall p | IsUsed(v', p) ensures Owned(w', p) {
      if p !in OwnOf(w', nr) {
        assert p !in OwnOf(w, nr);
        assert OtherKept(w.vol, v', p);
        var i: nat :| IsLive(w, i) && p in OwnOf(w, i);
        assert IsLive(w', i) && p in OwnOf(w', i);
      } else {
        assert IsLive(w', nr);
      }
    }
    assert forall i: nat :: IsLive(w', i) <==> IsLive(w, i);
  }

  lemma SoundSize(v: Vol, d: DInode)
    requires Sound(v, d)
    ensures d.size >= 0
  {
  }

  /** A step that changes neither the files' blocks nor any inode, such as syncing one to disk. */
  lemma StepNone(w: World, v': Vol)
    requires BlocksConsistent(w) && v'.used == w.vol.used && v'.csum == w.vol.csum
    requires forall p :: IsData(p) ==> v'.disk[p] == w.vol.disk[p]
    ensures BlocksConsistent(w.(vol := v')) && FilesOf(w.(vol := v')) == FilesOf(w)
  {
    hide Contents, Lookup, Csum, Own;
    var w' := WorldData.World(v', w.live, w.inodes);
    forall i: nat | IsLive(w, i)
      ensures LiveSound(w', i) && OwnOf(w', i) == OwnOf(w, i) && w.inodes[i].size >= 0 && NodeOf(w', i) == NodeOf(w, i)
    {
      SizeKnown(w, i);
      SameEverywhere(w.vol, v', w.inodes[i]);
    }
    forall p | IsUsed(v', p) ensures Owned(w', p) {
      assert IsUsed(w.vol, p);
      var i: nat :| IsLive(w, i) && p in OwnOf(w, i);
      assert IsLive(w', i) && p in OwnOf(w', i);
    }
    assert forall i: nat :: IsLive(w', i) <==> IsLive(w, i);
  }

  lemma SameEverywhere(v: Vol, v': Vol, d: DInode)
    requires Sound(v, d) && v'.used == v.used && v'.csum == v.csum
    requires forall p :: IsData(p) ==> v'.disk[p] == v.disk[p]
    ensures Sound(v', d) && Contents(v'.disk, d) == Contents(v.disk, d)
    ensures Own(v'.disk, d, BlocksFor(d.size)) == Own(v.disk, d, BlocksFor(d.size))
  {
    hide Contents, IntAt, Csum;
    var n := BlocksFor(d.size);
    SameOnOwn(v.disk, v'.disk, d, n);
    forall l: nat | l < n ensures CsumAt(v', d, l) {
      assert CsumAt(v, d, l);
    }
    SameContents(v.disk, v'.disk, d);
  }

  /** A new, empty inode. */
  lemma StepCreate(w: World, nr: nat, v': Vol, typ: int32)
    requires BlocksConsistent(w) && nr < NR_INODES && !w.live[nr] && (typ == I_FILE || typ == I_DIR)
    requires v'.used == w.vol.used && v'.csum == w.vol.csum && forall p :: IsData(p) ==> v'.disk[p] == w.vol.disk[p]
    ensures var w' := WorldData.World(v', w.live[nr := true], w.inodes[nr := ZERO_DINODE.(typ := typ)]);
            BlocksConsistent(w') && FilesOf(w') == FilesOf(w)[nr := Node(typ, [])]
  {
    hide Contents, Lookup, Csum, Sound, Own;
    StepNone(w, v');
    var w1 := WorldData.World(v', w.live, w.inodes);
    var d := ZERO_DINODE.(typ := typ);
    var w' := WorldData.World(v', w.live[nr := true], w.inodes[nr := d]);
    EmptyInode(v', d);
    assert OwnOf(w', nr) == {} && LiveSound(w', nr);
    forall i: nat | IsLive(w1, i)
      ensures LiveSound(w', i) && OwnOf(w', i) == OwnOf(w1, i) && w1.inodes[i].size >= 0
      ensures NodeOf(w', i) == NodeOf(w1, i)
    {
      SizeKnown(w1, i);
    }
    forall p | IsUsed(v', p) ensures Owned(w', p) {
      assert IsUsed(w1.vol, p);
      var i: nat :| IsLive(w1, i) && p in OwnOf(w1, i);
      assert IsLive(w', i) && p in OwnOf(w', i);
    }
    assert forall i: nat :: IsLive(w', i) <==> IsLive(w1, i) || i == nr;
  }

  lemma EmptyInode(v: Vol, d: DInode)
    requires d == ZERO_DINODE.(typ := d.typ)
    ensures Sound(v, d) && Own(v.disk, d, 0) == {} && Contents(v.disk, d) == []
  {
    forall l: nat ensures Lookup(v.disk, d, l) == 0 {
    }
  }

  /** An inode without blocks goes away. */
  lemma StepRemove(w: World, nr: nat, v': Vol)
    requires BlocksConsistent(w) && IsLive(w, nr) && OwnOf(w, nr) == {}
    requires v'.used == w.vol.used && v'.csum == w.vol.csum && forall p :: IsData(p) ==> v'.disk[p] == w.vol.disk[p]
    ensures var w' := WorldData.World(v', w.live[nr := false], w.inodes[nr := ZERO_DINODE]);
            BlocksConsistent(w') && FilesOf(w') == FilesOf(w) - {nr}
  {
    hide Contents, Lookup, Csum, Sound, Own;
    StepNone(w, v');
    var w1 := WorldData.World(v', w.live, w.inodes);
    SizeKnown(w, nr);
    SameEverywhere(w.vol, v', w.inodes[nr]);
    assert OwnOf(w1, nr) == {};
    var w' := WorldData.World(v', w.live[nr := false], w.inodes[nr := ZERO_DINODE]);
    forall i: nat | IsLive(w1, i) && i != nr
      ensures LiveSound(w', i) && OwnOf(w', i) == OwnOf(w1, i) && w1.inodes[i].size >= 0
      ensures NodeOf(w', i) == NodeOf(w1, i)
    {
      SizeKnown(w1, i);
    }
    forall p | IsUsed(v', p) ensures Owned(w', p) {
      assert IsUsed(w1.vol, p);
      var i: nat :| IsLive(w1, i) && p in OwnOf(w1, i);
      assert IsLive(w', i) && p in OwnOf(w', i);
    }
    assert forall i: nat :: IsLive(w', i) <==> IsLive(w1, i) && i != nr;
  }

  // What a finished operation on one inode means for its file

  lemma AfterWrite(v: Vol, d: DInode, start: nat, buf: seq<byte>, v': Vol, d': DInode)
    requires Sound(v, d) && start <= d.size && Wrote(v, d, start, buf, v', d')
    ensures Sound(v', d') <==> buf != [] || start < 512 * BlocksFor(d.size)
    ensures Contents(v'.disk, d') == Overlay(Contents(v.disk, d), start, buf)
    ensures buf != [] || start < 512 * BlocksFor(d.size) ==>
      OwnStep(v, Own(v.disk, d, BlocksFor(d.size)), v', Own(v'.disk, d', BlocksFor(d'.size)))
  {
    hide Own, OwnStep, Contents, CsumAt, IntAt;
    var n := Max(BlocksFor(d.size), LastBlock(start, |buf|) + 1);
    if BlocksFor(d'.size) != n {
      assert Lookup(v'.disk, d', n - 1) != 0;
    }
  }

  lemma AfterTruncate(v: Vol, d: DInode, size: nat, v': Vol, d': DInode)
    requires Sound(v, d) && size < d.size && d' == d.(direct := d'.direct, indirect := d'.indirect, size := size)
    requires Truncated(v, d, BlocksFor(d.size), BlocksFor(size), v', d')
    ensures Sound(v', d') && Contents(v'.disk, d') == Contents(v.disk, d)[..size]
    ensures OwnStep(v, Own(v.disk, d, BlocksFor(d.size)), v', Own(v'.disk, d', BlocksFor(size)))
  {
    hide Own, OwnStep, Zeros, Lookup, Csum;
    var m := BlocksFor(size);
    KeepsCsum(v, d, v', d', m);
    KeepsBytes(v.disk, d, v'.disk, d', m);
  }
}
