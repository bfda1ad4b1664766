/** `checkfs`: walks the tree, rebuilds both freemaps from what it reaches, and verifies checksums. */
module Check {
  import opened Bytes
  import opened Layout
  import opened Volume
  import Bits = Bitmap
  import Device
  import opened Super
  import opened Steps
  import opened Inodes
  import opened World
  import opened Table
  import opened Dirents
  import opened Tree
  import opened DirOps
  import opened Contexts
  import opened Commands

  ghost predicate OwnedIn(w: World, s: set<nat>, p: int) {
    exists x: nat :: x in s && x < NR_INODES && p in OwnOf(w, x)
  }

  /** The inodes in `s` and their blocks were marked. */
  ghost predicate Visited(w: World, s: set<nat>, i0: seq<bool>, b0: seq<bool>, i1: seq<bool>, b1: seq<bool>) {
    && |i0| == |i1| == NR_INODE_BITS && |b0| == |b1| == NR_BLOCK_BITS
    && (forall i: nat :: i < NR_INODE_BITS ==> i1[i] == (i0[i] || i in s))
    && (forall i: nat :: i < NR_BLOCK_BITS ==> (b1[i] <==> b0[i] || OwnedIn(w, s, DATA_START + i)))
  }

  /** Neither the inodes in `s` nor their blocks are marked. */
  ghost predicate Unvisited(w: World, s: set<nat>, i0: seq<bool>, b0: seq<bool>) {
    |i0| == NR_INODE_BITS && |b0| == NR_BLOCK_BITS && forall x :: x in s ==>
      x < NR_INODES && !i0[x] && Unmarked(b0, OwnOf(w, x))
  }

  lemma VisitedNothing(w: World, i0: seq<bool>, b0: seq<bool>)
    requires |i0| == NR_INODE_BITS && |b0| == NR_BLOCK_BITS
    ensures Visited(w, {}, i0, b0, i0, b0)
  {
  }

  lemma VisitedBoth(w: World, s: set<nat>, t: set<nat>, i0: seq<bool>, b0: seq<bool>, i1: seq<bool>, b1: seq<bool>,
                    i2: seq<bool>, b2: seq<bool>)
    requires Visited(w, s, i0, b0, i1, b1) && Visited(w, t, i1, b1, i2, b2)
    ensures Visited(w, s + t, i0, b0, i2, b2)
  {
    forall p: int ensures OwnedIn(w, s + t, p) <==> OwnedIn(w, s, p) || OwnedIn(w, t, p) {
      if x: nat :| x in s + t && x < NR_INODES && p in OwnOf(w, x) {
        assert x in s || x in t;
      }
      if x: nat :| x in s && x < NR_INODES && p in OwnOf(w, x) {
        assert x in s + t;
      }
      if x: nat :| x in t && x < NR_INODES && p in OwnOf(w, x) {
        assert x in s + t;
      }
    }
  }

  /** The inodes below one child are still unmarked when others have been visited. */
  lemma StillUnvisited(w: World, u: set<nat>, t: set<nat>, i0: seq<bool>, b0: seq<bool>, i1: seq<bool>, b1: seq<bool>)
    requires BlocksConsistent(w) && u !! t && (forall x :: x in u || x in t ==> IsLive(w, x))
    requires Unvisited(w, t, i0, b0) && Visited(w, u, i0, b0, i1, b1)
    ensures Unvisited(w, t, i1, b1)
  {
    hide LiveSound, Owned;
    forall x | x in t ensures x < NR_INODES && !i1[x] && Unmarked(b1, OwnOf(w, x)) {
      assert IsLive(w, x);
      forall i | 0 <= i < NR_BLOCK_BITS && DATA_START + i in OwnOf(w, x) ensures !b1[i] {
        forall y: nat | y in u && y < NR_INODES ensures DATA_START + i !in OwnOf(w, y) {
          assert IsLive(w, y) && OwnOf(w, x) !! OwnOf(w, y);
        }
      }
    }
  }

  /** The inode itself was marked before its children, and its blocks after them. */
  lemma VisitedSelf(w: World, nr: nat, s: set<nat>, i0: seq<bool>, b0: seq<bool>, i1: seq<bool>, b1: seq<bool>,
      b2: seq<bool>)
    requires nr < NR_INODES && |i0| == NR_INODE_BITS && |b0| == NR_BLOCK_BITS
    requires Visited(w, s, i0[nr := true], b0, i1, b1)
    requires Marked(b1, OwnOf(w, nr), b2)
    ensures Visited(w, {nr} + s, i0, b0, i1, b2)
  {
    forall p: int ensures OwnedIn(w, {nr} + s, p) <==> OwnedIn(w, s, p) || p in OwnOf(w, nr) {
      if x: nat :| x in {nr} + s && x < NR_INODES && p in OwnOf(w, x) {
        assert x == nr || x in s;
      }
      if x: nat :| x in s && x < NR_INODES && p in OwnOf(w, x) {
        assert x in {nr} + s;
      }
      assert nr in {nr} + s;
    }
  }

  lemma SelfFirst(files: Files, sh: Shape, w: World, nr: nat, i0: seq<bool>, b0: seq<bool>)
    requires nr in files && Unvisited(w, Subtree(files, sh, nr), i0, b0)
    ensures nr < NR_INODES && |i0| == NR_INODE_BITS && |b0| == NR_BLOCK_BITS && !i0[nr]
    ensures Unvisited(w, Subtree(files, sh, nr) - {nr}, i0[nr := true], b0)
  {
    assert nr in Subtree(files, sh, nr);
  }

  /** After the inodes below `nr` its own blocks are still unmarked. */
  lemma SelfUnmarked(files: Files, sh: Shape, w: World, nr: nat, i0: seq<bool>, b0: seq<bool>, i1: seq<bool>,
      b1: seq<bool>)
    requires BlocksConsistent(w) && files == FilesOf(w) && nr in files && Unvisited(w, Subtree(files, sh, nr), i0, b0)
    requires |i0| == NR_INODE_BITS && nr < NR_INODES
    requires Visited(w, Subtree(files, sh, nr) - {nr}, i0[nr := true], b0, i1, b1)
    ensures Unmarked(b1, OwnOf(w, nr))
  {
    hide LiveSound, Owned, NodeOf;
    assert nr in Subtree(files, sh, nr);
    forall i | 0 <= i < NR_BLOCK_BITS && DATA_START + i in OwnOf(w, nr) ensures !b1[i] {
      forall y: nat | y in Subtree(files, sh, nr) - {nr} && y < NR_INODES ensures DATA_START + i !in OwnOf(w, y) {
        assert IsLive(w, y) && IsLive(w, nr) && OwnOf(w, nr) !! OwnOf(w, y);
      }
    }
  }

  /** A directory's subtree is the directory and what is below all its records. */
  lemma BelowAll(files: Files, sh: Shape, d: nat)
    requires TreeOk(files, sh) && IsDir(files, d)
    ensures BelowFirst(files, sh, d, |Entries(files, d)|) == Subtree(files, sh, d) - {d}
    ensures BelowFirst(files, sh, d, 0) == {}
  {
    hide IsLog, Parse, LogOk;
    WholeSubtree(files, sh, d);
    forall j: nat | IsChildAt(Entries(files, d), j) ensures !Under(sh, d, Entries(files, d)[j].nr) {
      ChildSubtree(files, sh, d, j);
    }
  }

  /** The next child can be visited, and then it counts as visited with those before it. */
  lemma ChildStep(files: Files, sh: Shape, w: World, d: nat, k: nat, i0: seq<bool>, b0: seq<bool>, i1: seq<bool>,
      b1: seq<bool>)
    requires BlocksConsistent(w) && files == FilesOf(w) && TreeOk(files, sh) && IsDir(files, d)
    requires IsChildAt(Entries(files, d), k)
    requires Unvisited(w, Subtree(files, sh, d) - {d}, i0, b0)
    requires Visited(w, BelowFirst(files, sh, d, k), i0, b0, i1, b1)
    ensures var x := Entries(files, d)[k].nr;
            && x in files && Subtree(files, sh, x) < Subtree(files, sh, d)
            && BelowFirst(files, sh, d, k + 1) == BelowFirst(files, sh, d, k) + Subtree(files, sh, x)
            && Subtree(files, sh, x) <= Subtree(files, sh, d) - {d}
            && Unvisited(w, Subtree(files, sh, x), i1, b1)
  {
    hide IsLog, Parse, LogOk, BlocksConsistent, Visited, TreeOk;
    ChildSubtree(files, sh, d, k);
    var x := Entries(files, d)[k].nr;
    assert forall y :: y in Subtree(files, sh, x) || y in BelowFirst(files, sh, d, k) ==> y in files;
    FilesLive(w);
    StillUnvisited(w, BelowFirst(files, sh, d, k), Subtree(files, sh, x), i0, b0, i1, b1);
  }

  lemma FilesLive(w: World)
    requires BlocksConsistent(w)
    ensures forall y :: y in FilesOf(w) ==> IsLive(w, y)
  {
  }

  /** The two maps under construction are none of the super block's. */
  ghost predicate OwnMaps(c: Context, iMap: Bits.Bitmap, bMap: Bits.Bitmap)
    reads iMap.v, bMap.v
  {
    && iMap.Valid() && iMap.nbits == NR_INODE_BITS && bMap.Valid() && bMap.nbits == NR_BLOCK_BITS && iMap.v != bMap.v
    && iMap.v != c.sb.inodeFreemap.v && iMap.v != c.sb.blockFreemap.v
    && bMap.v != c.sb.inodeFreemap.v && bMap.v != c.sb.blockFreemap.v
  }

  /**
   * World `g` is `w` with a checksum table in which the checksum of every block of every file is right. It is `w`
   * itself unless the checksums of `w` are damaged.
   */
  ghost predicate Mended(w: World, g: World) {
    && g.vol.disk == w.vol.disk && g.vol.used == w.vol.used && g.live == w.live && g.inodes == w.inodes
    && BlocksConsistent(g)
  }

  /** All but, perhaps, checksums is in order, and no cached inode but the current directory has unsaved changes. */
  ghost predicate Steady(c: Context, g: World)
    reads c, c.table, c.table.view.Values, c.sb, c.sb.dev, c.sb.inodeFreemap.v, c.sb.blockFreemap.v
  {
    && c.sb.Valid() && c.Struct() && c.CachedLive() && c.MapsSaved() && Mended(c.W(), g)
    && TreeOk(FilesOf(g), c.shape)
    && c.curDir.nr in c.table.view && c.table.view[c.curDir.nr] == c.curDir && c.table.view[c.curDir.nr].count > 0
    && forall i :: i in c.table.view && i != c.curDir.nr ==> !c.table.view[i].dirty
  }

  lemma SteadyIs(c: Context, g: World)
    requires Steady(c, g)
    ensures c.sb.Valid() && c.Struct() && c.CachedLive() && c.MapsSaved() && Mended(c.W(), g) && BlocksConsistent(g)
    ensures TreeOk(FilesOf(g), c.shape) && c.curDir.nr in c.table.view
    ensures c.table.view[c.curDir.nr] == c.curDir && c.curDir.count > 0
    ensures forall i :: i in c.table.view && i != c.curDir.nr ==> !c.table.view[i].dirty
  {
  }

  lemma SteadyNow(c: Context, g: World)
    requires c.sb.Valid() && c.Struct() && c.CachedLive() && c.MapsSaved() && Mended(c.W(), g)
    requires TreeOk(FilesOf(g), c.shape) && c.curDir.nr in c.table.view
    requires c.table.view[c.curDir.nr] == c.curDir && c.table.view[c.curDir.nr].count > 0
    requires forall i :: i in c.table.view && i != c.curDir.nr ==> !c.table.view[i].dirty
    ensures Steady(c, g)
  {
  }

  /** An inode in memory is one of the files, and its blocks are there. */
  lemma KnownInode(c: Context, g: World, in_: Inode)
    requires Steady(c, g) && in_.nr in c.table.view && c.table.view[in_.nr] == in_
    ensures in_.sb == c.sb && in_.Ready() && !in_.indirectDirty && in_.count > 0 && in_.nr < NR_INODES
    ensures c.sb.inodeFreemap.v != c.sb.blockFreemap.v && c.W().vol == c.sb.Vol() && c.W().live == c.sb.InodesUsed()
    ensures c.sb.InodesUsed()[in_.nr] && in_.din == g.inodes[in_.nr] && Sound(g.vol, in_.din)
    ensures c.sb.Vol().disk == g.vol.disk && c.sb.Vol().used == g.vol.used
    ensures in_.din.size >= 0 && in_.nr in FilesOf(g)
    ensures FilesOf(g)[in_.nr] == Node(in_.din.typ, Contents(g.vol.disk, in_.din))
    ensures forall i :: i in c.table.view && i != in_.nr ==> c.table.view[i] != in_
  {
    hide SuperBlock.Vol, SuperBlock.Valid, BlocksConsistent, FilesOf, TreeOk, Context.MapsSaved, Sound, Contents;
    hide DiskInode, SuperBlock.InodesUsed;
    assert c.CacheOk(in_.nr);
    assert c.W().inodes[in_.nr] == in_.din && IsLive(g, in_.nr);
    LiveIs(g, in_.nr);
    FreemapsDiffer(c.sb);
  }

  lemma LiveIs(g: World, nr: nat)
    requires BlocksConsistent(g) && IsLive(g, nr)
    ensures Sound(g.vol, g.inodes[nr]) && g.inodes[nr].size >= 0 && nr in FilesOf(g)
    ensures FilesOf(g)[nr] == Node(g.inodes[nr].typ, Contents(g.vol.disk, g.inodes[nr]))
  {
    hide Sound, Contents;
    SizeKnown(g, nr);
  }

  /** A directory in memory can be walked. */
  lemma KnownDir(c: Context, g: World, dir: Inode)
    requires Steady(c, g) && dir.nr in c.table.view && c.table.view[dir.nr] == dir
    requires IsDir(FilesOf(g), dir.nr) && IsLog(FilesOf(g)[dir.nr].bytes)
    ensures Holds(dir, Entries(FilesOf(g), dir.nr)) && dir.sb == c.sb
  {
    hide SuperBlock.Vol, SuperBlock.Valid, Contents, Log, Parse, BlocksConsistent, Context.W, FilesOf, CsumOk;
    hide TreeOk, Context.Struct, Context.MapsSaved;
    KnownInode(c, g, dir);
    SameReadable(c.sb.Vol(), g.vol, dir.din);
  }

  lemma SameReadable(v: Vol, v': Vol, d: DInode)
    requires Sound(v', d) && v.disk == v'.disk && v.used == v'.used
    ensures Readable(v, d)
  {
    hide CsumOk;
  }

  /** The inode of a file can be got, and if it is in memory already, somebody holds it. */
  lemma MayOpen(c: Context, g: World, nr: nat)
    requires Steady(c, g) && nr in FilesOf(g)
    ensures nr < NR_INODES && c.sb.Valid() && c.sb.InodesUsed()[nr]
    ensures nr in c.table.view ==> c.table.view[nr].nr == nr && c.table.view[nr].count > 0
  {
    hide SuperBlock.Vol, SuperBlock.Valid, BlocksConsistent, TreeOk, Context.MapsSaved, SuperBlock.InodesUsed;
    hide DiskInode;
    FilesLive(g);
    c.LiveIs();
    if nr in c.table.view {
      assert c.CacheOk(nr);
    }
  }

  /** Nothing happened but reading. */
  twostate lemma OnlyReadSo(c: Context, new g: World)
    requires old(Steady(c, g)) && unchanged(c) && unchanged(c.table) && unchanged(c.sb)
    requires forall i :: i in c.table.view ==> unchanged(c.table.view[i])
    requires c.sb.Valid() && c.sb.Idle() && c.sb.Vol() == old(c.sb.Vol())
    requires c.sb.InodesUsed() == old(c.sb.InodesUsed())
    ensures Steady(c, g) && c.W() == old(c.W())
  {
    hide SuperBlock.Vol, SuperBlock.Valid, SuperBlock.InodesUsed, InodeTable.Valid, DiskInode, BlocksConsistent;
    hide Context.MapsSaved, TreeOk, FilesOf;
    forall i | i in c.table.view ensures c.CacheOk(i) {
      assert old(c.CacheOk(i));
    }
    c.SameW();
  }

  /** The subtree holds the current directory, and that has unsaved changes. */
  ghost predicate Unsaved(c: Context, s: set<nat>)
    reads c`curDir, c.curDir`dirty
  {
    c.curDir.nr in s && c.curDir.dirty
  }

  ghost predicate SameTable(c: Context, view: map<nat, Inode>, counts: map<nat, nat>)
    reads c.table, c.table.view.Values
  {
    c.table.view == view && forall i :: i in c.table.view ==> i in counts && c.table.view[i].count == counts[i]
  }

  ghost function Counts(c: Context): map<nat, nat>
    reads c.table, c.table.view.Values
  {
    map i | i in c.table.view :: c.table.view[i].count
  }

  /** Block `p` belongs to one of the inodes in `s`, and its checksum is not the one in the table. */
  ghost predicate WrongBlock(v: Vol, g: World, s: set<nat>, p: int) {
    exists x: nat :: x in s && x < NR_INODES && WrongIn(v, g.inodes[x], BlocksFor(g.inodes[x].size), p)
  }

  /** Exactly the blocks of these inodes that have a wrong checksum are listed. */
  ghost predicate Reported(v: Vol, g: World, s: set<nat>, bad: seq<int>) {
    forall p :: p in bad <==> WrongBlock(v, g, s, p)
  }

  lemma ReportedNone(v: Vol, g: World)
    ensures Reported(v, g, {}, [])
  {
  }

  lemma ReportedBoth(v: Vol, g: World, s: set<nat>, t: set<nat>, a: seq<int>, b: seq<int>)
    requires Reported(v, g, s, a) && Reported(v, g, t, b)
    ensures Reported(v, g, s + t, a + b)
  {
    hide WrongIn;
    forall p ensures p in a + b <==> WrongBlock(v, g, s + t, p) {
      assert (p in a <==> WrongBlock(v, g, s, p)) && (p in b <==> WrongBlock(v, g, t, p));
      if x: nat :| x in s + t && x < NR_INODES && WrongIn(v, g.inodes[x], BlocksFor(g.inodes[x].size), p) {
        assert x in s || x in t;
      }
      if x: nat :| x in s && x < NR_INODES && WrongIn(v, g.inodes[x], BlocksFor(g.inodes[x].size), p) {
        assert x in s + t;
      }
      if x: nat :| x in t && x < NR_INODES && WrongIn(v, g.inodes[x], BlocksFor(g.inodes[x].size), p) {
        assert x in s + t;
      }
    }
  }

  lemma ReportedOne(v: Vol, g: World, x: nat, bad: seq<int>)
    requires x < NR_INODES && Reports(v, g.inodes[x], BlocksFor(g.inodes[x].size), bad)
    ensures Reported(v, g, {x}, bad)
  {
    hide WrongIn;
    forall p ensures p in bad <==> WrongBlock(v, g, {x}, p) {
      assert p in bad <==> WrongIn(v, g.inodes[x], BlocksFor(g.inodes[x].size), p);
      assert x in {x};
    }
  }

  /** Marks the blocks of a cached inode, which are as many as its size needs, and lists those with a wrong checksum. */
  method CheckBlocks(c: Context, iMap: Bits.Bitmap, bMap: Bits.Bitmap, in_: Inode, ghost g: World)
    returns (size: int, bad: seq<int>)
    requires Steady(c, g) && OwnMaps(c, iMap, bMap) && in_.nr in c.table.view && c.table.view[in_.nr] == in_
    requires in_.nr < NR_INODES && Unmarked(bMap.Bits(), OwnOf(g, in_.nr))
    modifies c.sb.dev, bMap.v
    ensures size == BlocksFor(in_.din.size) * 512 && Reported(old(c.W()).vol, g, {in_.nr}, bad)
    ensures Steady(c, g) && OwnMaps(c, iMap, bMap) && c.W() == old(c.W())
    ensures Marked(old(bMap.Bits()), OwnOf(g, in_.nr), bMap.Bits())
  {
    hide SuperBlock.Vol, SuperBlock.Valid, SuperBlock.InodesUsed, InodeTable.Valid, DiskInode, Sound, Contents;
    hide Context.Struct, Context.CachedLive, Context.MapsSaved, Context.W, Context.CacheOk, FilesOf, BlocksConsistent;
    hide TreeOk, Own, CsumOk, Lookup, Unmarked, Marked, Reports, Reported, Steady;
    KnownInode(c, g, in_);
    SoundCheck(g.vol, in_.din);
    ghost var v := c.sb.Vol();
    size, bad := in_.CheckInode(bMap, BlocksFor(in_.din.size));
    ReportedOne(v, g, in_.nr, bad);
    OnlyReadSo(c, g);
  }

  lemma SoundCheck(v: Vol, d: DInode)
    requires Sound(v, d)
    ensures d.size >= 0 && WfMap(v.disk, d, BlocksFor(d.size)) && CsumOk(v, d, BlocksFor(d.size))
    ensures forall l: nat :: l < BlocksFor(d.size) ==> Lookup(v.disk, d, l) < DATA_START + MAX_NR_CSUMS
  {
    hide Lookup, Own;
    forall l: nat | l < BlocksFor(d.size) ensures Lookup(v.disk, d, l) < DATA_START + MAX_NR_CSUMS {
      assert CsumAt(v, d, l);
    }
  }

  /** Checks one inode and everything below it. */
  method Checkfs(c: Context, iMap: Bits.Bitmap, bMap: Bits.Bitmap, nr: nat, ghost g: World)
    returns (r: Outcome, bad: seq<int>)
    requires Steady(c, g) && OwnMaps(c, iMap, bMap) && nr in FilesOf(g)
    requires Unvisited(g, Subtree(FilesOf(g), c.shape, nr), iMap.Bits(), bMap.Bits())
    modifies c.table, c.table.view.Values`count, c.sb.dev, iMap.v, bMap.v
    ensures r == if Unsaved(c, Subtree(FilesOf(g), c.shape, nr)) then Aborted(CleanOnPut) else Done
    ensures r == Done ==> Steady(c, g) && OwnMaps(c, iMap, bMap) && c.W() == old(c.W())
    ensures r == Done ==> SameTable(c, old(c.table.view), old(Counts(c)))
    ensures r == Done ==>
      Visited(g, Subtree(FilesOf(g), c.shape, nr), old(iMap.Bits()), old(bMap.Bits()), iMap.Bits(), bMap.Bits())
    ensures r == Done ==> Reported(old(c.W()).vol, g, Subtree(FilesOf(g), c.shape, nr), bad)
    decreases Subtree(FilesOf(g), c.shape, nr), 5
  {
    hide SuperBlock.Vol, SuperBlock.Valid, SuperBlock.InodesUsed, InodeTable.Valid, DiskInode, Sound, Contents;
    hide Context.Struct, Context.CachedLive, Context.MapsSaved, Context.W, Context.CacheOk, FilesOf, BlocksConsistent;
    hide Parse, TreeOk, IsLog, Visited, Unvisited, OwnOf, Entries, OwnMaps, Subtree, IsDir, Context.Current;
    hide SameTable, OneRaised, Counts, Reported, Steady;
    var in_ := OpenToCheck(c, iMap, bMap, nr, g);
    SelfBelow(FilesOf(g), c.shape, nr);
    ghost var raised := Counts(c);
    r, bad := CheckNode(c, iMap, bMap, in_, g);
    if r != Done {
      return;
    }
    var clean := CloseChecked(c, iMap, bMap, in_, g, old(c.table.view), old(Counts(c)), raised);
    if !clean {
      r := Aborted(CleanOnPut);
    }
  }

  lemma SelfBelow(files: Files, sh: Shape, nr: nat)
    requires nr in files
    ensures nr in Subtree(files, sh, nr)
  {
  }

  method CloseChecked(c: Context, iMap: Bits.Bitmap, bMap: Bits.Bitmap, in_: Inode, ghost g: World,
                      ghost view: map<nat, Inode>, ghost counts: map<nat, nat>, ghost raised: map<nat, nat>)
  returns (clean: bool)
    requires Steady(c, g) && OwnMaps(c, iMap, bMap) && c.curDir.nr in view
    requires SameTable(c, view[in_.nr := in_], raised) && OneRaised(view, counts, in_, raised)
    modifies c.table, in_`count
    ensures clean == !(in_ == c.curDir && c.curDir.dirty)
    ensures clean ==> Steady(c, g) && OwnMaps(c, iMap, bMap) && c.W() == old(c.W()) && SameTable(c, view, counts)
  {
    hide SuperBlock.Vol, SuperBlock.Valid, SuperBlock.InodesUsed, InodeTable.Valid, DiskInode, Sound, Contents;
    hide Context.Struct, Context.CachedLive, Context.MapsSaved, Context.W, Context.CacheOk, FilesOf, BlocksConsistent;
    hide Parse, TreeOk, IsLog, OwnOf, Entries, OwnMaps, IsDir, Context.Current;
    assert in_.nr in c.table.view && c.table.view[in_.nr] == in_;
    KnownInode(c, g, in_);
    clean := c.PutInode(in_);
    if clean {
      assert c.table.view == view;
      SteadyNow(c, g);
    }
  }

  method OpenToCheck(c: Context, iMap: Bits.Bitmap, bMap: Bits.Bitmap, nr: nat, ghost g: World) returns (in_: Inode)
    requires Steady(c, g) && OwnMaps(c, iMap, bMap) && nr in FilesOf(g)
    modifies c.table, c.table.view.Values`count, c.sb.dev
    ensures Steady(c, g) && OwnMaps(c, iMap, bMap) && c.W() == old(c.W()) && in_.nr == nr && BlocksConsistent(g)
    ensures (in_ == c.curDir <==> nr == c.curDir.nr) && c.curDir.nr in old(c.table.view)
    ensures c.table.view == old(c.table.view)[nr := in_] && (fresh(in_) || in_ in old(c.table.view.Values))
    ensures OneRaised(old(c.table.view), old(Counts(c)), in_, Counts(c)) && SameTable(c, c.table.view, Counts(c))
  {
    hide SuperBlock.Vol, SuperBlock.Valid, SuperBlock.InodesUsed, InodeTable.Valid, DiskInode, Sound, Contents;
    hide Context.Struct, Context.CachedLive, Context.MapsSaved, Context.W, Context.CacheOk, FilesOf, BlocksConsistent;
    hide Parse, TreeOk, IsLog, Visited, Unvisited, OwnOf, Entries, OwnMaps, Subtree, IsDir, Context.Current, Steady;
    SteadyIs(c, g);
    hide OneRaised, SameTable, Counts;
    MayOpen(c, g, nr);
    in_ := c.GetInode(nr);
    SteadyNow(c, g);
    RaisedOnce(c, in_);
    NothingCounted(c);
  }

  twostate lemma RaisedOnce(c: Context, new in_: Inode)
    requires in_.nr in c.table.view && c.table.view == old(c.table.view)[in_.nr := in_]
    requires in_.nr in old(c.table.view) ==> in_ == old(c.table.view)[in_.nr] && old(c.table.view[in_.nr].count) > 0
    requires in_.count == if in_.nr in old(c.table.view) then old(c.table.view[in_.nr].count) + 1 else 1
    requires forall i :: i in old(c.table.view) && i != in_.nr ==>
      c.table.view[i].count == old(c.table.view[i].count)
    ensures OneRaised(old(c.table.view), old(Counts(c)), in_, Counts(c))
  {
  }

  /** Inode `in_` was raised once more. */
  ghost predicate OneRaised(view: map<nat, Inode>, counts: map<nat, nat>, in_: Inode, raised: map<nat, nat>) {
    && (in_.nr in view ==> view[in_.nr] == in_ && in_.nr in counts && counts[in_.nr] > 0)
    && in_.nr in raised && raised[in_.nr] == (if in_.nr in view && in_.nr in counts then counts[in_.nr] + 1 else 1)
    && forall i :: i in view && i != in_.nr ==> i in counts && i in raised && raised[i] == counts[i]
  }

  /** The part of the check between getting the inode and putting it back. */
  method CheckNode(c: Context, iMap: Bits.Bitmap, bMap: Bits.Bitmap, in_: Inode, ghost g: World)
    returns (r: Outcome, bad: seq<int>)
    requires Steady(c, g) && OwnMaps(c, iMap, bMap) && in_.nr in FilesOf(g)
    requires in_.nr in c.table.view && c.table.view[in_.nr] == in_
    requires Unvisited(g, Subtree(FilesOf(g), c.shape, in_.nr), iMap.Bits(), bMap.Bits())
    modifies c.table, c.table.view.Values`count, c.sb.dev, iMap.v, bMap.v
    ensures r == if Unsaved(c, Subtree(FilesOf(g), c.shape, in_.nr) - {in_.nr}) then Aborted(CleanOnPut) else Done
    ensures r == Done ==> Steady(c, g) && OwnMaps(c, iMap, bMap) && c.W() == old(c.W())
    ensures r == Done ==> SameTable(c, old(c.table.view), old(Counts(c)))
    ensures r == Done ==> Visited(g, Subtree(FilesOf(g), c.shape, in_.nr),
                                  old(iMap.Bits()), old(bMap.Bits()), iMap.Bits(), bMap.Bits())
    ensures r == Done ==> Reported(old(c.W()).vol, g, Subtree(FilesOf(g), c.shape, in_.nr), bad)
    decreases Subtree(FilesOf(g), c.shape, in_.nr), 4
  {
    hide SuperBlock.Vol, SuperBlock.Valid, SuperBlock.InodesUsed, InodeTable.Valid, DiskInode, Sound, Contents;
    hide Context.Struct, Context.CachedLive, Context.MapsSaved, Context.W, Context.CacheOk, FilesOf;
    hide BlocksConsistent, Context.Current;
    hide Parse, TreeOk, IsLog, Visited, Unvisited, Subtree, OwnOf, Entries, Unmarked, Marked, Counts, Reported;
    hide Steady;
    SteadyIs(c, g);
    ghost var w, files, sh, nr, v := g, FilesOf(g), c.shape, in_.nr, c.W().vol;
    ghost var i0, b0 := iMap.Bits(), bMap.Bits();
    SelfFirst(files, sh, w, nr, i0, b0);
    PlainSubtree(files, sh, nr);
    KnownInode(c, g, in_);
    r, bad := CheckBelow(c, iMap, bMap, in_, g);
    if r != Done {
      return;
    }
    ghost var i1, b1 := iMap.Bits(), bMap.Bits();
    SelfUnmarked(files, sh, w, nr, i0, b0, i1, b1);
    var size, more := CheckBlocks(c, iMap, bMap, in_, g);
    assert size == BlocksFor(in_.din.size) * 512;
    VisitedSelf(w, nr, Subtree(files, sh, nr) - {nr}, i0, b0, i1, b1, bMap.Bits());
    ReportedBoth(v, g, Subtree(files, sh, nr) - {nr}, {nr}, bad, more);
    assert Subtree(files, sh, nr) - {nr} + {nr} == Subtree(files, sh, nr);
    bad := bad + more;
  }

  /** Marks an inode and checks what is below it. */
  method CheckBelow(c: Context, iMap: Bits.Bitmap, bMap: Bits.Bitmap, in_: Inode, ghost g: World)
    returns (r: Outcome, bad: seq<int>)
    requires Steady(c, g) && OwnMaps(c, iMap, bMap) && in_.nr in FilesOf(g)
    requires in_.nr in c.table.view && c.table.view[in_.nr] == in_ && in_.nr < NR_INODES && !iMap.Bits()[in_.nr]
    requires Unvisited(g, Subtree(FilesOf(g), c.shape, in_.nr) - {in_.nr}, iMap.Bits()[in_.nr := true], bMap.Bits())
    modifies c.table, c.table.view.Values`count, c.sb.dev, iMap.v, bMap.v
    ensures r == if Unsaved(c, Subtree(FilesOf(g), c.shape, in_.nr) - {in_.nr}) then Aborted(CleanOnPut) else Done
    ensures r == Done ==> Steady(c, g) && OwnMaps(c, iMap, bMap) && c.W() == old(c.W())
    ensures r == Done ==> SameTable(c, old(c.table.view), old(Counts(c)))
    ensures r == Done ==> Visited(g, Subtree(FilesOf(g), c.shape, in_.nr) - {in_.nr},
                                  old(iMap.Bits())[in_.nr := true], old(bMap.Bits()), iMap.Bits(), bMap.Bits())
    ensures r == Done ==> Reported(old(c.W()).vol, g, Subtree(FilesOf(g), c.shape, in_.nr) - {in_.nr}, bad)
    decreases Subtree(FilesOf(g), c.shape, in_.nr), 3
  {
    hide SuperBlock.Vol, SuperBlock.Valid, SuperBlock.InodesUsed, InodeTable.Valid, DiskInode, Sound, Contents;
    hide Context.Struct, Context.CachedLive, Context.MapsSaved, Context.W, Context.CacheOk, FilesOf;
    hide BlocksConsistent, Context.Current;
    hide Parse, TreeOk, IsLog, Visited, Unvisited, Subtree, OwnOf, Entries, Unmarked, Marked, Steady, Counts, SameTable;
    hide Reported;
    SteadyIs(c, g);
    NothingCounted(c);
    PlainSubtree(FilesOf(g), c.shape, in_.nr);
    KnownInode(c, g, in_);
    iMap.Mark(in_.nr);
    if in_.din.typ == I_DIR {
      r, bad := CheckChildren(c, iMap, bMap, in_, g);
    } else {
      r, bad := Done, [];
      VisitedNothing(g, iMap.Bits(), bMap.Bits());
      ReportedNone(c.W().vol, g);
    }
  }

  lemma NothingCounted(c: Context)
    ensures SameTable(c, c.table.view, Counts(c))
  {
  }

  lemma PlainSubtree(files: Files, sh: Shape, nr: nat)
    requires TreeOk(files, sh) && nr in files
    ensures !IsDir(files, nr) ==> Subtree(files, sh, nr) - {nr} == {}
    ensures {nr} + (Subtree(files, sh, nr) - {nr}) == Subtree(files, sh, nr)
  {
    hide Parse, TreeOk, IsLog;
    WholeSubtree(files, sh, nr);
  }

  lemma LogRecords(files: Files, d: nat)
    requires d in files && IsLog(files[d].bytes)
    ensures WfLog(Entries(files, d))
  {
  }

  /** The check has left world `w` as it was, and the inodes in memory with their counts. */
  ghost predicate Checking(c: Context, iMap: Bits.Bitmap, bMap: Bits.Bitmap, g: World, w: World,
      view: map<nat, Inode>, counts: map<nat, nat>)
    reads c, c.table, c.table.view.Values, c.sb, c.sb.dev, c.sb.inodeFreemap.v, c.sb.blockFreemap.v, iMap.v, bMap.v
  {
    c.sb.Valid() && Steady(c, g) && OwnMaps(c, iMap, bMap) && c.W() == w && SameTable(c, view, counts)
  }

  /** Reads the next record of a directory that is being checked. */
  method NextToCheck(c: Context, iMap: Bits.Bitmap, bMap: Bits.Bitmap, dir: Inode, offset: nat, ghost g: World,
      ghost w: World, ghost view: map<nat, Inode>, ghost counts: map<nat, nat>, ghost ds: seq<Dirent>, ghost k: nat)
    returns (found: bool, e: Dirent, next: nat)
    requires Checking(c, iMap, bMap, g, w, view, counts)
    requires IsDir(FilesOf(g), dir.nr) && IsLog(FilesOf(g)[dir.nr].bytes) && dir.nr in view && view[dir.nr] == dir
    requires ds == Entries(FilesOf(g), dir.nr) && k <= |ds| && WfLog(ds) && offset == Offset(ds, k)
    modifies c.sb.dev
    ensures Checking(c, iMap, bMap, g, w, view, counts) && (found <==> k < |ds|)
    ensures found ==> e == ds[k] && next == Offset(ds, k + 1)
  {
    hide SuperBlock.Vol, SuperBlock.Valid, SuperBlock.InodesUsed, InodeTable.Valid, DiskInode, Sound, Contents;
    hide Context.Struct, Context.CachedLive, Context.MapsSaved, Context.W, Context.CacheOk, FilesOf, BlocksConsistent;
    hide Parse, TreeOk, IsLog, Log, Offset, Steady;
    KnownDir(c, g, dir);
    found, e, next := NextDirent(dir, offset, ds, k);
    OnlyReadSo(c, g);
    SteadyIs(c, g);
  }

  /** Checks what record `k` of directory `d` names, and adds it to what was visited and listed so far. */
  method CheckChild(c: Context, iMap: Bits.Bitmap, bMap: Bits.Bitmap, nr: nat, ghost g: World, ghost w: World,
      ghost view: map<nat, Inode>, ghost counts: map<nat, nat>, ghost d: nat, ghost k: nat, ghost i0: seq<bool>,
      ghost b0: seq<bool>, ghost bad: seq<int>)
    returns (r: Outcome, more: seq<int>)
    requires Checking(c, iMap, bMap, g, w, view, counts) && IsDir(FilesOf(g), d)
    requires IsChildAt(Entries(FilesOf(g), d), k) && Entries(FilesOf(g), d)[k].nr == nr
    requires Unvisited(g, Subtree(FilesOf(g), c.shape, d) - {d}, i0, b0)
    requires Visited(g, BelowFirst(FilesOf(g), c.shape, d, k), i0, b0, iMap.Bits(), bMap.Bits())
    requires Reported(w.vol, g, BelowFirst(FilesOf(g), c.shape, d, k), bad)
    modifies c.table, c.table.view.Values`count, c.sb.dev, iMap.v, bMap.v
    ensures r == if Unsaved(c, Subtree(FilesOf(g), c.shape, nr)) then Aborted(CleanOnPut) else Done
    ensures r == Done ==> Checking(c, iMap, bMap, g, w, view, counts)
    ensures r == Done ==> Visited(g, BelowFirst(FilesOf(g), c.shape, d, k + 1), i0, b0, iMap.Bits(), bMap.Bits())
    ensures r == Done ==> Reported(w.vol, g, BelowFirst(FilesOf(g), c.shape, d, k + 1), bad + more)
    ensures Subtree(FilesOf(g), c.shape, nr) <= Subtree(FilesOf(g), c.shape, d) - {d}
    ensures BelowFirst(FilesOf(g), c.shape, d, k + 1)
         == BelowFirst(FilesOf(g), c.shape, d, k) + Subtree(FilesOf(g), c.shape, nr)
    decreases Subtree(FilesOf(g), c.shape, d), 0
  {
    hide SuperBlock.Vol, SuperBlock.Valid, SuperBlock.InodesUsed, InodeTable.Valid, DiskInode, Sound, Contents;
    hide Context.Struct, Context.CachedLive, Context.MapsSaved, Context.W, Context.CacheOk, FilesOf, BlocksConsistent;
    hide Parse, TreeOk, IsLog, Visited, Unvisited, Subtree, BelowFirst, Log, Reported, Steady;
    SteadyIs(c, g);
    ghost var files, sh := FilesOf(g), c.shape;
    ghost var i1, b1 := iMap.Bits(), bMap.Bits();
    ChildStep(files, sh, g, d, k, i0, b0, i1, b1);
    r, more := Checkfs(c, iMap, bMap, nr, g);
    if r == Done {
      SteadyIs(c, g);
      VisitedBoth(g, BelowFirst(files, sh, d, k), Subtree(files, sh, nr), i0, b0, i1, b1, iMap.Bits(), bMap.Bits());
      ReportedBoth(w.vol, g, BelowFirst(files, sh, d, k), Subtree(files, sh, nr), bad, more);
    }
  }

  lemma CheckingIs(c: Context, iMap: Bits.Bitmap, bMap: Bits.Bitmap, g: World, w: World, view: map<nat, Inode>,
      counts: map<nat, nat>)
    requires Checking(c, iMap, bMap, g, w, view, counts)
    ensures iMap.Valid() && bMap.Valid() && iMap.nbits == NR_INODE_BITS && bMap.nbits == NR_BLOCK_BITS
    ensures BlocksConsistent(g) && TreeOk(FilesOf(g), c.shape) && c.table.view == view
  {
    hide SuperBlock.Valid, Context.Struct, Context.W, BlocksConsistent, FilesOf, TreeOk;
  }

  /** The loop over the records of a directory that is being checked. */
  method CheckChildren(c: Context, iMap: Bits.Bitmap, bMap: Bits.Bitmap, dir: Inode, ghost g: World)
    returns (r: Outcome, bad: seq<int>)
    requires Steady(c, g) && OwnMaps(c, iMap, bMap) && IsDir(FilesOf(g), dir.nr)
    requires dir.nr in c.table.view && c.table.view[dir.nr] == dir
    requires Unvisited(g, Subtree(FilesOf(g), c.shape, dir.nr) - {dir.nr}, iMap.Bits(), bMap.Bits())
    modifies c.table, c.table.view.Values`count, c.sb.dev, iMap.v, bMap.v
    ensures r == if Unsaved(c, Subtree(FilesOf(g), c.shape, dir.nr) - {dir.nr}) then Aborted(CleanOnPut) else Done
    ensures r == Done ==> Steady(c, g) && OwnMaps(c, iMap, bMap) && c.W() == old(c.W())
    ensures r == Done ==> SameTable(c, old(c.table.view), old(Counts(c)))
    ensures r == Done ==> Visited(g, Subtree(FilesOf(g), c.shape, dir.nr) - {dir.nr},
                                  old(iMap.Bits()), old(bMap.Bits()), iMap.Bits(), bMap.Bits())
    ensures r == Done ==> Reported(old(c.W()).vol, g, Subtree(FilesOf(g), c.shape, dir.nr) - {dir.nr}, bad)
    decreases Subtree(FilesOf(g), c.shape, dir.nr), 2
  {
    hide SuperBlock.Vol, SuperBlock.Valid, SuperBlock.InodesUsed, InodeTable.Valid, DiskInode, Sound, Contents;
    hide Context.Struct, Context.CachedLive, Context.MapsSaved, Context.W, Context.CacheOk, FilesOf, BlocksConsistent;
    hide Parse, TreeOk, IsLog, Reported, Steady, Visited, Unvisited, SameTable, Counts, Subtree, Entries;
    SteadyIs(c, g);
    NothingCounted(c);
    r, bad := CheckRecords(c, iMap, bMap, dir, g, c.W(), c.table.view, Counts(c));
  }

  method CheckRecords(c: Context, iMap: Bits.Bitmap, bMap: Bits.Bitmap, dir: Inode, ghost g: World, ghost w: World,
      ghost view: map<nat, Inode>, ghost counts: map<nat, nat>)
    returns (r: Outcome, bad: seq<int>)
    requires Checking(c, iMap, bMap, g, w, view, counts) && IsDir(FilesOf(g), dir.nr)
    requires dir.nr in view && view[dir.nr] == dir && view == c.table.view
    requires Unvisited(g, Subtree(FilesOf(g), c.shape, dir.nr) - {dir.nr}, iMap.Bits(), bMap.Bits())
    modifies c.table, c.table.view.Values`count, c.sb.dev, iMap.v, bMap.v
    ensures r == if Unsaved(c, Subtree(FilesOf(g), c.shape, dir.nr) - {dir.nr}) then Aborted(CleanOnPut) else Done
    ensures r == Done ==> Checking(c, iMap, bMap, g, w, view, counts)
    ensures r == Done ==> Visited(g, Subtree(FilesOf(g), c.shape, dir.nr) - {dir.nr},
                                  old(iMap.Bits()), old(bMap.Bits()), iMap.Bits(), bMap.Bits())
    ensures r == Done ==> Reported(w.vol, g, Subtree(FilesOf(g), c.shape, dir.nr) - {dir.nr}, bad)
    decreases Subtree(FilesOf(g), c.shape, dir.nr), 1
  {
    hide SuperBlock.Vol, SuperBlock.Valid, SuperBlock.InodesUsed, InodeTable.Valid, DiskInode, Sound, Contents;
    hide Context.Struct, Context.CachedLive, Context.MapsSaved, Context.W, Context.CacheOk, FilesOf, BlocksConsistent;
    hide Parse, TreeOk, IsLog, Visited, Unvisited, Subtree, BelowFirst, Log, Offset;
    hide Reported, Steady, Checking, Bits.Bitmap.Valid, Bits.Bitmap.Bits;
    CheckingIs(c, iMap, bMap, g, w, view, counts);
    ghost var files, sh, ds := FilesOf(g), c.shape, Entries(FilesOf(g), dir.nr);
    ghost var i0, b0 := iMap.Bits(), bMap.Bits();
    OthersAreChildren(files, sh, dir.nr);
    LogRecords(files, dir.nr);
    OffsetOfEnd(ds);
    BelowAll(files, sh, dir.nr);
    r, bad := Done, [];
    var offset := 0;
    ghost var k := 0;
    VisitedNothing(g, i0, b0);
    ReportedNone(w.vol, g);
    while true
      invariant Checking(c, iMap, bMap, g, w, view, counts) && c.table.view == view && iMap.Valid() && bMap.Valid()
      invariant 0 <= k <= |ds| && offset == Offset(ds, k) && r == Done
      invariant Reported(w.vol, g, BelowFirst(files, sh, dir.nr, k), bad)
      invariant Visited(g, BelowFirst(files, sh, dir.nr, k), i0, b0, iMap.Bits(), bMap.Bits())
      invariant !Unsaved(c, BelowFirst(files, sh, dir.nr, k))
      modifies c.table, c.table.view.Values`count, c.sb.dev, iMap.v, bMap.v
      decreases |ds| - k
    {
      var found, e, next := NextToCheck(c, iMap, bMap, dir, offset, g, w, view, counts, ds, k);
      if !found {
        return;
      }
      offset := next;
      if !NamesOther(e) {
        NoChildHere(files, sh, dir.nr, k);
      } else {
        var more;
        r, more := CheckChild(c, iMap, bMap, e.nr, g, w, view, counts, dir.nr, k, i0, b0, bad);
        if r != Done {
          return;
        }
        CheckingIs(c, iMap, bMap, g, w, view, counts);
        bad := bad + more;
      }
      k := k + 1;
    }
  }

  /** Visiting everything below the root rebuilds exactly the two freemaps. */
  lemma RebuiltMaps(w: World, sh: Shape, i1: seq<bool>, b1: seq<bool>)
    requires BlocksConsistent(w) && TreeOk(FilesOf(w), sh)
    requires Visited(w, Subtree(FilesOf(w), sh, 0), seq(NR_INODE_BITS, _ => false), seq(NR_BLOCK_BITS, _ => false),
      i1, b1)
    ensures i1 == w.live && b1 == w.vol.used
  {
    hide TreeOk, Own, CsumOk, WfMap;
    var files := FilesOf(w);
    forall x | x in files ensures x in Subtree(files, sh, 0) {
      RootAboveAll(files, sh, x);
    }
    assert forall i: nat :: i < NR_INODE_BITS ==> (i in files <==> w.live[i]);
    forall i: nat | i < NR_BLOCK_BITS ensures b1[i] == w.vol.used[i] {
      if w.vol.used[i] {
        assert IsUsed(w.vol, DATA_START + i) && Owned(w, DATA_START + i);
        var x: nat :| IsLive(w, x) && DATA_START + i in OwnOf(w, x);
        assert x in Subtree(files, sh, 0);
      }
      if x: nat :| x in Subtree(files, sh, 0) && x < NR_INODES && DATA_START + i in OwnOf(w, x) {
        assert IsLive(w, x) && LiveSound(w, x);
        assert IsUsed(w.vol, DATA_START + i);
      }
    }
  }

  /** Everything is unmarked in two empty maps. */
  lemma NothingMarked(w: World, s: set<nat>)
    requires forall x :: x in s ==> x < NR_INODES
    ensures Unvisited(w, s, seq(NR_INODE_BITS, _ => false), seq(NR_BLOCK_BITS, _ => false))
  {
  }

  /** Walks the tree from the root and gives the two maps that it rebuilt. */
  method Rebuild(c: Context, ghost g: World) returns (r: Outcome, bad: seq<int>, iMap: Bits.Bitmap, bMap: Bits.Bitmap)
    requires Steady(c, g) && 0 in FilesOf(g) && c.curDir.nr in Subtree(FilesOf(g), c.shape, 0)
    modifies c.table, c.table.view.Values`count, c.sb.dev
    ensures r == if c.curDir.dirty then Aborted(CleanOnPut) else Done
    ensures fresh(iMap.v) && fresh(bMap.v)
    ensures r == Done ==> Steady(c, g) && OwnMaps(c, iMap, bMap) && c.W() == old(c.W())
    ensures r == Done ==> SameTable(c, old(c.table.view), old(Counts(c)))
    ensures r == Done ==> iMap.Bits() == c.W().live && bMap.Bits() == c.W().vol.used
    ensures r == Done ==> Reported(old(c.W()).vol, g, FilesOf(g).Keys, bad)
  {
    hide SuperBlock.Vol, SuperBlock.Valid, SuperBlock.InodesUsed, InodeTable.Valid, DiskInode, Sound, Contents;
    hide Context.Struct, Context.CachedLive, Context.MapsSaved, Context.W, Context.CacheOk, FilesOf, BlocksConsistent;
    hide TreeOk, Visited, Unvisited, Subtree, Context.Current, SameTable, Counts, Reported, Steady;
    SteadyIs(c, g);
    iMap := new Bits.Bitmap(NR_INODE_BITS);
    bMap := new Bits.Bitmap(NR_BLOCK_BITS);
    RootHasAll(g, c.shape);
    NothingMarked(g, Subtree(FilesOf(g), c.shape, 0));
    r, bad := Checkfs(c, iMap, bMap, 0, g);
    if r == Done {
      RebuiltMaps(g, c.shape, iMap.Bits(), bMap.Bits());
    }
  }

  /**
   * Between two commands, but that checksums may be damaged: all else is in order, and only the current directory is in
   * use.
   */
  ghost predicate AtRest(c: Context, g: World)
    reads c, c.table, c.table.view.Values, c.sb, c.sb.dev, c.sb.inodeFreemap.v, c.sb.blockFreemap.v
  {
    && Steady(c, g) && IsDir(FilesOf(g), c.curDir.nr) && c.table.view == map[c.curDir.nr := c.curDir]
    && c.curDir.count == 1
  }

  /**
   * The whole check, of any file system that is in order but, perhaps, for checksums. It lists exactly the blocks of
   * files whose checksum is not the one in the table, and rebuilds both freemaps as they are, unless the current
   * directory has unsaved changes; then it violates an assertion.
   */
  method CmdCheckfs(c: Context, ghost g: World)
    returns (r: Outcome, bad: seq<int>, inodesOk: bool, blocksOk: bool, nrInodes: nat, nrBlocks: nat)
    requires AtRest(c, g)
    modifies c.curDir`count, c.table, c.sb.dev
    ensures r == if c.curDir.dirty then Aborted(CleanOnPut) else Done
    ensures r == Done ==> AtRest(c, g) && c.W() == old(c.W())
    ensures r == Done ==> Reported(c.W().vol, g, FilesOf(g).Keys, bad) && inodesOk && blocksOk
    ensures r == Done ==> nrInodes == Bits.Ones(c.W().live) && nrBlocks == Bits.Ones(c.W().vol.used)
  {
    hide SuperBlock.Vol, SuperBlock.InodesUsed, InodeTable.Valid, DiskInode, Sound, Contents;
    hide Context.Struct, Context.CachedLive, Context.MapsSaved, Context.W, Context.CacheOk, FilesOf, BlocksConsistent;
    hide TreeOk, Subtree, Bits.Ones, Context.Current, SuperBlock.Valid, Steady, Reported, AtRest;
    inodesOk, blocksOk, nrInodes, nrBlocks := false, false, 0, 0;
    RestIs(c, g);
    var iMap, bMap;
    r, bad, iMap, bMap := Rebuild(c, g);
    if r == Done {
      RestAgain(c, g);
      inodesOk, blocksOk, nrInodes, nrBlocks := Compare(c, iMap, bMap);
    }
  }

  lemma RestIs(c: Context, g: World)
    requires AtRest(c, g)
    ensures c.sb.Valid() && Steady(c, g) && BlocksConsistent(g) && IsDir(FilesOf(g), c.curDir.nr)
    ensures c.table.view == map[c.curDir.nr := c.curDir] && c.curDir.count == 1
    ensures 0 in FilesOf(g) && c.curDir.nr in Subtree(FilesOf(g), c.shape, 0)
  {
    hide TreeOk, BlocksConsistent, SuperBlock.Valid, Context.Struct, Context.W, FilesOf, Subtree;
    RootHasAll(g, c.shape);
  }

  lemma RestAgain(c: Context, g: World)
    requires Steady(c, g) && IsDir(FilesOf(g), c.curDir.nr) && c.table.view == map[c.curDir.nr := c.curDir]
    requires c.curDir.count == 1
    ensures AtRest(c, g) && c.sb.Valid()
  {
    hide TreeOk, BlocksConsistent, SuperBlock.Valid, Context.Struct, Context.W, FilesOf;
  }

  /** Between two commands nothing is damaged. */
  lemma BetweenCommands(c: Context)
    requires c.sb.Valid()
    ensures c.Valid() <==> AtRest(c, c.W())
    ensures c.Valid() ==> BlocksConsistent(c.W())
  {
    hide TreeOk, BlocksConsistent, SuperBlock.Valid, Context.Struct, Context.W, FilesOf;
  }

  /** Then nothing is listed. */
  lemma NothingWrong(w: World, bad: seq<int>)
    requires BlocksConsistent(w) && Reported(w.vol, w, FilesOf(w).Keys, bad)
    ensures bad == []
  {
    hide BlocksConsistent, FilesOf, Reported;
    FirstListed(bad);
    if bad != [] {
      NotListed(w, bad, bad[0]);
    }
  }

  lemma NotListed(w: World, bad: seq<int>, p: int)
    requires BlocksConsistent(w) && Reported(w.vol, w, FilesOf(w).Keys, bad)
    ensures p !in bad
  {
    hide Lookup, Own;
    forall x: nat, l: nat | x in FilesOf(w) && x < NR_INODES && l < BlocksFor(w.inodes[x].size)
      ensures CsumAt(w.vol, w.inodes[x], l)
    {
      SizeKnown(w, x);
    }
    assert p in bad <==> WrongBlock(w.vol, w, FilesOf(w).Keys, p);
  }

  lemma FirstListed(s: seq<int>)
    ensures s == [] || s[0] in s
  {
  }

  /** Compares the rebuilt maps with the freemaps and counts what is allocated. */
  method Compare(c: Context, iMap: Bits.Bitmap, bMap: Bits.Bitmap)
    returns (inodesOk: bool, blocksOk: bool, nrInodes: nat, nrBlocks: nat)
    requires c.sb.Valid() && OwnMaps(c, iMap, bMap)
    ensures inodesOk <==> iMap.Bits() == c.W().live
    ensures blocksOk <==> bMap.Bits() == c.W().vol.used
    ensures nrInodes == Bits.Ones(c.W().live) && nrBlocks == Bits.Ones(c.W().vol.used)
  {
    hide SuperBlock.Valid, Context.W, Bits.Ones;
    c.FreemapsAre();
    inodesOk := c.sb.inodeFreemap.Equal(iMap);
    blocksOk := c.sb.blockFreemap.Equal(bMap);
    nrInodes := c.sb.inodeFreemap.NrAllocated();
    nrBlocks := c.sb.blockFreemap.NrAllocated();
  }

  lemma RootHasAll(w: World, sh: Shape)
    requires BlocksConsistent(w) && TreeOk(FilesOf(w), sh)
    ensures 0 in FilesOf(w) && Subtree(FilesOf(w), sh, 0) == FilesOf(w).Keys
    ensures forall x :: x in Subtree(FilesOf(w), sh, 0) ==> x < NR_INODES
  {
    forall x | x in FilesOf(w) ensures x in Subtree(FilesOf(w), sh, 0) {
      RootAboveAll(FilesOf(w), sh, x);
    }
  }
}
