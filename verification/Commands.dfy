/** The shell's commands. */
module Commands {
  import opened Bytes
  import opened Layout
  import opened Volume
  import Bits = Bitmap
  import opened Super
  import opened Steps
  import opened Inodes
  import opened World
  import opened Table
  import opened Dirents
  import opened Tree
  import opened DirOps
  import opened FileOps
  import opened Contexts

  const SLASH: seq<byte> := [47, 0]

  /** What `cd` looks for: the root, or a name in the current directory. */
  ghost function CdTarget(files: Files, cur: nat, name: seq<byte>): int
    requires cur in files
  {
    if name == SLASH then 0 else NrOf(Entries(files, cur), name)
  }

  /** How `cd` ends. A current directory with unsaved changes cannot be left. */
  ghost function CdOutcome(files: Files, cur: nat, dirty: bool, name: seq<byte>): Outcome
    requires cur in files
  {
    var nr := CdTarget(files, cur, name);
    if nr < 0 then Failed(ENOENT)
    else if !IsDir(files, nr) then Failed(ENOTDIR)
    else if dirty then Aborted(CleanOnPut)
    else Done
  }

  lemma CdTargetLive(files: Files, sh: Shape, cur: nat, name: seq<byte>)
    requires TreeOk(files, sh) && IsDir(files, cur)
    ensures IsLog(files[cur].bytes) && (CdTarget(files, cur, name) >= 0 ==> CdTarget(files, cur, name) in files)
    ensures IsDir(files, 0)
  {
    hide NrOf, IsLog;
    assert NodeOk(files, sh, 0);
    NamesLive(files, sh, cur, name);
  }

  /** Looks a name up in the current directory. */
  method FindHere(c: Context, name: seq<byte>) returns (nr: int)
    requires c.Valid()
    modifies c.sb.dev
    ensures c.Valid() && c.W() == old(c.W())
    ensures nr == NrOf(Entries(c.Files(), c.curDir.nr), name) && (nr >= 0 ==> nr in c.Files())
  {
    hide SuperBlock.Vol, SuperBlock.Valid, SuperBlock.InodesUsed, InodeTable.Valid, DiskInode, Sound, Contents;
    hide Context.Struct, Context.CachedLive, Context.MapsSaved, Context.W, TreeOk, FilesOf, BlocksConsistent, NrOf;
    hide Parse, IsLog;
    ghost var files := c.Files();
    NamesLive(files, c.shape, c.curDir.nr, name);
    c.CachedDir(c.curDir);
    nr := DirNameToInodeNr(c.curDir, name, Entries(files, c.curDir.nr));
    c.OnlyRead();
  }

  method CmdCd(c: Context, name: seq<byte>) returns (r: Outcome)
    requires c.Valid()
    modifies c`curDir, c.curDir`count, c.table, c.sb.dev
    ensures r == CdOutcome(old(c.Files()), old(c.curDir.nr), old(c.curDir.dirty), name)
    ensures !r.Aborted? ==> c.Valid() && c.W() == old(c.W())
    ensures r == Done ==> c.curDir.nr == CdTarget(old(c.Files()), old(c.curDir.nr), name) && !c.curDir.dirty
    ensures name == [47, 0] && !old(c.curDir.dirty) ==> r == Done && c.curDir.nr == 0
    ensures c.curDir == old(c.curDir) || fresh(c.curDir)
    ensures r.Failed? ==> c.curDir == old(c.curDir) && c.curDir.dirty == old(c.curDir.dirty)
  {
    hide SuperBlock.Vol, SuperBlock.Valid, SuperBlock.InodesUsed, InodeTable.Valid, DiskInode, Sound, Contents;
    hide Context.Struct, Context.CachedLive, Context.MapsSaved, Context.W, Context.CacheOk, TreeOk, FilesOf;
    hide BlocksConsistent;
    hide NrOf, Parse, IsLog, Entries;
    ghost var files := c.Files();
    CdTargetLive(files, c.shape, c.curDir.nr, name);
    var nr := 0;
    if name != SLASH {
      nr := FindHere(c, name);
      if nr < 0 {
        return Failed(-nr);
      }
    }
    r := Enter(c, nr);
  }

  /** The second half of `cd`: the inode is there. */
  method Enter(c: Context, nr: nat) returns (r: Outcome)
    requires c.Valid() && nr in c.Files()
    modifies c`curDir, c.curDir`count, c.table, c.sb.dev
    ensures r == if !IsDir(old(c.Files()), nr) then Failed(ENOTDIR)
      else if old(c.curDir.dirty) then Aborted(CleanOnPut) else Done
    ensures !r.Aborted? ==> c.Valid() && c.W() == old(c.W())
    ensures r == Done ==> c.curDir.nr == nr && !c.curDir.dirty
    ensures c.curDir == old(c.curDir) || fresh(c.curDir)
    ensures r.Failed? ==> c.curDir == old(c.curDir) && c.curDir.dirty == old(c.curDir.dirty)
  {
    hide SuperBlock.Vol, SuperBlock.Valid, SuperBlock.InodesUsed, InodeTable.Valid, DiskInode, Sound, Contents;
    hide Context.Struct, Context.CachedLive, Context.MapsSaved, Context.W, Context.CacheOk, TreeOk, FilesOf;
    hide BlocksConsistent;
    var dir;
    r, dir := OpenDir(c, nr);
    if r == Done {
      r := Leave(c, dir);
    }
  }

  /** A directory to enter is in use, next to the current one or as that once more. */
  ghost predicate Entering(c: Context, dir: Inode)
    reads c, c.table, c.table.view.Values, c.sb, c.sb.dev, c.sb.inodeFreemap.v, c.sb.blockFreemap.v
  {
    && c.curDir.nr in c.table.view && dir.nr in c.table.view && c.table.view[dir.nr] == dir
    && c.table.view == map[c.curDir.nr := c.table.view[c.curDir.nr], dir.nr := c.table.view[dir.nr]]
    && c.table.view[c.curDir.nr] == c.curDir
    && c.table.view[c.curDir.nr].count == (if dir.nr == c.curDir.nr then 2 else 1)
    && (dir.nr != c.curDir.nr ==> c.table.view[dir.nr].count == 1 && !c.table.view[dir.nr].dirty)
    && c.Consistent() && c.InTree() && IsDir(c.Files(), dir.nr)
  }

  /** Gets the inode of a directory; that of a file is put back. */
  method OpenDir(c: Context, nr: nat) returns (r: Outcome, dir: Inode)
    requires c.Valid() && nr in c.Files()
    modifies c.curDir`count, c.table, c.sb.dev
    ensures c.sb.Valid() && r == if IsDir(old(c.Files()), nr) then Done else Failed(ENOTDIR)
    ensures r == Done ==> Entering(c, dir) && dir.nr == nr && (dir == c.curDir || fresh(dir)) && c.W() == old(c.W())
    ensures r.Failed? ==> c.Valid() && c.W() == old(c.W())
  {
    hide SuperBlock.Vol, SuperBlock.Valid, SuperBlock.InodesUsed, InodeTable.Valid, DiskInode, Sound, Contents;
    hide Context.Struct, Context.CachedLive, Context.MapsSaved, Context.W, Context.CacheOk, TreeOk, FilesOf;
    hide BlocksConsistent, Context.Current;
    c.LiveFile(nr);
    dir := c.GetInode(nr);
    c.CachedSound(dir);
    r := Done;
    if dir.din.typ != I_DIR {
      var clean := c.PutInode(dir);
      assert c.table.view == old(c.table.view);
      r := Failed(ENOTDIR);
    }
  }

  /** Puts the current directory back and makes another one current. */
  method Leave(c: Context, dir: Inode) returns (r: Outcome)
    requires Entering(c, dir)
    modifies c`curDir, c.curDir`count, c.table, c.sb.dev
    ensures r == if old(c.curDir.dirty) then Aborted(CleanOnPut) else Done
    ensures r == Done ==> c.Valid() && c.W() == old(c.W()) && c.curDir == dir && !dir.dirty
    ensures r != Done ==> c.curDir == old(c.curDir)
  {
    hide SuperBlock.Vol, SuperBlock.Valid, SuperBlock.InodesUsed, InodeTable.Valid, DiskInode, Sound, Contents;
    hide Context.Struct, Context.CachedLive, Context.MapsSaved, Context.W, Context.CacheOk, TreeOk, FilesOf;
    hide BlocksConsistent, Context.Current;
    var clean := c.PutInode(c.curDir);
    if !clean {
      return Aborted(CleanOnPut);
    }
    assert c.table.view == map[dir.nr := dir];
    c.curDir := dir;
    r := Done;
  }

  /** A directory without children holds nothing but its two leading records. */
  lemma OthersAreChildren(files: Files, sh: Shape, d: nat)
    requires TreeOk(files, sh) && IsDir(files, d)
    ensures IsLog(files[d].bytes)
    ensures forall k :: 0 <= k < |Entries(files, d)| ==>
      (NamesOther(Entries(files, d)[k]) <==> IsChildAt(Entries(files, d), k))
  {
    hide IsLog, Parse, LogOk;
    assert NodeOk(files, sh, d);
    forall k | 0 <= k < |Entries(files, d)| && Live(Entries(files, d)[k])
      ensures NamesOther(Entries(files, d)[k]) <==> IsChildAt(Entries(files, d), k)
    {
      ChildNames(files, sh, d, k);
    }
  }

  ghost predicate Empty(files: Files, d: nat)
    requires d in files
  {
    IsDir(files, d) ==> forall k :: !IsChildAt(Entries(files, d), k)
  }

  /** Some live record has a name other than the two that every directory holds. */
  ghost predicate HoldsMore(ds: seq<Dirent>) {
    exists k :: 0 <= k < |ds| && ds[k].nr >= 0 && ds[k].name != [46, 0] && ds[k].name != [46, 46, 0]
  }

  /** Whether an inode may lose its record: directories must be empty. */
  method RemoveDirentAllowed(c: Context, nr: nat) returns (r: Outcome)
    requires c.Valid() && nr in c.Files() && nr != c.curDir.nr
    modifies c.curDir`count, c.table, c.sb.dev
    ensures c.Valid() && c.W() == old(c.W())
    ensures r == if Empty(c.Files(), nr) then Done else Failed(ENOTEMPTY)
    ensures r == Failed(ENOTEMPTY) <==> IsDir(c.Files(), nr) && HoldsMore(Entries(c.Files(), nr))
  {
    hide SuperBlock.Vol, SuperBlock.Valid, SuperBlock.InodesUsed, InodeTable.Valid, DiskInode, Sound, Contents;
    hide Context.Struct, Context.CachedLive, Context.MapsSaved, Context.W, Context.CacheOk, TreeOk, FilesOf;
    hide BlocksConsistent;
    hide Parse, IsLog;
    ghost var files := c.Files();
    c.LiveFile(nr);
    var dir := c.GetInode(nr);
    c.CachedSound(dir);
    r := Done;
    if dir.din.typ == I_DIR {
      OthersAreChildren(files, c.shape, nr);
      c.CachedDir(dir);
      label Loaded:
      var any := AnyOther(dir, Entries(files, nr));
      c.OnlyRead@Loaded();
      if any {
        r := Failed(ENOTEMPTY);
      }
    }
    var clean := c.PutInode(dir);
    assert c.table.view == old(c.table.view);
  }

  /** How removing a name from directory `cur` ends, apart from giving back the inode. */
  ghost function RmOutcome(files: Files, cur: nat, name: seq<byte>): Outcome
    requires cur in files
  {
    var nr := NrOf(Entries(files, cur), name);
    if name == DOT || name == DOTDOT then Failed(EINVAL)
    else if nr < 0 || nr !in files then Failed(ENOENT)
    else if !Empty(files, nr) then Failed(ENOTEMPTY)
    else Done
  }

  /** The record of `name` in `cur` became a tombstone. */
  ghost function Unnamed(files: Files, cur: nat, name: seq<byte>): Files
    requires IsDir(files, cur) && IsLog(files[cur].bytes) && NrOf(Entries(files, cur), name) >= 0
  {
    var ds := Entries(files, cur);
    var k := FindFrom(ds, name, 0);
    files[cur := Node(I_DIR, Log(ds[k := Dirent(ds[k].name, -1)]))]
  }

  lemma RemovedName(files: Files, sh: Shape, cur: nat, name: seq<byte>)
    requires TreeOk(files, sh) && IsDir(files, cur) && name != DOT && name != DOTDOT
    requires NrOf(Entries(files, cur), name) >= 0
    ensures IsLog(files[cur].bytes) && DirOk(files, sh, cur)
    ensures var k := FindFrom(Entries(files, cur), name, 0);
            && IsChildAt(Entries(files, cur), k) && Entries(files, cur)[k].nr == NrOf(Entries(files, cur), name) != cur
            && Unnamed(files, cur, name) - {NrOf(Entries(files, cur), name)} == Removed(files, cur, k)
  {
    hide IsLog, Parse, LogOk;
    assert NodeOk(files, sh, cur);
    var k := FindFrom(Entries(files, cur), name, 0);
    ChildNames(files, sh, cur, k);
    ChildBelow(files, sh, cur, k);
  }

  /** Removes a name from the current directory and answers its inode number. */
  method RemoveDirent(c: Context, name: seq<byte>) returns (r: Outcome, nr: int)
    requires c.Valid()
    modifies c.curDir, c.table, c.sb`csumTable, c.sb.dev, c.sb.blockFreemap.v
    ensures r == RmOutcome(old(c.Files()), c.curDir.nr, name)
    ensures r != Done ==> c.Valid() && c.W() == old(c.W()) && c.curDir.dirty == old(c.curDir.dirty)
    ensures r == Done ==>
      nr == NrOf(Entries(old(c.Files()), c.curDir.nr), name) && IsLog(old(c.Files())[c.curDir.nr].bytes)
    ensures r == Done ==> c.Consistent() && c.Files() == Unnamed(old(c.Files()), c.curDir.nr, name)
    ensures r == Done ==> c.table.view == old(c.table.view) && c.curDir.count == 1 && c.curDir.dirty
    ensures r == Done && nr < NR_INODES ==> c.W().inodes[nr] == old(c.W()).inodes[nr]
    ensures r == Done ==> Cleared(old(c.W()).vol, c.W().vol)
  {
    hide SuperBlock.Vol, SuperBlock.Valid, SuperBlock.InodesUsed, InodeTable.Valid, DiskInode, Sound, Contents;
    hide Context.Struct, Context.CachedLive, Context.MapsSaved, Context.W, Context.CacheOk, TreeOk, FilesOf;
    hide BlocksConsistent;
    hide Parse, IsLog, Log, Changed, Cleared, Readable;
    if name == DOT || name == DOTDOT {
      return Failed(EINVAL), -EINVAL;
    }
    ghost var files, ds := c.Files(), Entries(c.Files(), c.curDir.nr);
    NamesLive(files, c.shape, c.curDir.nr, name);
    c.CachedDir(c.curDir);
    var found, e, at := FindRecord(c.curDir, name, ds);
    c.OnlyRead();
    if !found {
      return Failed(ENOENT), -ENOENT;
    }
    RemovedName(files, c.shape, c.curDir.nr, name);
    r := RemoveDirentAllowed(c, e.nr);
    if r != Done {
      nr := -ENOTEMPTY;
      return;
    }
    nr := e.nr;
    label Allowed:
    c.CachedDir(c.curDir);
    c.MayChange(c.curDir);
    r := WriteDirent(c.curDir, e.name, -1, at, ds, FindFrom(ds, name, 0));
    c.DataChanged@Allowed(c.curDir, Log(ds[FindFrom(ds, name, 0) := Dirent(e.name, -1)]));
  }

  /** A failed write left this inode an indirect block that it does not need. */
  predicate DanglingAt(w: World, i: int) {
    0 <= i < NR_INODES && Dangling(w.inodes[i])
  }

  /** How `rm` ends. */
  ghost function RmCmdOutcome(w: World, cur: nat, name: seq<byte>): Outcome
    requires BlocksConsistent(w) && cur in FilesOf(w)
  {
    var o := RmOutcome(FilesOf(w), cur, name);
    if o == Done && DanglingAt(w, NrOf(Entries(FilesOf(w), cur), name)) then Aborted(NoIndirect) else o
  }

  method CmdRm(c: Context, name: seq<byte>) returns (r: Outcome)
    requires c.Valid()
    modifies c.curDir, c.table, c.sb`csumTable, c.sb.dev, c.sb.inodeFreemap.v, c.sb.blockFreemap.v
    ensures r == RmCmdOutcome(old(c.W()), c.curDir.nr, name)
    ensures !r.Aborted? ==> c.Valid()
    ensures r.Failed? ==> c.W() == old(c.W()) && c.curDir.dirty == old(c.curDir.dirty)
    ensures r == Done ==> IsLog(old(c.Files())[c.curDir.nr].bytes) && !c.curDir.dirty
    ensures r == Done ==>
      var nr := NrOf(Entries(old(c.Files()), c.curDir.nr), name);
      nr >= 0 && c.Files() == Unnamed(old(c.Files()), c.curDir.nr, name) - {nr}
    ensures r == Done ==> Cleared(old(c.W()).vol, c.W().vol)
  {
    hide SuperBlock.Vol, SuperBlock.Valid, SuperBlock.InodesUsed, InodeTable.Valid, DiskInode, Sound, Contents;
    hide Context.Struct, Context.CachedLive, Context.MapsSaved, Context.W, Context.CacheOk, TreeOk, FilesOf;
    hide BlocksConsistent;
    hide Parse, IsLog, Log, NrOf, Empty, Cleared;
    ghost var files, cur, v0 := c.Files(), c.curDir.nr, c.W().vol;
    var nr;
    r, nr := RemoveDirent(c, name);
    if r != Done {
      return;
    }
    ghost var v1 := c.W().vol;
    RmKeepsTree(files, c.shape, cur, name);
    c.LiveFile(nr);
    var in_ := c.GetInode(nr);
    r := c.RemoveInode(in_);
    if r != Done {
      return;
    }
    assert c.table.view == old(c.table.view);
    ghost var v2 := c.W().vol;
    var saved := c.SyncInode(c.curDir);
    ClearedTrans(v0, v1, v2);
    ClearedTrans(v0, v2, c.W().vol);
  }

  lemma RmKeepsTree(files: Files, sh: Shape, cur: nat, name: seq<byte>)
    requires TreeOk(files, sh) && IsDir(files, cur) && RmOutcome(files, cur, name) == Done
    ensures IsLog(files[cur].bytes) && NrOf(Entries(files, cur), name) >= 0
    ensures var nr := NrOf(Entries(files, cur), name);
            && nr in Unnamed(files, cur, name) && nr != cur
            && TreeOk(Unnamed(files, cur, name) - {nr}, sh) && IsDir(Unnamed(files, cur, name) - {nr}, cur)
  {
    hide IsLog, Parse, DirOk, NodeOk, Log, NrOf;
    NamesLive(files, sh, cur, name);
    RemovedName(files, sh, cur, name);
    RemoveOk(files, sh, cur, FindFrom(Entries(files, cur), name, 0));
  }

  // Creating files and directories

  /** How adding a new name to directory `dir` ends. */
  ghost function RecordOutcome(w: World, dir: nat, name: seq<byte>): Outcome
    requires dir < NR_INODES && BlocksConsistent(w) && dir in FilesOf(w)
  {
    var bytes := FilesOf(w)[dir].bytes;
    AddOutcome(Parse(bytes), name, |bytes|, w.inodes[dir].indirect != 0, RoomOf(w.vol))
  }

  /** Directory `dir` got a record. */
  ghost function WithRecord(files: Files, dir: nat, name: seq<byte>, nr: int32): Files
    requires dir in files && IsLog(files[dir].bytes) && IsName(name)
  {
    AddedWf(Entries(files, dir), name, nr);
    files[dir := Node(I_DIR, Log(Added(Entries(files, dir), name, nr)))]
  }

  /** Adding a record to directory `dir` ended without a violated assertion. */
  ghost predicate RecordAdded(w: World, dir: nat, name: seq<byte>, nr: int32, r: Outcome, w': World) {
    && BlocksConsistent(w) && BlocksConsistent(w') && dir < NR_INODES && dir in FilesOf(w)
    && w'.live == w.live && (forall i: nat :: i < NR_INODES && i != dir ==> w'.inodes[i] == w.inodes[i])
    && w'.inodes[dir].typ == w.inodes[dir].typ
    && IsLog(FilesOf(w)[dir].bytes) && IsName(name)
    && (r == Done ==> FilesOf(w') == WithRecord(FilesOf(w), dir, name, nr))
    && (r == Done ==> TookBlocks(w.vol, w.inodes[dir], w'.vol, w'.inodes[dir]))
    && (r.Failed? ==> FilesOf(w') == FilesOf(w))
    && Cleared(w.vol, w'.vol)
  }

  /** Adds a record to a cached directory that does not have the name. */
  method AddRecord(c: Context, dir: Inode, name: seq<byte>, nr: int32) returns (r: Outcome)
    requires c.Consistent() && dir.nr in c.table.view && c.table.view[dir.nr] == dir
    requires IsDir(c.Files(), dir.nr) && IsLog(c.Files()[dir.nr].bytes) && IsName(name) && nr >= 0
    requires NrOf(Entries(c.Files(), dir.nr), name) < 0
    modifies dir`din, dir`dirty, c.sb`csumTable, c.sb.dev, c.sb.blockFreemap.v
    ensures dir.nr < NR_INODES && c.sb.Valid()
    ensures r == RecordOutcome(old(c.W()), dir.nr, name)
    ensures !r.Aborted? ==> c.Consistent() && dir.dirty && RecordAdded(old(c.W()), dir.nr, name, nr, r, c.W())
  {
    hide SuperBlock.Vol, SuperBlock.Valid, SuperBlock.InodesUsed, InodeTable.Valid, DiskInode, Sound, Contents;
    hide Context.Struct, Context.CachedLive, Context.MapsSaved, Context.W, Context.CacheOk, TreeOk, FilesOf;
    hide BlocksConsistent;
    hide Parse, Log, Changed, TookBlocks, WriteOutcome, LastBlock, Readable;
    ghost var ds := Entries(c.Files(), dir.nr);
    c.CachedDir(dir);
    c.MayChange(dir);
    c.CachedWorld(dir);
    c.CachedSound(dir);
    FindNone(ds, name);
    r := AddDirent(dir, name, nr, ds);
    if !r.Aborted? {
      c.DataChanged(dir, if r == Done then Log(Added(ds, name, nr)) else Log(ds));
    }
  }

  /** The shape of the dinode of a small directory. */
  lemma SmallInode(w: World, nr: nat)
    requires BlocksConsistent(w) && nr in FilesOf(w) && |FilesOf(w)[nr].bytes| <= 1536
    ensures w.inodes[nr].size == |FilesOf(w)[nr].bytes| && w.inodes[nr].indirect == 0
    ensures FilesOf(w)[nr].bytes == Contents(w.vol.disk, w.inodes[nr])
  {
    hide Contents, Own, CsumAt;
    SizeKnown(w, nr);
  }

  /** How mapping the first block of an empty file ends. */
  function FirstOutcome(room: Room): Outcome {
    if room.free == 0 then Failed(ENOSPC) else if room.slots == 0 then Aborted(CsumSlot) else Done
  }

  /** The first record of a new directory takes a block. */
  lemma FirstRecord(w: World, nr: nat, w1: World)
    requires BlocksConsistent(w) && nr < NR_INODES && nr in FilesOf(w) && FilesOf(w)[nr] == Node(I_DIR, [])
    ensures RecordOutcome(w, nr, DOT) == FirstOutcome(RoomOf(w.vol))
    ensures RecordAdded(w, nr, DOT, nr, Done, w1) ==>
      FilesOf(w1) == FilesOf(w)[nr := Node(I_DIR, Ser(Dirent(DOT, nr)))]
    ensures RecordAdded(w, nr, DOT, nr, Done, w1) ==> Took(w.vol, w1.vol, 1)
  {
    hide BlocksConsistent, FilesOf, Contents, EncodeInt, Bits.Zeros, Slots;
    SmallInode(w, nr);
    EmptyLog();
    if RecordAdded(w, nr, DOT, nr, Done, w1) {
      OneRecord(Dirent(DOT, nr));
      assert Added([], DOT, nr) == [Dirent(DOT, nr)];
      assert FilesOf(w1)[nr].bytes == Ser(Dirent(DOT, nr));
      SmallInode(w1, nr);
    }
  }

  lemma EmptyLog()
    ensures Parse([]) == [] && Log([]) == [] && IsLog([])
  {
  }

  lemma OneRecord(e: Dirent)
    requires IsName(e.name)
    ensures Log([e]) == Ser(e)
  {
    assert Log([e]) == Ser(e) + Log([]);
  }

  /** The second record fits in the same block. */
  lemma SecondRecord(w: World, nr: nat, p: int32, w1: World)
    requires BlocksConsistent(w) && nr < NR_INODES && nr in FilesOf(w)
    requires FilesOf(w)[nr] == Node(I_DIR, Ser(Dirent(DOT, nr)))
    ensures IsLog(FilesOf(w)[nr].bytes) && NrOf(Entries(FilesOf(w), nr), DOTDOT) < 0
    ensures RecordOutcome(w, nr, DOTDOT) == Done
    ensures RecordAdded(w, nr, DOTDOT, p, Done, w1) ==>
      FilesOf(w1) == FilesOf(w)[nr := Node(I_DIR, Log(EmptyDir(nr, p)))]
    ensures RecordAdded(w, nr, DOTDOT, p, Done, w1) ==> Took(w.vol, w1.vol, 0)
  {
    hide BlocksConsistent, FilesOf, Contents, EncodeInt, Bits.Zeros, Slots, Log, Parse;
    var ds := [Dirent(DOT, nr)];
    OneRecord(ds[0]);
    ParseLog(ds);
    SmallInode(w, nr);
    assert AddFrom(ds, DOTDOT, 0) == 1;
    if RecordAdded(w, nr, DOTDOT, p, Done, w1) {
      assert Added(ds, DOTDOT, p) == EmptyDir(nr, p);
      LogConcat(ds, [Dirent(DOTDOT, p)]);
      OneRecord(Dirent(DOTDOT, p));
      assert ds + [Dirent(DOTDOT, p)] == EmptyDir(nr, p);
      SmallInode(w1, nr);
    }
  }

  /** Making the two leading records of directory `nr` ended without a violated assertion. */
  ghost predicate EmptyDirMade(w: World, nr: nat, p: int32, r: Outcome, w': World) {
    && BlocksConsistent(w) && BlocksConsistent(w') && nr < NR_INODES
    && w'.live == w.live && (forall i: nat :: i < NR_INODES && i != nr ==> w'.inodes[i] == w.inodes[i])
    && (r == Done ==> FilesOf(w') == FilesOf(w)[nr := Node(I_DIR, Log(EmptyDir(nr, p)))])
    && (r == Done ==> Took(w.vol, w'.vol, 1))
    && (r.Failed? ==> FilesOf(w') == FilesOf(w))
    && Cleared(w.vol, w'.vol)
  }

  /** Gives a new directory its records `.` and `..`. Only the first needs a block. */
  method CreateEmptyDir(c: Context, parent: int32, dir: Inode) returns (r: Outcome)
    requires c.Consistent() && dir.nr in c.table.view && c.table.view[dir.nr] == dir && parent >= 0
    requires dir.nr in c.Files() && c.Files()[dir.nr] == Node(I_DIR, [])
    modifies dir`din, dir`dirty, c.sb`csumTable, c.sb.dev, c.sb.blockFreemap.v
    ensures c.sb.Valid() && r == FirstOutcome(RoomOf(old(c.W()).vol))
    ensures !r.Aborted? ==> c.Consistent() && dir.dirty && EmptyDirMade(old(c.W()), dir.nr, parent, r, c.W())
  {
    hide SuperBlock.Vol, SuperBlock.Valid, SuperBlock.InodesUsed, InodeTable.Valid, DiskInode, Sound, Contents;
    hide Context.Struct, Context.CachedLive, Context.MapsSaved, Context.W, Context.CacheOk, FilesOf, BlocksConsistent;
    hide Parse, Log, TookBlocks, RecordOutcome, WithRecord, Cleared;
    c.CachedWorld(dir);
    EmptyLog();
    r := AddRecord(c, dir, DOT, dir.nr);
    FirstRecord(old(c.W()), dir.nr, c.W());
    if r != Done {
      return;
    }
    ghost var w1 := c.W();
    SecondRecord(w1, dir.nr, parent, w1);
    r := AddRecord(c, dir, DOTDOT, parent);
    ClearedTrans(old(c.W()).vol, w1.vol, c.W().vol);
    if r == Done {
      SecondRecord(w1, dir.nr, parent, c.W());
    }
  }

  /** How `touch` and `mkdir` end. A new directory takes a block before its record is written. */
  ghost function CreateOutcome(w: World, cur: nat, typ: int32, name: seq<byte>): Outcome
    requires cur < NR_INODES && BlocksConsistent(w) && cur in FilesOf(w)
  {
    var bytes, room, nr := FilesOf(w)[cur].bytes, RoomOf(w.vol), Bits.FirstClear(w.live, 0);
    var ds := Parse(bytes);
    if NrOf(ds, name) >= 0 then Failed(EEXIST)
    else if nr == NR_INODE_BITS then Failed(ENOSPC)
    else if nr >= NR_INODES then Aborted(InodeSlot)
    else if typ == I_DIR && FirstOutcome(room) != Done then FirstOutcome(room)
    else AddOutcome(ds, name, |bytes|, w.inodes[cur].indirect != 0, if typ == I_DIR then OneLess(room) else room)
  }

  /** What is left when the first free block, which has a slot, was taken. */
  function OneLess(room: Room): Room
    requires FirstOutcome(room) == Done
  {
    Room(room.free - 1, room.slots - 1)
  }

  ghost predicate CreateEnds(w: World, cur: nat, typ: int32, name: seq<byte>, r: Outcome) {
    cur < NR_INODES && BlocksConsistent(w) && cur in FilesOf(w) && r == CreateOutcome(w, cur, typ, name)
  }

  /** The failing step, if any, is that of writing the new record. */
  ghost predicate ReachesParent(w: World, cur: nat, typ: int32, name: seq<byte>)
    requires BlocksConsistent(w) && cur in FilesOf(w)
  {
    && NrOf(Entries(FilesOf(w), cur), name) < 0
    && Bits.FirstClear(w.live, 0) < NR_INODES && (typ == I_DIR ==> FirstOutcome(RoomOf(w.vol)) == Done)
  }

  /** The first free inode number became a new, empty file or directory called `name`; nothing else changed. */
  ghost predicate FileCreated(w: World, cur: nat, typ: int32, name: seq<byte>, w': World) {
    && BlocksConsistent(w) && BlocksConsistent(w') && cur < NR_INODES && IsDir(FilesOf(w), cur)
    && IsLog(FilesOf(w)[cur].bytes) && IsName(name) && Cleared(w.vol, w'.vol)
    && var nr := Bits.FirstClear(w.live, 0);
       nr < NR_INODES && FilesOf(w') == Created(FilesOf(w), cur, name, nr, NewNode(typ, nr, cur))
  }

  /** What a new inode holds. */
  function NewNode(typ: int32, nr: int32, parent: int32): Node {
    if typ == I_DIR then Node(I_DIR, Log(EmptyDir(nr, parent))) else Node(I_FILE, [])
  }

  /** A new inode is in the world, with its leading records if it is a directory. */
  ghost predicate NewInode(w: World, cur: nat, typ: int32, nr: nat, w': World) {
    && BlocksConsistent(w) && BlocksConsistent(w') && nr < NR_INODES && cur < 0x8000_0000
    && nr !in FilesOf(w) && nr == Bits.FirstClear(w.live, 0)
    && w'.live == w.live[nr := true] && (forall i: nat :: i < NR_INODES && i != nr ==> w'.inodes[i] == w.inodes[i])
    && FilesOf(w') == FilesOf(w)[nr := NewNode(typ, nr, cur)]
    && Took(w.vol, w'.vol, if typ == I_DIR then 1 else 0) && Cleared(w.vol, w'.vol)
  }

  lemma NewNodeSmall(typ: int32, nr: int32, parent: int32)
    ensures |NewNode(typ, nr, parent).bytes| <= 21
  {
    hide EncodeInt;
    var ds := EmptyDir(nr, parent);
    LogConcat([ds[0]], [ds[1]]);
    OneRecord(ds[0]);
    OneRecord(ds[1]);
    assert [ds[0]] + [ds[1]] == ds;
  }

  /** The inode of a file that is being created, next to the current directory. */
  ghost predicate Creating(c: Context, in_: Inode)
    reads c, c.table, c.table.view.Values, c.sb, c.sb.dev, c.sb.inodeFreemap.v, c.sb.blockFreemap.v
  {
    && c.curDir.nr in c.table.view && in_.nr in c.table.view && in_.nr != c.curDir.nr
    && c.table.view == map[c.curDir.nr := c.table.view[c.curDir.nr], in_.nr := c.table.view[in_.nr]]
    && c.table.view[c.curDir.nr] == c.curDir && c.table.view[c.curDir.nr].count == 1
    && c.table.view[in_.nr] == in_ && c.table.view[in_.nr].count == 1 && in_.dirty
    && c.Consistent() && in_.nr in c.Files()
  }

  /** Gives up a new inode. */
  method DropFile(c: Context, in_: Inode, ghost files: Files)
    requires Creating(c, in_) && in_.nr !in files && |c.Files()[in_.nr].bytes| <= 1536
    requires TreeOk(files, c.shape) && IsDir(files, c.curDir.nr) && c.Files() - {in_.nr} == files
    modifies in_, c.table, c.sb.dev, c.sb.inodeFreemap.v, c.sb.blockFreemap.v
    ensures c.Valid() && c.Files() == files && Cleared(old(c.W()).vol, c.W().vol)
  {
    hide SuperBlock.Vol, SuperBlock.Valid, SuperBlock.InodesUsed, InodeTable.Valid, DiskInode, Sound, Contents;
    hide Context.Struct, Context.CachedLive, Context.MapsSaved, Context.W, Context.CacheOk, FilesOf;
    hide BlocksConsistent, TreeOk;
    SmallInode(c.W(), in_.nr);
    c.CachedWorld(in_);
    var gone := c.RemoveInode(in_);
    assert c.table.view == map[c.curDir.nr := c.curDir];
  }

  /** Saves the current directory and a new inode that it names. */
  method KeepFile(c: Context, in_: Inode, ghost files: Files, ghost sh: Shape)
    requires Creating(c, in_) && c.curDir.dirty
    requires c.Files() == files && TreeOk(files, sh) && IsDir(files, c.curDir.nr)
    modifies c`shape, in_, c.curDir`dirty, c.curDir`indirectDirty, c.table, c.sb.dev
    ensures c.Valid() && c.Files() == files && !c.curDir.dirty && c.shape == sh
    ensures Cleared(old(c.W()).vol, c.W().vol)
  {
    hide SuperBlock.Vol, SuperBlock.Valid, SuperBlock.InodesUsed, InodeTable.Valid, DiskInode, Sound, Contents;
    hide Context.Struct, Context.CachedLive, Context.MapsSaved, Context.W, Context.CacheOk, FilesOf;
    hide BlocksConsistent, TreeOk, Cleared;
    var saved := c.SyncInode(c.curDir);
    ghost var v1 := c.W().vol;
    saved := c.SyncInode(in_);
    ClearedTrans(old(c.W()).vol, v1, c.W().vol);
    var clean := c.PutInode(in_);
    c.shape := sh;
    assert c.table.view == map[c.curDir.nr := c.curDir];
  }

  /** A new inode without any bytes is in the world, and it has taken no block. */
  ghost predicate EmptyNew(w: World, typ: int32, nr: nat, w': World) {
    && BlocksConsistent(w) && BlocksConsistent(w') && nr < NR_INODES && nr !in FilesOf(w)
    && nr == Bits.FirstClear(w.live, 0) && w'.live == w.live[nr := true] && w'.vol.used == w.vol.used
    && (forall i: nat :: i < NR_INODES && i != nr ==> w'.inodes[i] == w.inodes[i])
    && FilesOf(w') == FilesOf(w)[nr := Node(typ, [])] && Cleared(w.vol, w'.vol)
  }

  lemma EmptyTakesNothing(w: World, typ: int32, nr: nat, w': World)
    requires EmptyNew(w, typ, nr, w')
    ensures RoomOf(w'.vol) == RoomOf(w.vol)
  {
    hide BlocksConsistent, FilesOf;
  }

  lemma NewPlain(w: World, cur: nat, nr: nat, w': World)
    requires EmptyNew(w, I_FILE, nr, w') && cur < 0x8000_0000
    ensures NewInode(w, cur, I_FILE, nr, w')
  {
    hide BlocksConsistent, FilesOf;
  }

  lemma NewWithRecords(w: World, cur: nat, nr: nat, w1: World, r: Outcome, w': World)
    requires EmptyNew(w, I_DIR, nr, w1) && cur < 0x8000_0000 && EmptyDirMade(w1, nr, cur, r, w')
    ensures r == Done ==> NewInode(w, cur, I_DIR, nr, w')
    ensures r.Failed? ==> FilesOf(w') - {nr} == FilesOf(w) && nr in FilesOf(w') && FilesOf(w')[nr].bytes == []
    ensures Cleared(w.vol, w'.vol)
  {
    hide BlocksConsistent, FilesOf, Log, EmptyDir, Bits.Zeros, Cleared;
    ClearedTrans(w.vol, w1.vol, w'.vol);
  }

  method NewEmpty(c: Context, typ: int32) returns (r: Outcome, in_: Inode?)
    requires c.Valid() && (typ == I_FILE || typ == I_DIR)
    modifies c.curDir`count, c.table, c.sb.dev, c.sb.inodeFreemap.v
    ensures c.sb.Valid() && r ==
      if Bits.FirstClear(old(c.W()).live, 0) == NR_INODE_BITS then Failed(ENOSPC)
      else if Bits.FirstClear(old(c.W()).live, 0) >= NR_INODES then Aborted(InodeSlot)
      else Done
    ensures r.Failed? ==> c.Valid() && c.W() == old(c.W())
    ensures r == Done ==> in_ != null && fresh(in_) && Creating(c, in_)
    ensures r == Done ==> c.table.view == old(c.table.view)[in_.nr := in_]
    ensures r == Done ==> EmptyNew(old(c.W()), typ, in_.nr, c.W())
  {
    hide SuperBlock.Vol, SuperBlock.Valid, SuperBlock.InodesUsed, InodeTable.Valid, DiskInode, Sound, Contents;
    hide Context.Struct, Context.CachedLive, Context.MapsSaved, Context.W, Context.CacheOk, FilesOf, BlocksConsistent;
    hide Parse, Log, TreeOk, EmptyDir, Context.Current, Bits.FirstClear;
    c.CachedWorld(c.curDir);
    r, in_ := c.CreateInode(typ);
  }

  /** Makes the inode of a new file or directory. */
  method NewFile(c: Context, typ: int32) returns (r: Outcome, in_: Inode?)
    requires c.Valid() && (typ == I_FILE || typ == I_DIR)
    modifies c.curDir`count, c.table, c.sb`csumTable, c.sb.dev, c.sb.inodeFreemap.v, c.sb.blockFreemap.v
    ensures c.sb.Valid() && r ==
      if Bits.FirstClear(old(c.W()).live, 0) == NR_INODE_BITS then Failed(ENOSPC)
      else if Bits.FirstClear(old(c.W()).live, 0) >= NR_INODES then Aborted(InodeSlot)
      else if typ == I_DIR then FirstOutcome(RoomOf(old(c.W()).vol))
      else Done
    ensures r.Failed? ==> c.Valid() && c.Files() == old(c.Files()) && Cleared(old(c.W()).vol, c.W().vol)
    ensures r == Done ==> in_ != null && fresh(in_) && in_.count == 1 && in_.dirty && c.Consistent()
    ensures r == Done ==> c.curDir.count == 1 && c.table.view == old(c.table.view)[in_.nr := in_]
    ensures r == Done ==> NewInode(old(c.W()), c.curDir.nr, typ, in_.nr, c.W())
  {
    hide SuperBlock.Vol, SuperBlock.Valid, SuperBlock.InodesUsed, InodeTable.Valid, DiskInode, Sound, Contents;
    hide Context.Struct, Context.CachedLive, Context.MapsSaved, Context.W, Context.CacheOk, FilesOf, BlocksConsistent;
    hide Parse, Log, TreeOk, EmptyDir, Context.Current, Bits.FirstClear, FirstOutcome, RoomOf, EmptyDirMade, NewInode;
    hide Cleared;
    c.CachedWorld(c.curDir);
    r, in_ := NewEmpty(c, typ);
    if r != Done {
      ClearedSame(c.W().vol, c.W().vol);
      return;
    }
    if typ == I_FILE {
      NewPlain(old(c.W()), c.curDir.nr, in_.nr, c.W());
      return;
    }
    ghost var w1 := c.W();
    EmptyTakesNothing(old(c.W()), I_DIR, in_.nr, w1);
    r := CreateEmptyDir(c, c.curDir.nr, in_);
    if !r.Aborted? {
      NewWithRecords(old(c.W()), c.curDir.nr, in_.nr, w1, r, c.W());
    }
    if r.Failed? {
      ghost var v2 := c.W().vol;
      DropFile(c, in_, old(c.Files()));
      ClearedTrans(old(c.W()).vol, v2, c.W().vol);
    }
  }

  /** With the new inode in place the outcome is decided in the parent. */
  lemma ParentDecides(w: World, cur: nat, typ: int32, name: seq<byte>, nr: nat, w1: World)
    requires cur < NR_INODES && BlocksConsistent(w) && cur in FilesOf(w) && NewInode(w, cur, typ, nr, w1)
    requires NrOf(Entries(FilesOf(w), cur), name) < 0 && (typ == I_DIR ==> FirstOutcome(RoomOf(w.vol)) == Done)
    ensures cur in FilesOf(w1) && FilesOf(w1)[cur] == FilesOf(w)[cur] && nr != cur
    ensures RecordOutcome(w1, cur, name) == CreateOutcome(w, cur, typ, name)
  {
    hide Parse, Contents, AddOutcome, Bits.Zeros, Slots, NrOf, Log, FilesOf, BlocksConsistent;
  }

  lemma CreatedIs(files: Files, cur: nat, name: seq<byte>, nr: int32, node: Node)
    requires IsDir(files, cur) && IsLog(files[cur].bytes) && IsName(name) && nr >= 0 && nr != cur
    ensures WithRecord(files[nr := node], cur, name, nr) == Created(files, cur, name, nr, node)
    ensures nr in Created(files, cur, name, nr, node) && IsDir(Created(files, cur, name, nr, node), cur)
  {
    hide Parse, Log, Added;
  }

  /**
   * `touch` and `mkdir` in the current directory. When the record cannot be written the new inode is
   * given back, but the current directory is left with unsaved changes.
   */
  method CreateFileOrDir(c: Context, typ: int32, name: seq<byte>) returns (r: Outcome)
    requires c.Valid() && (typ == I_FILE || typ == I_DIR) && IsName(name)
    modifies c`shape, c.curDir, c.table, c.sb`csumTable, c.sb.dev, c.sb.inodeFreemap.v, c.sb.blockFreemap.v
    ensures c.curDir.nr < NR_INODES && c.sb.Valid() && CreateEnds(old(c.W()), c.curDir.nr, typ, name, r)
    ensures !r.Aborted? ==> c.Valid()
    ensures r == Done ==> FileCreated(old(c.W()), c.curDir.nr, typ, name, c.W()) && !c.curDir.dirty
    ensures r.Failed? ==> SameFiles(old(c.W()), c.W())
    ensures r.Failed? ==> c.curDir.dirty == (old(c.curDir.dirty) || ReachesParent(old(c.W()), c.curDir.nr, typ, name))
  {
    hide SuperBlock.Vol, SuperBlock.Valid, SuperBlock.InodesUsed, InodeTable.Valid, DiskInode, Sound, Contents;
    hide Context.Struct, Context.CachedLive, Context.MapsSaved, Context.W, Context.CacheOk, FilesOf, BlocksConsistent;
    hide Parse, Log, TreeOk, EmptyDir, AddOutcome, Bits.Zeros, Bits.FirstClear, Slots, FirstOutcome, NewInode;
    hide Cleared;
    ghost var w, files, cur := c.W(), c.Files(), c.curDir.nr;
    ClearedSame(w.vol, w.vol);
    c.CachedWorld(c.curDir);
    NamesLive(files, c.shape, cur, name);
    var known := FindHere(c, name);
    if known >= 0 {
      return Failed(EEXIST);
    }
    var in_;
    r, in_ := NewFile(c, typ);
    if r == Done {
      NewInFiles(w, cur, typ, in_.nr, c.W());
      r := NameFile(c, in_, typ, name, w);
    }
  }

  lemma NewInFiles(w: World, cur: nat, typ: int32, nr: nat, w1: World)
    requires NewInode(w, cur, typ, nr, w1) && IsDir(FilesOf(w), cur)
    ensures nr in FilesOf(w1) && nr != cur && nr < NR_INODES
    ensures Bits.FirstClear(w.live, 0) < NR_INODES
  {
    hide BlocksConsistent, FilesOf;
  }

  /** Adds the record of a new inode to the current directory; when that fails the inode is given back. */
  method NameFile(c: Context, in_: Inode, typ: int32, name: seq<byte>, ghost w: World) returns (r: Outcome)
    requires Creating(c, in_) && (typ == I_FILE || typ == I_DIR) && IsName(name)
    requires NewInode(w, c.curDir.nr, typ, in_.nr, c.W()) && TreeOk(FilesOf(w), c.shape)
    requires IsDir(FilesOf(w), c.curDir.nr) && NrOf(Entries(FilesOf(w), c.curDir.nr), name) < 0
    requires typ == I_DIR ==> FirstOutcome(RoomOf(w.vol)) == Done
    modifies c`shape, in_, c.curDir, c.table, c.sb`csumTable, c.sb.dev, c.sb.inodeFreemap.v, c.sb.blockFreemap.v
    ensures c.curDir.nr < NR_INODES && c.sb.Valid() && CreateEnds(w, c.curDir.nr, typ, name, r)
    ensures !r.Aborted? ==> c.Valid()
    ensures r == Done ==> FileCreated(w, c.curDir.nr, typ, name, c.W()) && !c.curDir.dirty
    ensures r.Failed? ==> SameFiles(w, c.W()) && c.curDir.dirty
  {
    hide SuperBlock.Vol, SuperBlock.Valid, SuperBlock.InodesUsed, InodeTable.Valid, DiskInode, Sound, Contents;
    hide Context.Struct, Context.CachedLive, Context.MapsSaved, Context.W, Context.CacheOk, FilesOf, BlocksConsistent;
    hide Parse, Log, TreeOk, EmptyDir, RecordOutcome, CreateOutcome, WithRecord, Bits.Zeros, Bits.FirstClear, Slots;
    hide Took, Created, Added, ShapeWith, FirstOutcome, OneLess, Cleared;
    ghost var files, cur, w1 := FilesOf(w), c.curDir.nr, c.W();
    c.CachedWorld(c.curDir);
    NamesLive(files, c.shape, cur, name);
    ParentDecides(w, cur, typ, name, in_.nr, w1);
    r := AddRecord(c, c.curDir, name, in_.nr);
    if r.Aborted? {
      return;
    }
    NewNodeSmall(typ, in_.nr, cur);
    ghost var v2 := c.W().vol;
    ClearedTrans(w.vol, w1.vol, v2);
    if r.Failed? {
      DropFile(c, in_, files);
      ClearedTrans(w.vol, v2, c.W().vol);
      return;
    }
    CreatedIs(files, cur, name, in_.nr, NewNode(typ, in_.nr, cur));
    CreateOk(files, c.shape, cur, name, in_.nr, NewNode(typ, in_.nr, cur));
    KeepFile(c, in_, Created(files, cur, name, in_.nr, NewNode(typ, in_.nr, cur)), ShapeWith(c.shape, cur, in_.nr));
    ClearedTrans(w.vol, v2, c.W().vol);
  }

  // Writing files

  /** Where `owrite` starts: the `long` that it reads becomes an `int`, which keeps its low 32 bits. */
  function Start(offset: int): int {
    Signed(offset % 0x1_0000_0000)
  }

  /** What `strtol` may answer, apart from what becomes a negative `int`. */
  type LongOffset = o: int | -0x8000_0000_0000_0000 <= o < 0x8000_0000_0000_0000 && Start(o) >= 0

  /** The end of the write is computed as a `long`, and becomes the same `int`. */
  lemma EndOf(offset: LongOffset, len: nat)
    requires Start(offset) + len < 0x8000_0000
    ensures Start(len + offset) == Start(offset) + len
  {
  }

  /** How `owrite` ends. */
  ghost function OwriteOutcome(w: World, cur: nat, dirty: bool, name: seq<byte>, offset: nat, len: nat): Outcome
    requires BlocksConsistent(w) && cur in FilesOf(w)
  {
    var nr := NrOf(Entries(FilesOf(w), cur), name);
    if nr < 0 || nr !in FilesOf(w) then Failed(ENOENT)
    else if IsDir(FilesOf(w), nr) then (if nr == cur && dirty then Aborted(CleanOnPut) else Failed(EISDIR))
    else
      SizeKnown(w, nr);
      OverwriteOutcome(w.inodes[nr], offset, len, RoomOf(w.vol))
  }

  /** What `owrite` does to the files: the named file keeps its bytes up to the offset and then has the content. */
  ghost predicate Owrote(files: Files, cur: nat, name: seq<byte>, offset: nat, content: seq<byte>, done: bool,
      files': Files)
    requires cur in files
  {
    var nr := NrOf(Entries(files, cur), name);
    if nr < 0 || nr !in files || IsDir(files, nr) then files' == files
    else
      && files[nr].typ == I_FILE && offset <= |files[nr].bytes| && (!done ==> |files[nr].bytes| - offset <= |content|)
      && files' == files[nr := Node(I_FILE, Overwritten(files[nr].bytes, offset, content, done))]
  }

  method CmdOwrite(c: Context, name: seq<byte>, offset: LongOffset, content: seq<byte>) returns (r: Outcome)
    requires c.Valid() && content != []
    modifies c.curDir`count, c.table, c.sb`csumTable, c.sb.dev, c.sb.blockFreemap.v
    ensures c.sb.Valid() && r == OwriteOutcome(old(c.W()), c.curDir.nr, c.curDir.dirty, name, Start(offset), |content|)
    ensures !r.Aborted? ==> c.Valid()
    ensures !r.Aborted? ==> Owrote(old(c.Files()), c.curDir.nr, name, Start(offset), content, r == Done, c.Files())
    ensures r == Done ==>
      var nr := NrOf(Entries(old(c.Files()), c.curDir.nr), name);
      && nr in old(c.Files()) && Start(offset) <= |old(c.Files())[nr].bytes|
      && c.Files() == old(c.Files())[nr := Node(I_FILE, old(c.Files())[nr].bytes[..Start(offset)] + content)]
    ensures !r.Aborted? ==> Cleared(old(c.W()).vol, c.W().vol)
  {
    hide SuperBlock.Vol, SuperBlock.Valid, SuperBlock.InodesUsed, InodeTable.Valid, DiskInode, Sound, Contents;
    hide Context.Struct, Context.CachedLive, Context.MapsSaved, Context.W, Context.CacheOk, FilesOf, BlocksConsistent;
    hide Parse, TreeOk, OverwriteOutcome, Overwritten, Changed, Cleared;
    ClearedSame(c.W().vol, c.W().vol);
    var nr := FindHere(c, name);
    if nr < 0 {
      return Failed(-nr);
    }
    var in_;
    r, in_ := OpenFile(c, nr);
    if r == Done {
      r := WriteAndClose(c, in_, Start(offset), content);
    }
  }

  /** Gets the inode of a plain file; that of a directory is put back. */
  method OpenFile(c: Context, nr: nat) returns (r: Outcome, in_: Inode)
    requires c.Valid() && nr in c.Files()
    modifies c.curDir`count, c.table, c.sb.dev
    ensures c.sb.Valid()
    ensures r == if !IsDir(old(c.Files()), nr) then Done
                 else if nr == c.curDir.nr && c.curDir.dirty then Aborted(CleanOnPut)
                 else Failed(EISDIR)
    ensures r == Done ==>
      Opened(c, in_) && fresh(in_) && in_.nr == nr && !in_.dirty && !in_.indirectLoaded && c.W() == old(c.W())
    ensures r.Failed? ==> c.Valid() && c.W() == old(c.W())
  {
    hide SuperBlock.Vol, SuperBlock.Valid, SuperBlock.InodesUsed, InodeTable.Valid, DiskInode, Sound, Contents;
    hide Context.Struct, Context.CachedLive, Context.MapsSaved, Context.W, Context.CacheOk, FilesOf;
    hide BlocksConsistent, Context.Current;
    hide Parse, TreeOk;
    c.LiveFile(nr);
    in_ := c.GetInode(nr);
    c.CachedSound(in_);
    r := Done;
    if in_.din.typ == I_DIR {
      var clean := c.PutInode(in_);
      assert c.table.view == old(c.table.view);
      r := if clean then Failed(EISDIR) else Aborted(CleanOnPut);
    }
  }

  /** The part of `owrite` that has found the file. */
  method WriteAndClose(c: Context, in_: Inode, offset: nat, content: seq<byte>) returns (r: Outcome)
    requires Opened(c, in_) && content != []
    modifies in_, c.table, c.sb`csumTable, c.sb.dev, c.sb.blockFreemap.v
    ensures c.sb.Valid() && in_.nr < NR_INODES && old(c.W()).inodes[in_.nr].size >= 0
    ensures r == OverwriteOutcome(old(c.W()).inodes[in_.nr], offset, |content|, RoomOf(old(c.W()).vol))
    ensures !r.Aborted? ==> c.Valid()
    ensures !r.Aborted? ==>
      var bytes := old(c.Files())[in_.nr].bytes;
      offset <= |bytes| && (r != Done ==> |bytes| - offset <= |content|)
      && c.Files() == old(c.Files())[in_.nr := Node(I_FILE, Overwritten(bytes, offset, content, r == Done))]
    ensures r == Done ==>
      c.Files() == old(c.Files())[in_.nr := Node(I_FILE, old(c.Files())[in_.nr].bytes[..offset] + content)]
    ensures !r.Aborted? ==> Cleared(old(c.W()).vol, c.W().vol)
  {
    hide SuperBlock.Vol, SuperBlock.Valid, SuperBlock.InodesUsed, InodeTable.Valid, DiskInode, Sound, Contents;
    hide Context.Struct, Context.CachedLive, Context.MapsSaved, Context.W, Context.CacheOk, FilesOf, BlocksConsistent;
    hide Parse, TreeOk, OverwriteOutcome, Changed, DiskInode, Cleared;
    c.MayChange(in_);
    c.CachedSound(in_);
    c.CachedWorld(in_);
    ghost var files, bytes := c.Files(), c.Files()[in_.nr].bytes;
    r := Overwrite(in_, offset, content);
    if r.Aborted? {
      return;
    }
    ghost var now := Overwritten(bytes, offset, content, r == Done);
    c.DataChanged(in_, now);
    WriteOk(files, c.shape, in_.nr, now);
    ghost var v1 := c.W().vol;
    var saved := c.SyncInode(in_);
    ClearedTrans(old(c.W()).vol, v1, c.W().vol);
    var clean := c.PutInode(in_);
    assert c.table.view == map[c.curDir.nr := c.curDir];
  }

  /** A plain file is in use next to the current directory. */
  ghost predicate Opened(c: Context, in_: Inode)
    reads c, c.table, c.table.view.Values, c.sb, c.sb.dev, c.sb.inodeFreemap.v, c.sb.blockFreemap.v
  {
    && c.curDir.nr in c.table.view && in_.nr in c.table.view && in_.nr != c.curDir.nr
    && c.table.view == map[c.curDir.nr := c.table.view[c.curDir.nr], in_.nr := c.table.view[in_.nr]]
    && c.table.view[c.curDir.nr] == c.curDir && c.table.view[c.curDir.nr].count == 1
    && c.table.view[in_.nr] == in_ && c.table.view[in_.nr].count == 1
    && c.Consistent() && c.InTree() && in_.nr in c.Files() && c.Files()[in_.nr].typ == I_FILE
  }

  // The path of the current directory

  /** A path as it is printed: a slash before every name, and just a slash for the root. */
  function PathText(names: seq<seq<byte>>): seq<byte>
    requires forall i :: 0 <= i < |names| ==> names[i] != []
  {
    if names == [] then [47]
    else
      var last := names[|names| - 1];
      (if |names| == 1 then [47] else PathText(names[..|names| - 1]) + [47]) + last[..|last| - 1]
  }

  lemma {:induction false} PathNames(files: Files, sh: Shape, x: nat)
    requires TreeOk(files, sh) && x in files
    ensures NodeOk(files, sh, x) && |PathOf(files, sh, x)| == sh.depth[x]
    ensures forall i :: 0 <= i < |PathOf(files, sh, x)| ==> PathOf(files, sh, x)[i] != []
    decreases if x in sh.depth then sh.depth[x] else 0
  {
    hide Parse, FindNr, NrOf;
    assert NodeOk(files, sh, x);
    if x != 0 {
      var p := sh.parent[x];
      NamedFirst(files, sh, x);
      PathNames(files, sh, p);
      assert NodeOk(files, sh, p);
    }
  }

  /** No cached inode is nearer to the root than `d`. */
  ghost predicate Topmost(c: Context, d: nat)
    reads c`shape, c.table
  {
    d in c.shape.depth && forall i :: i in c.table.view ==> i in c.shape.depth && c.shape.depth[i] >= c.shape.depth[d]
  }

  /** Opens the parent of a directory and finds the directory's record in it. */
  method OpenParent(c: Context, in_: Inode, p: nat) returns (up: Inode, e: Dirent)
    requires c.Consistent() && TreeOk(c.Files(), c.shape)
    requires IsDir(c.Files(), in_.nr) && in_.nr != 0 && NodeOk(c.Files(), c.shape, in_.nr)
    requires p == c.shape.parent[in_.nr]
    requires in_.nr in c.table.view && Topmost(c, in_.nr)
    modifies c.table, c.table.view.Values`count, c.sb.dev
    ensures c.Consistent() && c.W() == old(c.W()) && c.table.view == old(c.table.view)[p := up]
    ensures up.nr == p && p !in old(c.table.view) && fresh(up) && up.count == 1 && !up.dirty && Topmost(c, p)
    ensures forall i :: i in old(c.table.view) ==> c.table.view[i].count == old(c.table.view[i].count)
    ensures IsDir(c.Files(), p)
    ensures var ds := Entries(c.Files(), p); FindNr(ds, in_.nr, 0) < |ds| && e == ds[FindNr(ds, in_.nr, 0)]
  {
    hide SuperBlock.Vol, SuperBlock.Valid, SuperBlock.InodesUsed, InodeTable.Valid, DiskInode, Sound, Contents;
    hide Context.Struct, Context.CachedLive, Context.MapsSaved, Context.W, Context.CacheOk, FilesOf, BlocksConsistent;
    hide Parse, TreeOk, IsLog, NrOf, FindNr, PathOf, NodeOk, PathText;
    ghost var files, sh := c.Files(), c.shape;
    DotDotIsParent(files, sh, in_.nr);
    PathStep(files, sh, in_.nr);
    c.LiveFile(p);
    up := c.GetInode(p);
    DotDotIsParent(files, sh, p);
    c.CachedDir(up);
    label Loaded:
    var found;
    found, e := FindDirent(up, in_.nr, Entries(files, p));
    c.OnlyRead@Loaded();
  }

  /** What `..` names in a directory. */
  method ParentNr(c: Context, in_: Inode) returns (p: int)
    requires c.Consistent() && TreeOk(c.Files(), c.shape)
    requires in_.nr in c.table.view && c.table.view[in_.nr] == in_ && IsDir(c.Files(), in_.nr)
    modifies c.sb.dev
    ensures c.Consistent() && c.W() == old(c.W())
    ensures in_.nr in c.shape.parent && p == c.shape.parent[in_.nr] && (p == in_.nr <==> in_.nr == 0)
    ensures in_.nr in c.shape.depth && p in c.shape.depth && (in_.nr != 0 ==> c.shape.depth[p] < c.shape.depth[in_.nr])
  {
    hide SuperBlock.Vol, SuperBlock.Valid, SuperBlock.InodesUsed, InodeTable.Valid, DiskInode, Sound, Contents;
    hide Context.Struct, Context.CachedLive, Context.MapsSaved, Context.W, Context.CacheOk, FilesOf, BlocksConsistent;
    hide Parse, TreeOk, IsLog, NrOf, Context.Current, Log;
    ghost var files, sh := c.Files(), c.shape;
    DotDotIsParent(files, sh, in_.nr);
    c.CachedDir(in_);
    p := DirNameToInodeNr(in_, DOTDOT, Entries(files, in_.nr));
    c.OnlyRead();
  }

  /** Prints the path of a directory by walking up to the root; answers 1 at the root. */
  method Pwd(c: Context, in_: Inode) returns (ret: int, text: seq<byte>)
    requires c.Consistent() && TreeOk(c.Files(), c.shape)
    requires in_.nr in c.table.view && c.table.view[in_.nr] == in_ && IsDir(c.Files(), in_.nr) && Topmost(c, in_.nr)
    modifies c.table, c.table.view.Values`count, c.sb.dev
    ensures c.Consistent() && c.W() == old(c.W()) && c.table.view == old(c.table.view)
    ensures forall i :: i in c.table.view ==> c.table.view[i].count == old(c.table.view[i].count)
    ensures ret == if in_.nr == 0 then 1 else 0
    ensures forall k :: 0 <= k < |PathOf(c.Files(), c.shape, in_.nr)| ==> PathOf(c.Files(), c.shape, in_.nr)[k] != []
    ensures text == PathText(PathOf(c.Files(), c.shape, in_.nr))
    decreases if in_.nr in c.shape.depth then c.shape.depth[in_.nr] else 0
  {
    hide SuperBlock.Vol, SuperBlock.Valid, SuperBlock.InodesUsed, InodeTable.Valid, DiskInode, Sound, Contents;
    hide Context.Struct, Context.CachedLive, Context.MapsSaved, Context.W, Context.CacheOk, FilesOf, BlocksConsistent;
    hide Parse, TreeOk, IsLog, NrOf, FindNr, PathOf, NodeOk, PathText, Context.Current, Log, Topmost;
    ghost var files, sh := c.Files(), c.shape;
    InTreeHere(files, sh, in_.nr);
    var p := ParentNr(c, in_);
    if p == in_.nr {
      PathStep(files, sh, in_.nr);
      return 1, [47];
    }
    var up, e := OpenParent(c, in_, p);
    var above;
    ret, above := Pwd(c, up);
    var clean := c.PutInode(up);
    assert c.table.view == old(c.table.view);
    PathStep(files, sh, in_.nr);
    text := (if ret == 1 then [47] else above + [47]) + e.name[..|e.name| - 1];
    ret := 0;
  }

  lemma InTreeHere(files: Files, sh: Shape, x: nat)
    requires TreeOk(files, sh) && x in files
    ensures NodeOk(files, sh, x)
    ensures x in sh.parent && x in sh.depth && sh.parent[x] in sh.depth
    ensures x != 0 ==> sh.depth[sh.parent[x]] < sh.depth[x]
  {
    hide Parse;
  }

  lemma PathStep(files: Files, sh: Shape, x: nat)
    requires TreeOk(files, sh) && x in files
    ensures x == 0 ==> PathOf(files, sh, x) == []
    ensures x != 0 ==> NodeOk(files, sh, x) && sh.parent[x] in files && NodeOk(files, sh, sh.parent[x])
    ensures x != 0 ==>
      var p := sh.parent[x]; var ds := Entries(files, p); var k := FindNr(ds, x, 0);
      k < |ds| && ds[k].name != [] && PathOf(files, sh, x) == PathOf(files, sh, p) + [ds[k].name]
    ensures forall i :: 0 <= i < |PathOf(files, sh, x)| ==> PathOf(files, sh, x)[i] != []
    ensures x != 0 ==> forall i :: 0 <= i < |PathOf(files, sh, sh.parent[x])| ==>
      PathOf(files, sh, sh.parent[x])[i] != []
    ensures PathText(PathOf(files, sh, x)) ==
      if x == 0 then [47]
      else
        var p := sh.parent[x]; var ds := Entries(files, p); var name := ds[FindNr(ds, x, 0)].name;
        (if p == 0 then [47] else PathText(PathOf(files, sh, p)) + [47]) + name[..|name| - 1]
  {
    hide Parse, FindNr, NrOf, LogOk;
    PathNames(files, sh, x);
    assert NodeOk(files, sh, x);
    if x != 0 {
      NamedFirst(files, sh, x);
      PathNames(files, sh, x);
      PathNames(files, sh, sh.parent[x]);
      assert NodeOk(files, sh, sh.parent[x]);
    }
  }
}
