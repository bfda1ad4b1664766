/** Whole sessions of the shell: any commands, one after another, on a freshly made file system. */
module Shell {
  import opened Bytes
  import opened Layout
  import opened Volume
  import Bits = Bitmap
  import opened Device
  import opened Super
  import opened Steps
  import opened Inodes
  import opened World
  import opened Table
  import opened Dirents
  import opened Tree
  import opened DirOps
  import opened FileOps
  import opened Contexts
  import opened Commands
  import opened Paths
  import opened WriteCommand
  import opened Check
  import opened Mounting

  datatype Command =
    | Touch(name: seq<byte>)
    | Mkdir(name: seq<byte>)
    | Rm(name: seq<byte>)
    | Cd(name: seq<byte>)
    | Owrite(name: seq<byte>, offset: LongOffset, content: seq<byte>)
    | Replace(name: seq<byte>, content: seq<byte>)
    | Pwd
    | Checkfs
    | Restart

  /** Names are not empty, and neither is what is written. */
  predicate WfCommand(cmd: Command) {
    match cmd
    case Touch(name) => IsName(name)
    case Mkdir(name) => IsName(name)
    case Owrite(_, _, content) => content != []
    case Replace(_, content) => content != []
    case _ => true
  }

  /** Where a session stands: the file system, the current directory, and whether that has unsaved changes. */
  datatype Position = Position(w: World, cur: nat, dirty: bool)

  /** The current directory is one of the directories. */
  ghost predicate Standing(p: Position) {
    p.cur < NR_INODES && BlocksConsistent(p.w) && IsDir(FilesOf(p.w), p.cur)
  }

  ghost function At(c: Context): (p: Position)
    requires c.Valid()
    reads c, c.table, c.table.view.Values, c.sb, c.sb.dev, c.sb.inodeFreemap.v, c.sb.blockFreemap.v
  {
    Position(c.W(), c.curDir.nr, c.curDir.dirty)
  }

  /** What a command answers, or which assertion it violates. */
  ghost function Answer(p: Position, cmd: Command): Outcome
    requires Standing(p)
  {
    match cmd
    case Touch(name) => CreateOutcome(p.w, p.cur, I_FILE, name)
    case Mkdir(name) => CreateOutcome(p.w, p.cur, I_DIR, name)
    case Rm(name) => RmCmdOutcome(p.w, p.cur, name)
    case Cd(name) => CdOutcome(FilesOf(p.w), p.cur, p.dirty, name)
    case Owrite(name, offset, content) => OwriteOutcome(p.w, p.cur, p.dirty, name, Start(offset), |content|)
    case Replace(name, content) => WriteCmdOutcome(p.w, p.cur, p.dirty, name, |content|)
    case Pwd => Done
    case Checkfs => if p.dirty then Aborted(CleanOnPut) else Done
    case Restart => if p.dirty then Aborted(CleanOnPut) else Done
  }

  /** A `touch` or `mkdir` that fails while it adds its record leaves the current directory with unsaved changes. */
  ghost predicate Spoils(p: Position, cmd: Command)
    requires Standing(p)
  {
    Answer(p, cmd).Failed? && match cmd
    case Touch(name) => ReachesParent(p.w, p.cur, I_FILE, name)
    case Mkdir(name) => ReachesParent(p.w, p.cur, I_DIR, name)
    case _ => false
  }

  /** The command saves the current directory, or enters another one. */
  ghost predicate Cleans(p: Position, cmd: Command)
    requires Standing(p)
  {
    Answer(p, cmd) == Done && (cmd.Touch? || cmd.Mkdir? || cmd.Rm? || cmd.Cd? || cmd.Restart?)
  }

  /** What a command that came back did: to the files, to the current directory, and to its unsaved changes. */
  ghost predicate Did(p: Position, cmd: Command, p': Position) {
    && Standing(p) && Standing(p')
    && p'.dirty == (Spoils(p, cmd) || (p.dirty && !Cleans(p, cmd)))
    && Changes(p, cmd, Answer(p, cmd) == Done, p') && Cleared(p.w.vol, p'.w.vol)
  }

  ghost predicate Changes(p: Position, cmd: Command, done: bool, p': Position)
    requires Standing(p) && Standing(p')
  {
    match cmd
    case Touch(name) => p'.cur == p.cur
      && if done then FileCreated(p.w, p.cur, I_FILE, name, p'.w) else SameFiles(p.w, p'.w)
    case Mkdir(name) => p'.cur == p.cur
      && if done then FileCreated(p.w, p.cur, I_DIR, name, p'.w) else SameFiles(p.w, p'.w)
    case Rm(name) => p'.cur == p.cur && if done then NameGone(p.w, p.cur, name, p'.w) else p'.w == p.w
    case Cd(name) => p'.w == p.w && p'.cur == if done then CdTarget(FilesOf(p.w), p.cur, name) else p.cur
    case Owrite(name, offset, content) =>
      p'.cur == p.cur && Owrote(FilesOf(p.w), p.cur, name, Start(offset), content, done, FilesOf(p'.w))
    case Replace(name, content) =>
      && p'.cur == p.cur && FilesOf(p'.w) == Written(FilesOf(p.w), p.cur, name, content, done)
      && (done ==> TableKept(p.w.vol.disk, p'.w.vol.disk))
    case Pwd => p'.w == p.w && p'.cur == p.cur
    case Checkfs => p'.w == p.w && p'.cur == p.cur
    case Restart => SameFiles(p.w, p'.w) && Remounted(p.w, p'.w) && p'.cur == 0
  }

  /** The name and its inode are gone, and all other files are as they were but for the record in the directory. */
  ghost predicate NameGone(w: World, cur: nat, name: seq<byte>, w': World)
    requires BlocksConsistent(w) && BlocksConsistent(w') && IsDir(FilesOf(w), cur)
  {
    && IsLog(FilesOf(w)[cur].bytes)
    && var nr := NrOf(Entries(FilesOf(w), cur), name);
       nr >= 0 && FilesOf(w') == Unnamed(FilesOf(w), cur, name) - {nr}
  }

  /**
   * After which command a session cannot go on: one that violates an assertion, a replacement that ran out of space and
   * left an inconsistent file system, and a restart when a checksum of some file's block is not on the device.
   */
  ghost predicate Stops(p: Position, cmd: Command)
    requires Standing(p)
  {
    || Answer(p, cmd).Aborted?
    || (cmd.Replace? && Answer(p, cmd) == Failed(ENOSPC))
    || (cmd.Restart? && !NeededSaved(p.w))
  }

  lemma Where(c: Context)
    requires c.Valid()
    ensures Standing(At(c)) && c.sb.Valid() && c.curDir.nr < NR_INODES && BlocksConsistent(c.W())
    ensures c.Files() == FilesOf(c.W())
    ensures c.curDir.nr in c.Files()
  {
    hide BlocksConsistent, TreeOk, FilesOf, SuperBlock.Valid, SuperBlock.Vol;
    c.CachedWorld(c.curDir);
  }

  method DoMake(c: Context, typ: int32, name: seq<byte>, ghost cmd: Command) returns (r: Outcome)
    requires c.Valid() && IsName(name)
      && ((cmd == Touch(name) && typ == I_FILE) || (cmd == Mkdir(name) && typ == I_DIR))
    modifies c`shape, c.curDir, c.table, c.sb`csumTable, c.sb.dev, c.sb.inodeFreemap.v, c.sb.blockFreemap.v
    ensures Standing(old(At(c))) && r == Answer(old(At(c)), cmd)
    ensures !r.Aborted? ==> c.Valid() && Did(old(At(c)), cmd, At(c))
  {
    hide Context.InTree, Context.Struct, Context.CachedLive, Context.MapsSaved, SuperBlock.Valid, Context.W;
    hide BlocksConsistent, FilesOf;
    hide CreateOutcome, ReachesParent, Standing, Created, Cleared;
    Where(c);
    r := CreateFileOrDir(c, typ, name);
    if !r.Aborted? {
      Where(c);
    }
  }

  method DoRm(c: Context, name: seq<byte>) returns (r: Outcome)
    requires c.Valid()
    modifies c.curDir, c.table, c.sb`csumTable, c.sb.dev, c.sb.inodeFreemap.v, c.sb.blockFreemap.v
    ensures Standing(old(At(c))) && r == Answer(old(At(c)), Rm(name))
    ensures !r.Aborted? ==> c.Valid() && Did(old(At(c)), Rm(name), At(c))
  {
    hide Context.InTree, Context.Struct, Context.CachedLive, Context.MapsSaved, SuperBlock.Valid, Context.W;
    hide BlocksConsistent, FilesOf;
    hide RmCmdOutcome, Parse, NrOf, TreeOk, Standing;
    Where(c);
    r := CmdRm(c, name);
    if !r.Aborted? {
      Where(c);
    }
  }

  method DoCd(c: Context, name: seq<byte>) returns (r: Outcome)
    requires c.Valid()
    modifies c`curDir, c.curDir`count, c.table, c.sb.dev
    ensures Standing(old(At(c))) && r == Answer(old(At(c)), Cd(name))
    ensures !r.Aborted? ==> c.Valid() && Did(old(At(c)), Cd(name), At(c))
    ensures c.curDir == old(c.curDir) || fresh(c.curDir)
  {
    hide Context.InTree, Context.Struct, Context.CachedLive, Context.MapsSaved, SuperBlock.Valid, Context.W;
    hide BlocksConsistent, FilesOf;
    hide CdTarget, CdOutcome, TreeOk, Standing;
    Where(c);
    r := CmdCd(c, name);
    if !r.Aborted? {
      Where(c);
    }
  }

  method DoOwrite(c: Context, name: seq<byte>, offset: LongOffset, content: seq<byte>) returns (r: Outcome)
    requires c.Valid() && content != []
    modifies c.curDir`count, c.table, c.sb`csumTable, c.sb.dev, c.sb.blockFreemap.v
    ensures Standing(old(At(c))) && r == Answer(old(At(c)), Owrite(name, offset, content))
    ensures !r.Aborted? ==> c.Valid() && Did(old(At(c)), Owrite(name, offset, content), At(c))
  {
    hide Context.InTree, Context.Struct, Context.CachedLive, Context.MapsSaved, SuperBlock.Valid, Context.W;
    hide BlocksConsistent, FilesOf;
    hide OwriteOutcome, Owrote, TreeOk, Standing;
    Where(c);
    r := CmdOwrite(c, name, offset, content);
    if !r.Aborted? {
      Where(c);
    }
  }

  method DoReplace(c: Context, name: seq<byte>, content: seq<byte>) returns (r: Outcome)
    requires c.Valid() && content != []
    modifies c.curDir`count, c.table, c.sb`csumTable, c.sb`csumDirty, c.sb.dev, c.sb.blockFreemap.v
    ensures Standing(old(At(c))) && r == Answer(old(At(c)), Replace(name, content))
    ensures !r.Aborted? && r != Failed(ENOSPC) ==> c.Valid() && Did(old(At(c)), Replace(name, content), At(c))
  {
    hide Context.InTree, Context.Struct, Context.CachedLive, Context.MapsSaved, SuperBlock.Valid, Context.W;
    hide BlocksConsistent, FilesOf;
    hide WriteCmdOutcome, Written, TreeOk, Standing;
    Where(c);
    r := CmdWrite(c, name, content);
    if !r.Aborted? && r != Failed(ENOSPC) {
      Where(c);
    }
  }

  /** `pwd`: prints the path of the current directory. */
  method CmdPwd(c: Context) returns (text: seq<byte>)
    requires c.Valid()
    modifies c.curDir`count, c.table, c.sb.dev
    ensures c.Valid() && c.W() == old(c.W())
    ensures PathIs(c.W(), c.shape, c.curDir.nr, text)
  {
    hide SuperBlock.Vol, SuperBlock.Valid, SuperBlock.InodesUsed, InodeTable.Valid, DiskInode;
    hide Context.Struct, Context.CachedLive, Context.MapsSaved, Context.W, FilesOf, BlocksConsistent, TreeOk;
    hide PathOf, PathText, IsDir, Split, Resolve;
    ghost var w, cur := c.W(), c.curDir.nr;
    OnTop(c);
    PathRoundTrip(FilesOf(w), c.shape, cur);
    NamesOnPath(FilesOf(w), c.shape, cur);
    SplitPathText(PathOf(FilesOf(w), c.shape, cur));
    var ret;
    ret, text := Commands.Pwd(c, c.curDir);
  }

  lemma OnTop(c: Context)
    requires c.Valid()
    ensures Topmost(c, c.curDir.nr) && c.curDir.nr in c.Files() && TreeOk(c.Files(), c.shape)
  {
    hide BlocksConsistent, FilesOf, SuperBlock.Valid, Context.Struct;
    assert NodeOk(c.Files(), c.shape, c.curDir.nr);
  }

  /**
   * The text is made of the names that lead from the root to the directory. It tells these names exactly when all are
   * plain, and then leads to the directory itself.
   */
  ghost predicate PathIs(w: World, sh: Shape, cur: nat, text: seq<byte>) {
    && BlocksConsistent(w) && PrintsAs(FilesOf(w), sh, cur, text)
    && var names := PathOf(FilesOf(w), sh, cur);
       && Resolve(FilesOf(w), 0, names) == cur
       && (Split(text) == names <==> forall i :: 0 <= i < |names| ==> IsPlain(names[i]))
       && ((forall i :: 0 <= i < |names| ==> IsPlain(names[i])) ==> Resolve(FilesOf(w), 0, Split(text)) == cur)
  }

  method DoCheckfs(c: Context) returns (r: Outcome)
    requires c.Valid()
    modifies c.curDir`count, c.table, c.sb.dev
    ensures Standing(old(At(c))) && r == Answer(old(At(c)), Checkfs)
    ensures !r.Aborted? ==> c.Valid() && Did(old(At(c)), Checkfs, At(c))
  {
    hide Context.InTree, Context.Struct, Context.CachedLive, Context.MapsSaved, SuperBlock.Valid, Context.W;
    hide BlocksConsistent, FilesOf;
    hide TreeOk, Standing;
    Where(c);
    BetweenCommands(c);
    var bad, inodesOk, blocksOk, nrInodes, nrBlocks;
    r, bad, inodesOk, blocksOk, nrInodes, nrBlocks := CmdCheckfs(c, c.W());
    if r == Done {
      BetweenCommands(c);
    }
  }

  method DoPwd(c: Context) returns (r: Outcome)
    requires c.Valid()
    modifies c.curDir`count, c.table, c.sb.dev
    ensures Standing(old(At(c))) && r == Answer(old(At(c)), Pwd)
    ensures c.Valid() && Did(old(At(c)), Pwd, At(c))
  {
    hide Context.InTree, Context.Struct, Context.CachedLive, Context.MapsSaved, SuperBlock.Valid, Context.W;
    hide BlocksConsistent, FilesOf;
    hide TreeOk, PathIs, Standing;
    Where(c);
    var text := CmdPwd(c);
    r := Done;
  }

  /** No block of the checksum table is waiting to be written. */
  predicate AllSaved(sb: SuperBlock)
    reads sb
  {
    forall nr: nat :: nr < |sb.csumDirty| ==> !sb.csumDirty[nr]
  }

  /** Then the table on the device is the one in memory. */
  lemma SavedIsSaved(c: Context)
    requires c.Valid() && AllSaved(c.sb)
    ensures TableSaved(At(c).w.vol.disk, At(c).w.vol.csum)
  {
    hide Context.InTree, Context.Struct, Context.CachedLive, Context.W, BlocksConsistent, FilesOf, TableSaved;
    assert c.sb.csumDirty == seq(CSUM_TABLE_SIZE, _ => false);
    c.SavedTable();
  }

  /** What a restart finds, and that it is consistent exactly when all needed checksums were saved. */
  ghost predicate FoundAgain(w: World, w': World, kept: bool) {
    Remounted(w, w') && (BlocksConsistent(w') <==> kept)
  }

  /** With the current directory saved too, the whole world is on the device. */
  lemma AllOnDevice(c: Context)
    requires c.Valid() && !c.curDir.dirty
    ensures c.W() == DiskWorld(c.sb.Vol(), c.sb.InodesUsed())
  {
    hide BlocksConsistent, FilesOf, TreeOk, DecodeDInode, SuperBlock.InodesUsed, SuperBlock.Vol;
    assert c.CacheOk(c.curDir.nr);
    assert c.W().inodes == DiskWorld(c.sb.Vol(), c.sb.InodesUsed()).inodes;
  }

  /** Leaves the shell and starts it again; `kept` tells whether all needed checksums came back. */
  method DoRestart(c: Context) returns (r: Outcome, c': Context, kept: bool)
    requires c.Valid()
    modifies c.curDir`count, c.table, c.sb.dev
    ensures c'.sb.dev == c.sb.dev
    ensures if r == Done then fresh(c') && fresh(c'.sb) && fresh(c'.table) && fresh(c'.curDir)
                              && fresh(c'.sb.inodeFreemap.v) && fresh(c'.sb.blockFreemap.v)
            else r.Aborted? && c' == c && c'.curDir == old(c.curDir)
    ensures Standing(old(At(c))) && r == Answer(old(At(c)), Restart)
    ensures old(Stops(At(c), Restart)) <==> r.Aborted? || !kept
    ensures !old(Stops(At(c), Restart)) ==> c'.Valid() && AllSaved(c'.sb) && Did(old(At(c)), Restart, At(c'))
    ensures r == Done ==> c'.sb.Valid() && FoundAgain(old(At(c)).w, c'.W(), kept)
  {
    hide Context.InTree, Context.Struct, Context.CachedLive, Context.MapsSaved, Context.W, BlocksConsistent;
    hide FilesOf, TreeOk;
    hide NeededSaved, Remounted, FromDevice, SuperBlock.Vol, SuperBlock.InodesUsed, Standing, DiskWorld;
    hide Cleared;
    Where(c);
    kept := NeededSaved(DiskWorld(c.sb.Vol(), c.sb.InodesUsed()));
    if !c.curDir.dirty {
      AllOnDevice(c);
    }
    ghost var w := c.W();
    r, c' := Mounting.Restart(c);
    if r == Done {
      RemountedWhen(w, c'.W());
      RemountedClears(w, c'.W());
    }
    if !old(Stops(At(c), Restart)) {
      Where(c');
    }
  }

  // Checking what a restart finds

  /** World `w'` with the checksum table of `w`. */
  ghost function WithTableOf(w: World, w': World): World {
    WorldData.World(VolData.Vol(w'.vol.disk, w'.vol.used, w.vol.csum), w'.live, w'.inodes)
  }

  lemma MendedAgain(w: World, w': World)
    requires Remounted(w, w') && BlocksConsistent(w)
    ensures Mended(w', WithTableOf(w, w')) && BlocksConsistent(WithTableOf(w, w'))
    ensures FilesOf(WithTableOf(w, w')) == FilesOf(w)
  {
    hide BlocksConsistent, FilesOf, CsumLoaded;
    StepNone(w, WithTableOf(w, w').vol);
  }

  /** Block `p` is one of a file, and its checksum is not on the device. */
  ghost predicate LostCsum(w: World, p: int) {
    exists i: nat, l: nat :: IsLive(w, i) && IsBlockOf(w, i, l, p) && !EntrySaved(w.vol, p)
  }

  ghost predicate IsBlockOf(w: World, i: nat, l: nat, p: int)
    requires i < NR_INODES
  {
    l < BlocksFor(w.inodes[i].size) && Lookup(w.vol.disk, w.inodes[i], l) == p
  }

  /** After a restart the wrong checksums are those that had not been saved. */
  lemma WrongIsLost(w: World, w': World, p: int)
    requires Remounted(w, w') && BlocksConsistent(w)
    ensures WrongBlock(w'.vol, WithTableOf(w, w'), FilesOf(w).Keys, p) <==> LostCsum(w, p)
  {
    hide BlocksConsistent, CsumLoaded, Lookup, EntrySaved, CsumAt;
    forall i: nat, l: nat | IsLive(w, i) && l < BlocksFor(w.inodes[i].size)
      ensures Lookup(w'.vol.disk, w'.inodes[i], l) == Lookup(w.vol.disk, w.inodes[i], l)
      ensures CsumAt(w'.vol, w'.inodes[i], l) <==> EntrySaved(w.vol, Lookup(w.vol.disk, w.inodes[i], l))
    {
      SizeKnown(w, i);
      BlockFound(w, w', i, l);
    }
    if i: nat, l: nat :| IsLive(w, i) && IsBlockOf(w, i, l, p) && !EntrySaved(w.vol, p) {
      assert WrongIn(w'.vol, w'.inodes[i], BlocksFor(w'.inodes[i].size), p);
      assert i in FilesOf(w).Keys;
    }
    if WrongBlock(w'.vol, WithTableOf(w, w'), FilesOf(w).Keys, p) {
      var v, d := w'.vol, w'.inodes;
      var i: nat :| i in FilesOf(w).Keys && i < NR_INODES && WrongIn(v, d[i], BlocksFor(d[i].size), p);
      var l: nat :| l < BlocksFor(d[i].size) && Lookup(v.disk, d[i], l) == p && !CsumAt(v, d[i], l);
      assert IsBlockOf(w, i, l, p);
    }
  }

  lemma LostOrSaved(w: World)
    ensures NeededSaved(w) <==> forall p :: !LostCsum(w, p)
  {
    hide Lookup, EntrySaved;
    if !NeededSaved(w) {
      var i: nat :| i < NR_INODES && IsLive(w, i) && !FileSaved(w, i);
      var l: nat :| l < BlocksFor(w.inodes[i].size) && !EntrySaved(w.vol, Lookup(w.vol.disk, w.inodes[i], l));
      assert IsBlockOf(w, i, l, Lookup(w.vol.disk, w.inodes[i], l));
      assert LostCsum(w, Lookup(w.vol.disk, w.inodes[i], l));
    }
    if p :| LostCsum(w, p) {
      var i: nat, l: nat :| IsLive(w, i) && IsBlockOf(w, i, l, p) && !EntrySaved(w.vol, p);
      assert !FileSaved(w, i);
    }
  }

  /** `checkfs` tells exactly the blocks whose checksums a restart has lost. */
  ghost predicate TellsLost(w: World, bad: seq<int>) {
    && (forall p :: p in bad <==> LostCsum(w, p))
    && (bad == [] <==> NeededSaved(w))
  }

  lemma ToldLost(w: World, w': World, bad: seq<int>)
    requires Remounted(w, w') && BlocksConsistent(w)
    requires Reported(w'.vol, WithTableOf(w, w'), FilesOf(w).Keys, bad)
    ensures TellsLost(w, bad)
  {
    hide BlocksConsistent, FilesOf, Remounted, LostCsum, NeededSaved, WrongBlock;
    forall p ensures p in bad <==> LostCsum(w, p) {
      WrongIsLost(w, w', p);
    }
    LostOrSaved(w);
    FirstListed(bad);
    if bad != [] {
      assert LostCsum(w, bad[0]);
    } else {
      forall p ensures !LostCsum(w, p) {
        assert p in bad <==> LostCsum(w, p);
      }
    }
  }

  /**
   * Leaves the shell, starts it again and checks what is found. The freemaps are right, and the blocks that are listed
   * are those of files whose checksums were not on the device; there are none exactly when the file system comes back
   * undamaged.
   */
  method RestartThenCheck(c: Context) returns (r: Outcome, c': Context, bad: seq<int>, mapsOk: bool)
    requires c.Valid()
    modifies c.curDir`count, c.table, c.sb.dev
    ensures Standing(old(At(c))) && c'.sb.dev == c.sb.dev
    ensures r == if old(c.curDir.dirty) then Aborted(CleanOnPut) else Done
    ensures r == Done ==> mapsOk && TellsLost(old(c.W()), bad)
    ensures r == Done ==> c'.sb.Valid() && FoundAgain(old(c.W()), c'.W(), bad == [])
  {
    hide Context.Struct, Context.CachedLive, Context.MapsSaved, Context.W, BlocksConsistent;
    hide FilesOf, TreeOk, NeededSaved, Remounted, FromDevice, SuperBlock.Vol, SuperBlock.InodesUsed, Standing;
    hide DiskWorld, Mended, Reported, LostCsum;
    Where(c);
    ghost var w := c.W();
    mapsOk, bad := false, [];
    r, c' := Mounting.Restart(c);
    if r != Done {
      return;
    }
    RemountedWhen(w, c'.W());
    MendedAgain(w, c'.W());
    ghost var w', g := c'.W(), WithTableOf(w, c'.W());
    RestAfterRestart(c', w, g);
    var inodesOk, blocksOk, nrInodes, nrBlocks;
    r, bad, inodesOk, blocksOk, nrInodes, nrBlocks := CmdCheckfs(c', g);
    mapsOk := inodesOk && blocksOk;
    RestIs(c', g);
    ToldLost(w, w', bad);
  }

  lemma RestAfterRestart(c: Context, w: World, g: World)
    requires c.sb.Valid() && c.Struct() && c.CachedLive() && c.MapsSaved() && Mended(c.W(), g)
    requires c.table.view == map[0 := c.curDir] && c.curDir.nr == 0 && c.curDir.count == 1
    requires BlocksConsistent(w) && BlocksConsistent(g) && FilesOf(g) == FilesOf(w) && TreeOk(FilesOf(w), c.shape)
    ensures AtRest(c, g)
  {
    hide Context.Struct, Context.CachedLive, Context.MapsSaved, Context.W, BlocksConsistent, FilesOf, SuperBlock.Valid;
    hide TreeOk;
    RootThere(FilesOf(w), c.shape);
  }

  /**
   * Runs one command. Its answer is the one told, and unless it stops the session all that is told of it has come
   * about.
   */
  method Execute(c: Context, cmd: Command) returns (r: Outcome, c': Context, stop: bool)
    requires c.Valid() && WfCommand(cmd)
    modifies c, c.curDir, c.table, c.sb, c.sb.dev, c.sb.inodeFreemap.v, c.sb.blockFreemap.v
    ensures c'.sb.dev == c.sb.dev && (c'.curDir == old(c.curDir) || fresh(c'.curDir))
    ensures c' == c || (fresh(c') && fresh(c'.sb) && fresh(c'.table) && fresh(c'.sb.inodeFreemap.v)
      && fresh(c'.sb.blockFreemap.v))
    ensures Standing(old(At(c))) && r == Answer(old(At(c)), cmd) && stop == old(Stops(At(c), cmd))
    ensures !stop ==> c'.Valid() && Did(old(At(c)), cmd, At(c'))
    ensures !stop && old(AllSaved(c.sb)) && !cmd.Replace? ==> AllSaved(c'.sb)
    ensures cmd.Restart? && r == Done ==> c'.sb.Valid() && FoundAgain(old(At(c)).w, c'.W(), !stop)
  {
    hide Context.Valid, Context.W, BlocksConsistent, FilesOf, Did, Standing, Answer, NeededSaved;
    c' := c;
    var kept := true;
    match cmd {
    case Touch(name) => r := DoMake(c, I_FILE, name, cmd);
    case Mkdir(name) => r := DoMake(c, I_DIR, name, cmd);
    case Rm(name) => r := DoRm(c, name);
    case Cd(name) => r := DoCd(c, name);
    case Owrite(name, offset, content) => r := DoOwrite(c, name, offset, content);
    case Replace(name, content) => r := DoReplace(c, name, content);
    case Pwd => r := DoPwd(c);
    case Checkfs => r := DoCheckfs(c);
    case Restart => r, c', kept := DoRestart(c);
    }
    stop := r.Aborted? || (cmd.Replace? && r == Failed(ENOSPC)) || !kept;
  }

  // Whole sessions

  /** The commands `cmds` led from the first to the last of these positions, with these answers. */
  ghost predicate IsTrace(cmds: seq<Command>, rs: seq<Outcome>, trace: seq<Position>) {
    && |trace| == |cmds| + 1 && |rs| == |cmds|
    && forall i :: 0 <= i < |cmds| ==> Follows(trace[i], cmds[i], rs[i], trace[i + 1])
  }

  ghost predicate Follows(p: Position, cmd: Command, r: Outcome, p': Position) {
    Did(p, cmd, p') && r == Answer(p, cmd) && !Stops(p, cmd)
  }

  lemma StartTrace(cmds: seq<Command>, p: Position)
    ensures IsTrace(cmds[..0], [], [p]) && NoReplace(cmds, 0)
  {
  }

  lemma TraceGrows(cmds: seq<Command>, i: nat, rs: seq<Outcome>, trace: seq<Position>, r: Outcome, p: Position)
    requires i < |cmds| && IsTrace(cmds[..i], rs, trace) && Follows(trace[i], cmds[i], r, p)
    ensures IsTrace(cmds[..i + 1], rs + [r], trace + [p])
  {
    hide Follows;
    forall j | 0 <= j < i + 1 ensures Follows((trace + [p])[j], cmds[..i + 1][j], (rs + [r])[j], (trace + [p])[j + 1]) {
      if j < i {
        assert cmds[..i][j] == cmds[..i + 1][j];
      }
    }
  }

  /** None of the first `i` commands replaced a file through the asynchronous path. */
  ghost predicate NoReplace(cmds: seq<Command>, i: nat) {
    forall j :: 0 <= j < i && j < |cmds| ==> !cmds[j].Replace?
  }

  lemma ReplaceNext(cmds: seq<Command>, i: nat)
    requires i < |cmds|
    ensures NoReplace(cmds, i + 1) <==> NoReplace(cmds, i) && !cmds[i].Replace?
  {
  }

  /** A file system that was just made, seen from its root. */
  ghost predicate IsStart(p: Position) {
    JustMade(p.w) && p.cur == 0 && !p.dirty
  }

  /** The session ended with command `n`, and its answer is `r`. */
  ghost predicate EndsAt(cmds: seq<Command>, n: nat, p: Position, r: Outcome) {
    n < |cmds| && Standing(p) && Stops(p, cmds[n]) && r == Answer(p, cmds[n])
  }

  /**
   * Makes a file system and runs commands, up to the first one after which it cannot go on. Every command answers and
   * does what is told of it in terms of the file system it finds, and at the end the whole invariant holds.
   */
  method Session(device: Device, cmds: seq<Command>)
    returns (c: Context, n: nat, r: Outcome, ghost rs: seq<Outcome>, ghost trace: seq<Position>)
    requires device.Valid() && device.s.pending == [] && forall i :: 0 <= i < |cmds| ==> WfCommand(cmds[i])
    modifies device
    ensures fresh(c) && fresh(c.sb) && fresh(c.table) && fresh(c.curDir) && fresh(c.sb.inodeFreemap.v)
    ensures fresh(c.sb.blockFreemap.v)
    ensures c.sb.dev == device && n <= |cmds| && IsTrace(cmds[..n], rs, trace) && IsStart(trace[0])
    ensures n < |cmds| ==> EndsAt(cmds, n, trace[n], r)
    ensures n == |cmds| ==> c.Valid() && trace[n] == At(c)
    ensures NoReplace(cmds, n) ==> TableSaved(trace[n].w.vol.disk, trace[n].w.vol.csum)
  {
    hide Context.Valid, Context.W, BlocksConsistent, FilesOf, IsTrace, NoReplace, Did, WfCommand, AllSaved, At;
    hide JustMade, Answer;
    hide TableSaved, Stops, Standing, NeededSaved;
    c := CmdMkfs(device);
    n, r, rs := 0, Done, [];
    trace := [At(c)];
    StartAt(c);
    StartTrace(cmds, trace[0]);
    while n < |cmds|
      invariant 0 <= n <= |cmds| && c.sb.dev == device
      invariant fresh(c) && fresh(c.sb) && fresh(c.table) && fresh(c.curDir) && fresh(c.sb.inodeFreemap.v)
      invariant fresh(c.sb.blockFreemap.v)
      invariant |trace| == n + 1 && c.Valid() && trace[n] == At(c) && (NoReplace(cmds, n) ==> AllSaved(c.sb))
      invariant IsTrace(cmds[..n], rs, trace) && IsStart(trace[0])
    {
      if AllSaved(c.sb) {
        SavedIsSaved(c);
      }
      ghost var p := At(c);
      Where(c);
      var stop;
      r, c, stop := Execute(c, cmds[n]);
      if stop {
        return;
      }
      ReplaceNext(cmds, n);
      TraceGrows(cmds, n, rs, trace, r, At(c));
      rs, trace := rs + [r], trace + [At(c)];
      n := n + 1;
    }
    if AllSaved(c.sb) {
      SavedIsSaved(c);
    }
  }

  lemma StartAt(c: Context)
    requires c.Valid() && JustMade(c.W()) && c.curDir.nr == 0 && !c.curDir.dirty
    requires forall nr: nat :: nr < CSUM_TABLE_SIZE ==> !c.sb.csumDirty[nr]
    ensures IsStart(At(c)) && AllSaved(c.sb)
  {
    hide JustMade, Context.InTree, Context.Struct;
  }

  /** The last command that failed while adding its record came after the last one that saved or left the directory. */
  ghost predicate SpoiltAt(cmds: seq<Command>, trace: seq<Position>, i: nat, n: nat)
    requires n <= |cmds| < |trace| && forall j :: 0 <= j < |cmds| ==> Standing(trace[j])
  {
    i < n && Spoils(trace[i], cmds[i]) && forall j :: i < j < n ==> !Cleans(trace[j], cmds[j])
  }

  /** When the current directory has unsaved changes. */
  lemma {:induction false} DirtyWhen(cmds: seq<Command>, rs: seq<Outcome>, trace: seq<Position>, n: nat)
    requires IsTrace(cmds, rs, trace) && !trace[0].dirty && n <= |cmds|
    ensures forall j :: 0 <= j < |cmds| ==> Standing(trace[j])
    ensures trace[n].dirty <==> exists i: nat :: SpoiltAt(cmds, trace, i, n)
  {
    hide Spoils, Cleans, Changes, Standing, Answer, Stops;
    forall j | 0 <= j < |cmds| ensures Standing(trace[j]) {
      assert Follows(trace[j], cmds[j], rs[j], trace[j + 1]);
    }
    if n > 0 {
      DirtyWhen(cmds, rs, trace, n - 1);
      assert Follows(trace[n - 1], cmds[n - 1], rs[n - 1], trace[n]);
      if trace[n].dirty {
        if Spoils(trace[n - 1], cmds[n - 1]) {
          assert SpoiltAt(cmds, trace, n - 1, n);
        } else {
          var i: nat :| SpoiltAt(cmds, trace, i, n - 1);
          assert SpoiltAt(cmds, trace, i, n);
        }
      }
      if i: nat :| SpoiltAt(cmds, trace, i, n) {
        if i < n - 1 {
          assert SpoiltAt(cmds, trace, i, n - 1);
        }
      }
    }
  }

  /** After commands that all succeeded nothing is unsaved. */
  lemma StaysClean(cmds: seq<Command>, rs: seq<Outcome>, trace: seq<Position>)
    requires IsTrace(cmds, rs, trace) && !trace[0].dirty && forall i :: 0 <= i < |cmds| ==> rs[i] == Done
    ensures !trace[|cmds|].dirty
  {
    hide Cleans, Changes, Standing, Answer, Stops;
    DirtyWhen(cmds, rs, trace, |cmds|);
    forall i: nat | i < |cmds| ensures !SpoiltAt(cmds, trace, i, |cmds|) {
      assert Follows(trace[i], cmds[i], rs[i], trace[i + 1]);
    }
  }

  /**
   * `checkfs` after any session: it comes back, and finds nothing wrong, exactly when the current directory has no
   * unsaved changes; so it does when every command of the session succeeded.
   */
  method SessionThenCheck(device: Device, cmds: seq<Command>)
    returns (n: nat, r: Outcome, sound: bool, ghost rs: seq<Outcome>, ghost trace: seq<Position>)
    requires device.Valid() && device.s.pending == [] && forall i :: 0 <= i < |cmds| ==> WfCommand(cmds[i])
    modifies device
    ensures n <= |cmds| && IsTrace(cmds[..n], rs, trace) && IsStart(trace[0])
    ensures n < |cmds| ==> EndsAt(cmds, n, trace[n], r)
    ensures n == |cmds| ==> (r == Done && sound <==> !trace[n].dirty) && (r == Done || r == Aborted(CleanOnPut))
    ensures n == |cmds| && (forall i :: 0 <= i < |rs| ==> rs[i] == Done) ==> r == Done && sound
  {
    hide Context.InTree, Context.Struct, Context.CachedLive, Context.MapsSaved, Context.W, WfCommand, Follows;
    hide SuperBlock.Valid, JustMade;
    hide TableSaved;
    var c;
    c, n, r, rs, trace := Session(device, cmds);
    sound := false;
    if n == |cmds| {
      Where(c);
      BetweenCommands(c);
      ghost var w := c.W();
      var bad, inodesOk, blocksOk, nrInodes, nrBlocks;
      r, bad, inodesOk, blocksOk, nrInodes, nrBlocks := CmdCheckfs(c, w);
      sound := bad == [] && inodesOk && blocksOk;
      if r == Done {
        NothingWrong(w, bad);
      }
      if forall i :: 0 <= i < |rs| ==> rs[i] == Done {
        StaysClean(cmds[..n], rs, trace);
      }
    }
  }
}
