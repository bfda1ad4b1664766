/** What the commands of the shell answer and do, said in full: over records, names, bytes and blocks. */
module Effects {
  import opened Bytes
  import opened Layout
  import opened Volume
  import Bits = Bitmap
  import opened Super
  import opened Steps
  import opened Inodes
  import opened World
  import opened Dirents
  import opened Tree
  import opened DirOps
  import opened FileOps
  import opened Contexts
  import opened Commands
  import opened WriteCommand
  import opened Mounting
  import opened Shell
  import Alternate
  import opened Batch
  import opened Bench

  /** The shell may stand here, and the directories are a tree. */
  ghost predicate InOrder(p: Position, sh: Shape) {
    Standing(p) && TreeOk(FilesOf(p.w), sh)
  }

  /** Record `k` is live and has this name. */
  predicate Named(ds: seq<Dirent>, k: int, name: seq<byte>) {
    0 <= k < |ds| && ds[k].nr >= 0 && ds[k].name == name
  }

  /** A name leads to the number in its record, of which there is at most one. */
  lemma NumberOf(files: Files, sh: Shape, d: nat, name: seq<byte>)
    requires TreeOk(files, sh) && IsDir(files, d)
    ensures IsLog(files[d].bytes)
    ensures NrOf(Entries(files, d), name) < 0 <==> forall k :: !Named(Entries(files, d), k, name)
    ensures NrOf(Entries(files, d), name) < 0 ==> NrOf(Entries(files, d), name) == -2
    ensures forall k :: Named(Entries(files, d), k, name) ==>
      FindFrom(Entries(files, d), name, 0) == k && NrOf(Entries(files, d), name) == Entries(files, d)[k].nr
        && Entries(files, d)[k].nr in files
  {
    hide Parse, IsLog, FindFrom, NrOf, Entries, TreeOk;
    NamesLive(files, sh, d, name);
    SearchNames(Entries(files, d), name);
    forall k | Named(Entries(files, d), k, name)
      ensures FindFrom(Entries(files, d), name, 0) == k && NrOf(Entries(files, d), name) == Entries(files, d)[k].nr
    {
      SearchFinds(files, sh, d, name, k);
    }
  }

  lemma SearchNames(ds: seq<Dirent>, name: seq<byte>)
    ensures NrOf(ds, name) < 0 <==> forall k :: !Named(ds, k, name)
    ensures NrOf(ds, name) < 0 ==> NrOf(ds, name) == -2
  {
    FindNone(ds, name);
    assert forall k :: Named(ds, k, name) <==> 0 <= k < |ds| && Live(ds[k]) && ds[k].name == name;
  }

  lemma SearchFinds(files: Files, sh: Shape, d: nat, name: seq<byte>, k: int)
    requires TreeOk(files, sh) && IsDir(files, d) && Named(Entries(files, d), k, name)
    ensures FindFrom(Entries(files, d), name, 0) == k && NrOf(Entries(files, d), name) == Entries(files, d)[k].nr
  {
    hide Parse, IsLog, FindFrom, NrOf;
    assert NodeOk(files, sh, d);
    FindIs(Entries(files, d), name, k);
  }

  /** The two leading records: the directory itself, and its parent. */
  lemma LeadingNames(files: Files, sh: Shape, d: nat)
    requires TreeOk(files, sh) && IsDir(files, d)
    ensures IsDir(files, 0) && NodeOk(files, sh, d) && IsDir(files, sh.parent[d])
    ensures NrOf(Entries(files, d), [46, 0]) == d && NrOf(Entries(files, d), [46, 46, 0]) == sh.parent[d]
  {
    hide IsLog, Parse, NrOf;
    assert NodeOk(files, sh, 0);
    DotDotIsParent(files, sh, d);
    FindIs(Entries(files, d), DOT, 0);
  }

  // cd

  /** `cd /` goes to the root, `cd ..` to the parent, and `cd .` nowhere. */
  lemma CdKnown(p: Position, sh: Shape, p': Position)
    requires InOrder(p, sh) && !p.dirty
    ensures Answer(p, Cd([47, 0])) == Answer(p, Cd([46, 46, 0])) == Answer(p, Cd([46, 0])) == Done
    ensures !Stops(p, Cd([47, 0])) && !Stops(p, Cd([46, 46, 0])) && !Stops(p, Cd([46, 0]))
    ensures Follows(p, Cd([47, 0]), Done, p') ==> p' == Position(p.w, 0, false)
    ensures p.cur in sh.parent
    ensures Follows(p, Cd([46, 46, 0]), Done, p') ==> p' == Position(p.w, sh.parent[p.cur], false)
    ensures Follows(p, Cd([46, 0]), Done, p') ==> p' == p
  {
    hide BlocksConsistent, FilesOf, TreeOk, NrOf, Parse, Cleared;
    LeadingNames(FilesOf(p.w), sh, p.cur);
  }

  /** Any other name leads into the directory that its record names, when there is one. */
  lemma CdNamed(p: Position, sh: Shape, name: seq<byte>, k: int, p': Position)
    requires InOrder(p, sh) && name != [47, 0]
    ensures (forall j :: !Named(Entries(FilesOf(p.w), p.cur), j, name)) ==> Answer(p, Cd(name)) == Failed(ENOENT)
    ensures Named(Entries(FilesOf(p.w), p.cur), k, name) ==>
      var nr := Entries(FilesOf(p.w), p.cur)[k].nr;
      && nr in FilesOf(p.w)
      && Answer(p, Cd(name)) == (if FilesOf(p.w)[nr].typ != I_DIR then Failed(ENOTDIR)
                                 else if p.dirty then Aborted(CleanOnPut) else Done)
      && (Follows(p, Cd(name), Done, p') ==> p' == Position(p.w, nr, false))
  {
    hide BlocksConsistent, FilesOf, TreeOk, NrOf, Parse, Cleared;
    NumberOf(FilesOf(p.w), sh, p.cur, name);
  }

  // rm

  /** The dinode has an indirect block although its size needs none, which only a failed write leaves behind. */
  predicate Leaked(w: World, nr: int) {
    0 <= nr < NR_INODES && w.inodes[nr].size <= 2048 && w.inodes[nr].indirect != 0
  }

  /** Some live record has another name than `.` and `..`. */
  ghost predicate NamesMore(ds: seq<Dirent>) {
    exists k, name :: Named(ds, k, name) && name != [46, 0] && name != [46, 46, 0]
  }

  /**
   * What `rm` answers: no name leads out of a directory that still names something besides itself and its parent, and
   * every other name can be removed.
   */
  lemma RmAnswers(p: Position, sh: Shape, name: seq<byte>, k: int)
    requires InOrder(p, sh)
    ensures name == [46, 0] || name == [46, 46, 0] ==> Answer(p, Rm(name)) == Failed(EINVAL)
    ensures name != [46, 0] && name != [46, 46, 0] && (forall j :: !Named(Entries(FilesOf(p.w), p.cur), j, name)) ==>
      Answer(p, Rm(name)) == Failed(ENOENT)
    ensures name != [46, 0] && name != [46, 46, 0] && Named(Entries(FilesOf(p.w), p.cur), k, name) ==>
      var nr, files := Entries(FilesOf(p.w), p.cur)[k].nr, FilesOf(p.w);
      && nr in files
      && Answer(p, Rm(name)) == if IsDir(files, nr) && NamesMore(Entries(files, nr)) then Failed(ENOTEMPTY)
                                else if Leaked(p.w, nr) then Aborted(NoIndirect) else Done
  {
    hide BlocksConsistent, FilesOf, TreeOk, NrOf, Parse, Empty, DanglingAt, FindFrom;
    var files := FilesOf(p.w);
    NumberOf(files, sh, p.cur, name);
    if Named(Entries(files, p.cur), k, name) {
      var nr := Entries(files, p.cur)[k].nr;
      EmptyWhen(files, sh, nr);
      LeakedWhen(p.w, nr);
    }
  }

  lemma EmptyWhen(files: Files, sh: Shape, nr: nat)
    requires TreeOk(files, sh) && nr in files
    ensures Empty(files, nr) <==> !(IsDir(files, nr) && NamesMore(Entries(files, nr)))
  {
    hide Parse, TreeOk, IsLog;
    if IsDir(files, nr) {
      OthersAreChildren(files, sh, nr);
      var ds := Entries(files, nr);
      forall k | IsChildAt(ds, k) ensures NamesMore(ds) {
        assert Named(ds, k, ds[k].name);
      }
      if k, name :| Named(ds, k, name) && name != [46, 0] && name != [46, 46, 0] {
        assert NamesOther(ds[k]) && IsChildAt(ds, k);
      }
    }
  }

  lemma LeakedWhen(w: World, nr: nat)
    requires BlocksConsistent(w) && nr in FilesOf(w)
    ensures DanglingAt(w, nr) <==> Leaked(w, nr)
  {
    hide Sound, Contents;
    SizeKnown(w, nr);
  }

  /** Two maps of files agree but for these two. */
  ghost predicate SameBut(files: Files, files': Files, a: nat, b: nat) {
    forall x: nat :: x != a && x != b ==> (x in files' <==> x in files) && (x in files ==> files'[x] == files[x])
  }

  /** `rm` makes a tombstone of the record, and takes the inode away; nothing else changes, and the name is gone. */
  lemma RmDoes(p: Position, sh: Shape, name: seq<byte>, p': Position) returns (k: nat, nr: nat)
    requires InOrder(p, sh) && Follows(p, Rm(name), Done, p')
    ensures Named(Entries(FilesOf(p.w), p.cur), k, name) && nr == Entries(FilesOf(p.w), p.cur)[k].nr
    ensures nr in FilesOf(p.w) && nr !in FilesOf(p'.w) && nr != p.cur && p'.cur == p.cur && !p'.dirty
    ensures SameBut(FilesOf(p.w), FilesOf(p'.w), p.cur, nr) && IsDir(FilesOf(p'.w), p.cur)
    ensures Entries(FilesOf(p'.w), p.cur) == Entries(FilesOf(p.w), p.cur)[k := Dirent(name, -1)]
    ensures TreeOk(FilesOf(p'.w), sh) && forall j :: !Named(Entries(FilesOf(p'.w), p.cur), j, name)
  {
    hide BlocksConsistent, FilesOf, TreeOk, NrOf, Parse, Empty, FindFrom, Log, IsLog, Cleared, LogOk, NodeOk;
    var files := FilesOf(p.w);
    var ds := Entries(files, p.cur);
    NumberOf(files, sh, p.cur, name);
    RmKeepsTree(files, sh, p.cur, name);
    RemovedName(files, sh, p.cur, name);
    k, nr := FindFrom(ds, name, 0), NrOf(ds, name);
    assert Named(ds, k, name);
    UnnamedIs(files, sh, p.cur, name, k);
  }

  lemma UnnamedIs(files: Files, sh: Shape, d: nat, name: seq<byte>, k: nat)
    requires TreeOk(files, sh) && IsDir(files, d) && Named(Entries(files, d), k, name)
    requires k == FindFrom(Entries(files, d), name, 0)
    ensures IsLog(files[d].bytes) && NrOf(Entries(files, d), name) >= 0
    ensures Entries(Unnamed(files, d, name), d) == Entries(files, d)[k := Dirent(name, -1)]
    ensures var es := Entries(files, d)[k := Dirent(name, -1)]; forall j :: !Named(es, j, name)
  {
    hide Parse, Log, FindFrom;
    assert NodeOk(files, sh, d);
    ParseLog(Entries(files, d)[k := Dirent(name, -1)]);
    NoneLeft(Entries(files, d), k, name);
  }

  lemma NoneLeft(ds: seq<Dirent>, k: nat, name: seq<byte>)
    requires UniqueNames(ds) && Named(ds, k, name)
    ensures var es := ds[k := Dirent(name, -1)]; forall j :: !Named(es, j, name)
  {
  }

  // touch and mkdir

  function Making(isDir: bool, name: seq<byte>): Command {
    if isDir then Mkdir(name) else Touch(name)
  }

  /** The first tombstone whose name has this length, or the end of the log. */
  ghost predicate IsSlot(ds: seq<Dirent>, len: nat, k: nat) {
    && k <= |ds| && (k < |ds| ==> ds[k].nr < 0 && |ds[k].name| == len)
    && forall j :: 0 <= j < k ==> ds[j].nr >= 0 || |ds[j].name| != len
  }

  /** Number `nr` is free, and no number before it is. */
  ghost predicate IsLeast(live: seq<bool>, nr: nat) {
    nr < |live| && !live[nr] && forall i :: 0 <= i < nr ==> live[i]
  }

  /**
   * `touch` and `mkdir` take the least free number for an empty file, or for a directory with its two records, and put
   * a record for it into the first tombstone of the same length, or at the end. Nothing else changes.
   */
  lemma CreateDoes(p: Position, sh: Shape, isDir: bool, name: seq<byte>, p': Position)
    returns (nr: nat, k: nat, sh': Shape)
    requires InOrder(p, sh) && Follows(p, Making(isDir, name), Done, p')
    ensures nr < NR_INODES && IsLeast(p.w.live, nr) && nr !in FilesOf(p.w) && nr in FilesOf(p'.w)
    ensures forall j :: !Named(Entries(FilesOf(p.w), p.cur), j, name)
    ensures IsDir(FilesOf(p'.w), p.cur) && IsSlot(Entries(FilesOf(p.w), p.cur), |name|, k)
    ensures var ds := Entries(FilesOf(p.w), p.cur);
            Entries(FilesOf(p'.w), p.cur) == if k < |ds| then ds[k := Dirent(name, nr)] else ds + [Dirent(name, nr)]
    ensures !isDir ==> FilesOf(p'.w)[nr] == Node(I_FILE, [])
    ensures isDir ==> IsDir(FilesOf(p'.w), nr)
    ensures isDir ==> Entries(FilesOf(p'.w), nr) == [Dirent([46, 0], nr), Dirent([46, 46, 0], p.cur)]
    ensures SameBut(FilesOf(p.w), FilesOf(p'.w), p.cur, nr) && p'.cur == p.cur && !p'.dirty
    ensures InOrder(p', sh')
  {
    hide BlocksConsistent, FilesOf, TreeOk, NrOf, Parse, FindFrom, Log, IsLog, Cleared, LogOk, NodeOk, Added, AddFrom;
    hide CreateOutcome, UniqueNames;
    var files, typ := FilesOf(p.w), if isDir then I_DIR else I_FILE;
    NumberOf(files, sh, p.cur, name);
    NotNamedBefore(p, isDir, name);
    nr, k := Bits.FirstClear(p.w.live, 0), AddFrom(Entries(files, p.cur), name, 0);
    NewNumber(p.w, nr);
    CreatedMeans(files, sh, p.cur, name, nr, NewNode(typ, nr, p.cur), isDir);
    DirNode(files, sh, p.cur);
    sh' := ShapeWith(sh, p.cur, nr);
  }

  lemma NewNumber(w: World, nr: nat)
    requires BlocksConsistent(w) && nr == Bits.FirstClear(w.live, 0) < NR_INODES
    ensures IsLeast(w.live, nr) && nr !in FilesOf(w)
  {
    hide LiveSound, Owned;
  }

  lemma NotNamedBefore(p: Position, isDir: bool, name: seq<byte>)
    requires Standing(p) && Answer(p, Making(isDir, name)) == Done
    ensures NrOf(Entries(FilesOf(p.w), p.cur), name) < 0
  {
    hide BlocksConsistent, FilesOf, Parse, NrOf, AddOutcome, FirstOutcome, OneLess;
  }

  lemma CreatedMeans(files: Files, sh: Shape, d: nat, name: seq<byte>, nr: nat, node: Node, isDir: bool)
    requires TreeOk(files, sh) && IsDir(files, d) && IsLog(files[d].bytes) && NrOf(Entries(files, d), name) < 0
    requires nr !in files && nr < 0x8000_0000 && d < 0x8000_0000 && IsName(name)
    requires node == if isDir then Node(I_DIR, Log(EmptyDir(nr, d))) else Node(I_FILE, [])
    ensures var files', ds := Created(files, d, name, nr, node), Entries(files, d);
            var k := AddFrom(ds, name, 0);
            && IsSlot(ds, |name|, k) && nr != d && IsDir(files', d) && nr in files' && files'[nr] == node
            && Entries(files', d) == (if k < |ds| then ds[k := Dirent(name, nr)] else ds + [Dirent(name, nr)])
            && (isDir ==> Entries(files', nr) == [Dirent([46, 0], nr), Dirent([46, 46, 0], d)])
            && SameBut(files, files', d, nr) && d in sh.depth && TreeOk(files', ShapeWith(sh, d, nr))
  {
    hide Parse, TreeOk, NrOf, LogOk, Log, AddFrom, IsSlot, NodeOk, Created, IsLog, SameBut;
    DirNode(files, sh, d);
    CreateOk(files, sh, d, name, nr, node);
    FoundSlot(Entries(files, d), name);
    CreatedFiles(files, d, name, nr, node);
    ParseLog(EmptyDir(nr, d));
  }

  lemma CreatedFiles(files: Files, d: nat, name: seq<byte>, nr: nat, node: Node)
    requires IsDir(files, d) && IsLog(files[d].bytes) && nr !in files && nr < 0x8000_0000 && IsName(name)
    ensures var files' := Created(files, d, name, nr, node);
            && nr != d && IsDir(files', d) && nr in files' && files'[nr] == node && SameBut(files, files', d, nr)
            && Entries(files', d) == Added(Entries(files, d), name, nr)
  {
    hide Parse, Log, Added;
    AddedWf(Entries(files, d), name, nr);
    ParseLog(Added(Entries(files, d), name, nr));
  }

  lemma FoundSlot(ds: seq<Dirent>, name: seq<byte>)
    requires NrOf(ds, name) < 0
    ensures IsSlot(ds, |name|, AddFrom(ds, name, 0))
  {
    hide NrOf;
    FindNone(ds, name);
  }

  lemma DirNode(files: Files, sh: Shape, d: nat)
    requires TreeOk(files, sh) && d in files
    ensures NodeOk(files, sh, d) && d in sh.depth
  {
  }

  /** What is left of the room when a new directory has got its block. */
  function RoomLess(room: Room, isDir: bool): Room
    requires isDir ==> room.free > 0 && room.slots > 0
  {
    if isDir then Room(room.free - 1, room.slots - 1) else room
  }

  /**
   * What `touch` and `mkdir` answer. A name that is there already, no number, and for `mkdir` no block with a slot,
   * each rule it out; else it goes through if there is a tombstone to put the record in, and otherwise just as writing
   * the record behind the last one does.
   */
  lemma CreateAnswers(p: Position, sh: Shape, isDir: bool, name: seq<byte>, nr: nat, k: nat)
    requires InOrder(p, sh)
    requires (nr == NR_INODE_BITS && forall i :: 0 <= i < NR_INODE_BITS ==> p.w.live[i]) || IsLeast(p.w.live, nr)
    requires IsSlot(Entries(FilesOf(p.w), p.cur), |name|, k)
    ensures var files, r, room := FilesOf(p.w), Answer(p, Making(isDir, name)), RoomOf(p.w.vol);
            var ds, size := Entries(files, p.cur), |files[p.cur].bytes|;
            var last := (size + 8 + |name| - 1) / 512;
            if exists j :: Named(ds, j, name) then r == Failed(EEXIST)
            else if nr == NR_INODE_BITS then r == Failed(ENOSPC)
            else if nr >= NR_INODES then r == Aborted(InodeSlot)
            else if isDir && room.free == 0 then r == Failed(ENOSPC)
            else if isDir && room.slots == 0 then r == Aborted(CsumSlot)
            else if k < |ds| then r == Done
            else r == WriteOutcome(size, p.w.inodes[p.cur].indirect != 0, last, RoomLess(room, isDir))
  {
    hide BlocksConsistent, FilesOf, TreeOk, NrOf, Parse, WriteOutcome, AddFrom, Bits.Zeros, Slots, Bits.FirstClear;
    var ds := Entries(FilesOf(p.w), p.cur);
    NumberOf(FilesOf(p.w), sh, p.cur, name);
    Bits.FirstClearIs(p.w.live, nr);
    if forall j :: !Named(ds, j, name) {
      SlotFound(ds, name, k);
    }
  }

  lemma SlotFound(ds: seq<Dirent>, name: seq<byte>, k: nat)
    requires IsSlot(ds, |name|, k) && forall j :: !Named(ds, j, name)
    ensures AddFrom(ds, name, 0) == k
  {
    SearchNames(ds, name);
    FindNone(ds, name);
  }

  /**
   * A directory that was just made can be removed, and that undoes it: the same files are there as before, and all but
   * the directory it was made in are as they were.
   */
  lemma MkdirThenRm(p: Position, sh: Shape, name: seq<byte>, p1: Position, p2: Position)
    requires InOrder(p, sh) && Follows(p, Mkdir(name), Done, p1)
    ensures Standing(p1) && Answer(p1, Rm(name)) == Done && !Stops(p1, Rm(name))
    ensures Follows(p1, Rm(name), Done, p2) ==>
      && FilesOf(p2.w).Keys == FilesOf(p.w).Keys
      && (forall x :: x in FilesOf(p.w) && x != p.cur ==> FilesOf(p2.w)[x] == FilesOf(p.w)[x])
      && IsDir(FilesOf(p2.w), p.cur) && forall j :: !Named(Entries(FilesOf(p2.w), p.cur), j, name)
  {
    hide BlocksConsistent, FilesOf, TreeOk, NrOf, Parse, Answer, Follows, IsLeast;
    var nr, k, sh1 := CreateDoes(p, sh, true, name, p1);
    NewIsEmpty(p, sh, name, p1, sh1, nr, k);
    if Follows(p1, Rm(name), Done, p2) {
      var k2, nr2 := RmDoes(p1, sh1, name, p2);
      NumberOf(FilesOf(p1.w), sh1, p.cur, name);
    }
  }

  /** The record of the new directory is found, and it has none of its own besides the two leading ones. */
  lemma NewIsEmpty(p: Position, sh: Shape, name: seq<byte>, p1: Position, sh1: Shape, nr: nat, k: nat)
    requires InOrder(p, sh) && InOrder(p1, sh1) && p1.cur == p.cur && nr < NR_INODES && IsDir(FilesOf(p1.w), nr)
    requires forall j :: !Named(Entries(FilesOf(p.w), p.cur), j, name)
    requires Entries(FilesOf(p1.w), nr) == [Dirent([46, 0], nr), Dirent([46, 46, 0], p.cur)]
    requires var ds := Entries(FilesOf(p.w), p.cur);
             && k <= |ds|
             && Entries(FilesOf(p1.w), p.cur) == if k < |ds| then ds[k := Dirent(name, nr)] else ds + [Dirent(name, nr)]
    ensures Named(Entries(FilesOf(p1.w), p.cur), k, name) && Entries(FilesOf(p1.w), p.cur)[k].nr == nr
    ensures Answer(p1, Rm(name)) == Done
  {
    hide BlocksConsistent, FilesOf, TreeOk, NrOf, Parse, Answer;
    LeadingNames(FilesOf(p.w), sh, p.cur);
    NumberOf(FilesOf(p.w), sh, p.cur, [46, 0]);
    NumberOf(FilesOf(p.w), sh, p.cur, [46, 46, 0]);
    RmAnswers(p1, sh1, name, k);
    assert !NamesMore(Entries(FilesOf(p1.w), nr));
    LogOf(FilesOf(p1.w), sh1, nr);
    SmallDir(p1.w, nr, p.cur);
  }

  lemma LogOf(files: Files, sh: Shape, d: nat)
    requires TreeOk(files, sh) && IsDir(files, d)
    ensures IsLog(files[d].bytes)
  {
    hide IsLog, Parse;
    assert NodeOk(files, sh, d);
  }

  lemma SmallDir(w: World, nr: nat, parent: nat)
    requires BlocksConsistent(w) && IsDir(FilesOf(w), nr) && IsLog(FilesOf(w)[nr].bytes)
    requires nr < 0x8000_0000 && parent < 0x8000_0000
    requires Entries(FilesOf(w), nr) == [Dirent([46, 0], nr), Dirent([46, 46, 0], parent)]
    ensures !Leaked(w, nr)
  {
    hide BlocksConsistent, FilesOf, Parse, Log;
    assert Entries(FilesOf(w), nr) == EmptyDir(nr, parent);
    NewNodeSmall(I_DIR, nr, parent);
    SmallInode(w, nr);
  }

  // owrite and write

  /** The record leads to a plain file. */
  ghost predicate NamesFile(files: Files, ds: seq<Dirent>, k: int, name: seq<byte>) {
    Named(ds, k, name) && ds[k].nr in files && files[ds[k].nr].typ == I_FILE
  }

  /**
   * After `owrite` the file has its old bytes up to the offset, and behind them the content and nothing else, however
   * large it was; when the write could not be completed, it has its old size. No other file changes.
   */
  lemma OwriteDoes(p: Position, sh: Shape, name: seq<byte>, offset: LongOffset, content: seq<byte>, r: Outcome,
      p': Position) returns (k: nat, nr: nat)
    requires InOrder(p, sh) && Follows(p, Owrite(name, offset, content), r, p')
    requires r == Done || exists j :: NamesFile(FilesOf(p.w), Entries(FilesOf(p.w), p.cur), j, name)
    ensures NamesFile(FilesOf(p.w), Entries(FilesOf(p.w), p.cur), k, name) && nr == Entries(FilesOf(p.w), p.cur)[k].nr
    ensures p'.cur == p.cur && Start(offset) <= |FilesOf(p.w)[nr].bytes|
    ensures offset < 0x8000_0000 ==> offset < 0 || Start(offset) == offset
    ensures r == Done ==>
      FilesOf(p'.w) == FilesOf(p.w)[nr := Node(I_FILE, FilesOf(p.w)[nr].bytes[..Start(offset)] + content)]
    ensures r != Done ==>
      var bytes := FilesOf(p.w)[nr].bytes;
      && |bytes| <= Start(offset) + |content|
      && FilesOf(p'.w) == FilesOf(p.w)[nr := Node(I_FILE, bytes[..Start(offset)] + content[..|bytes| - Start(offset)])]
  {
    hide BlocksConsistent, FilesOf, TreeOk, NrOf, Parse, Cleared, OverwriteOutcome, FindFrom;
    var files := FilesOf(p.w);
    NumberOf(files, sh, p.cur, name);
    k, nr := FindFrom(Entries(files, p.cur), name, 0), NrOf(Entries(files, p.cur), name);
    NamedThere(Entries(files, p.cur), name);
  }

  lemma NamedThere(ds: seq<Dirent>, name: seq<byte>)
    requires NrOf(ds, name) >= 0
    ensures Named(ds, FindFrom(ds, name, 0), name) && ds[FindFrom(ds, name, 0)].nr == NrOf(ds, name)
  {
  }

  /** After `write` the file has the content and nothing else. No other file changes. */
  lemma ReplaceDoes(p: Position, sh: Shape, name: seq<byte>, content: seq<byte>, p': Position)
    returns (k: nat, nr: nat)
    requires InOrder(p, sh) && Follows(p, Replace(name, content), Done, p')
    ensures NamesFile(FilesOf(p.w), Entries(FilesOf(p.w), p.cur), k, name) && nr == Entries(FilesOf(p.w), p.cur)[k].nr
    ensures p'.cur == p.cur && FilesOf(p'.w) == FilesOf(p.w)[nr := Node(I_FILE, content)]
  {
    hide BlocksConsistent, FilesOf, TreeOk, NrOf, Parse, Cleared, ReplaceOutcome, FindFrom;
    var files := FilesOf(p.w);
    NumberOf(files, sh, p.cur, name);
    k, nr := FindFrom(Entries(files, p.cur), name, 0), NrOf(Entries(files, p.cur), name);
    FileTypes(p.w, nr);
    NamedThere(Entries(files, p.cur), name);
  }

  /** A position where a session stands knows the type of its files. */
  lemma FileTypes(w: World, nr: nat)
    requires BlocksConsistent(w) && nr in FilesOf(w)
    ensures FilesOf(w)[nr].typ == I_FILE || FilesOf(w)[nr].typ == I_DIR
    ensures nr < NR_INODES && w.inodes[nr].size == |FilesOf(w)[nr].bytes|
  {
    hide Sound, Contents;
    SizeKnown(w, nr);
  }

  /** What `owrite` answers, given how the write of its file ends. */
  lemma OwriteAnswers(p: Position, sh: Shape, name: seq<byte>, offset: LongOffset, content: seq<byte>, k: int)
    requires InOrder(p, sh) && content != []
    ensures var files, ds := FilesOf(p.w), Entries(FilesOf(p.w), p.cur);
            var r, start := Answer(p, Owrite(name, offset, content)), Start(offset);
            && ((forall j :: !Named(ds, j, name)) ==> r == Failed(ENOENT))
            && (Named(ds, k, name) ==>
                 var nr := ds[k].nr;
                 && nr in files && nr < NR_INODES
                 && if files[nr].typ == I_DIR then
                      r == if nr == p.cur && p.dirty then Aborted(CleanOnPut) else Failed(EISDIR)
                    else
                      var size, last := |files[nr].bytes|, (start + |content| - 1) / 512;
                      var o := WriteOutcome(size, p.w.inodes[nr].indirect != 0, last, RoomOf(p.w.vol));
                      r == if start > size then Aborted(WithinSize)
                           else if o == Done && Leaked(p.w, nr) && start + |content| < size then Aborted(NoIndirect)
                           else o)
  {
    hide BlocksConsistent, FilesOf, TreeOk, NrOf, Parse, WriteOutcome, FindFrom, Bits.Zeros, Slots;
    var ds := Entries(FilesOf(p.w), p.cur);
    NumberOf(FilesOf(p.w), sh, p.cur, name);
    if Named(ds, k, name) {
      FileTypes(p.w, ds[k].nr);
    }
  }

  /** What `write` answers, given how the write of its file ends. */
  lemma ReplaceAnswers(p: Position, sh: Shape, name: seq<byte>, content: seq<byte>, k: int)
    requires InOrder(p, sh) && content != []
    ensures var files, ds, r := FilesOf(p.w), Entries(FilesOf(p.w), p.cur), Answer(p, Replace(name, content));
            && ((forall j :: !Named(ds, j, name)) ==> r == Failed(ENOENT))
            && (Named(ds, k, name) ==>
                 var nr := ds[k].nr;
                 && nr in files && nr < NR_INODES
                 && if files[nr].typ == I_DIR then
                      r == if nr == p.cur && p.dirty then Aborted(CleanOnPut) else Failed(EISDIR)
                    else
                      var size, last, room := |files[nr].bytes|, (|content| - 1) / 512, RoomOf(p.w.vol);
                      var o := Alternate.AltOutcome(size, p.w.inodes[nr].indirect != 0, last, room);
                      r == if o == Failed(EFBIG) || (o == Failed(ENOSPC) && room.free == 0) then Aborted(DirtyOnSync)
                           else if o == Done && Leaked(p.w, nr) && |content| < size then Aborted(NoIndirect)
                           else o)
  {
    hide BlocksConsistent, FilesOf, TreeOk, NrOf, Parse, Alternate.AltOutcome, FindFrom, Bits.Zeros, Slots;
    var ds := Entries(FilesOf(p.w), p.cur);
    NumberOf(FilesOf(p.w), sh, p.cur, name);
    if Named(ds, k, name) {
      FileTypes(p.w, ds[k].nr);
    }
  }

  /** Blocks that growing a file from `n` to `m` blocks takes, with the indirect block that comes with the fifth. */
  function Taking(indirect: bool, n: int, m: int): int {
    m - n + if m > 4 && !indirect then 1 else 0
  }

  /** When a file of `n` blocks grows, the blocks that its block `l` takes can be had, but not all have a slot. */
  predicate LacksSlot(indirect: bool, n: int, l: int, room: Room) {
    room.slots < Taking(indirect, n, l + 1) <= room.free
  }

  /**
   * How a write of `len` bytes from `start` on ends: for lack of blocks it needs all of those that the range takes and
   * the file does not have yet, each with a slot in the checksum table.
   */
  lemma WriteEndsWhen(size: nat, indirect: bool, start: nat, len: nat, room: Room)
    requires size <= 512 * NR_MAPPED && (size > 2048 ==> indirect) && room.slots <= room.free && len > 0
    ensures var n := (size + 511) / 512;
            var m := Max(n, Min((start + len + 511) / 512, NR_MAPPED));
            var r := WriteOutcome(size, indirect, (start + len - 1) / 512, room);
            && (r == Done <==> start + len <= 512 * NR_MAPPED && room.slots >= Taking(indirect, n, m))
            && (r == Failed(EFBIG) <==> start + len > 512 * NR_MAPPED && room.slots >= Taking(indirect, n, m))
            && (r == Aborted(CsumSlot) <==> exists l :: n <= l < m && LacksSlot(indirect, n, l, room))
            && (r == Done || r == Failed(EFBIG) || r == Aborted(CsumSlot) || r == Failed(ENOSPC)
                || r == Aborted(NoIndirect))
  {
    var n, k := (size + 511) / 512, FailsAt((size + 511) / 512, indirect, room.slots);
    var m := Max(n, Min((start + len + 511) / 512, NR_MAPPED));
    assert Taking(indirect, n, k + 1) == Cost(indirect, n, k + 1);
    if k < m && Cost(indirect, n, k + 1) <= room.free {
      assert n <= k < m && LacksSlot(indirect, n, k, room);
    }
  }

  /** On the alternate path the data block is taken before the indirect block, which needs no slot. */
  predicate DataLacksSlot(indirect: bool, n: int, l: int, room: Room) {
    room.slots < l + 1 - n + (if l > 4 && !indirect then 1 else 0) && Taking(indirect, n, l + 1) <= room.free
  }

  /** How a write through the alternate path ends. */
  lemma AlternateEndsWhen(size: nat, indirect: bool, len: nat, room: Room)
    requires size <= 512 * NR_MAPPED && (size > 2048 ==> indirect) && room.slots <= room.free && len > 0
    ensures var n := (size + 511) / 512;
            var m := Max(n, (len + 511) / 512);
            var r := Alternate.AltOutcome(size, indirect, (len - 1) / 512, room);
            if len > 512 * NR_MAPPED then r == Failed(EFBIG)
            else if exists l :: n <= l < m && DataLacksSlot(indirect, n, l, room) then r == Aborted(CsumSlot)
            else r == if room.free >= Taking(indirect, n, m) then Done else Failed(ENOSPC)
  {
    var n, k := (size + 511) / 512, Alternate.AltFailsAt((size + 511) / 512, indirect, room.slots);
    var m := Max(n, (len + 511) / 512);
    assert Taking(indirect, n, k + 1) == Cost(indirect, n, k + 1);
    if k < m && Cost(indirect, n, k + 1) <= room.free {
      assert n <= k < m && DataLacksSlot(indirect, n, k, room);
    }
  }

  // What is on the device

  /** Where a byte of a file is: in a block that a direct slot names, or else a word of the indirect block. */
  lemma ByteOnDevice(disk: Disk, d: DInode, pos: nat)
    requires WfInode(disk, d) && pos < d.size
    ensures pos < 2048 ==> IsData(d.direct[pos / 512])
    ensures pos < 2048 ==> Contents(disk, d)[pos] == disk[d.direct[pos / 512]][pos % 512]
    ensures pos >= 2048 ==> IsData(d.indirect) && pos / 512 - 4 < 128
    ensures pos >= 2048 ==> IsData(IntAt(disk[d.indirect], pos / 512 - 4))
    ensures pos >= 2048 ==> Contents(disk, d)[pos] == disk[IntAt(disk[d.indirect], pos / 512 - 4)][pos % 512]
  {
    hide IntAt;
    var l := pos / 512;
    assert IsData(Lookup(disk, d, l));
  }

  /** After a write the bytes of the range are those written, and all others those that were there. */
  lemma WroteBytesAt(v: Vol, d: DInode, start: nat, buf: seq<byte>, v': Vol, d': DInode, pos: nat)
    requires 0 <= start <= d.size && Wrote(v, d, start, buf, v', d')
    ensures d'.size == Max(d.size, start + |buf|)
    ensures pos < d'.size ==>
      Contents(v'.disk, d')[pos] == if start <= pos < start + |buf| then buf[pos - start] else Contents(v.disk, d)[pos]
  {
    hide Own, OwnStep, Mapped, CsumOk, Contents, Took;
  }

  /** After a failed write the bytes before its start are those that were there, and those behind are the new ones. */
  lemma RolledBackBytesAt(v: Vol, d: DInode, start: nat, buf: seq<byte>, v': Vol, d': DInode, pos: nat)
    requires 0 <= start <= d.size && RolledBack(v, d, start, buf, v', d')
    ensures d'.size == d.size <= start + |buf| && d'.direct == d.direct
    ensures pos < d.size ==>
      Contents(v'.disk, d')[pos] == if pos < start then Contents(v.disk, d)[pos] else buf[pos - start]
  {
    hide Own, OwnStep, Mapped, CsumOk, Contents;
  }

  /** What was allocated at one time in a session and is free at a later one is full of zeroes. */
  lemma {:induction false} ClearedOver(cmds: seq<Command>, rs: seq<Outcome>, trace: seq<Position>, i: nat, j: nat)
    requires IsTrace(cmds, rs, trace) && i <= j <= |cmds|
    ensures Cleared(trace[i].w.vol, trace[j].w.vol)
    decreases j
  {
    hide Cleared, Standing, Changes, Spoils, Cleans, Answer, Stops;
    if i < j {
      ClearedOver(cmds, rs, trace, i, j - 1);
      assert Follows(trace[j - 1], cmds[j - 1], rs[j - 1], trace[j]);
      ClearedTrans(trace[i].w.vol, trace[j - 1].w.vol, trace[j].w.vol);
    } else {
      ClearedSame(trace[i].w.vol, trace[i].w.vol);
    }
  }

  lemma FreedBlocksAreZero(cmds: seq<Command>, rs: seq<Outcome>, trace: seq<Position>, i: nat, j: nat, p: int)
    requires IsTrace(cmds, rs, trace) && i <= j <= |cmds|
    requires IsData(p) && trace[i].w.vol.used[p - DATA_START] && !trace[j].w.vol.used[p - DATA_START]
    ensures trace[j].w.vol.disk[p] == ZERO_BLOCK
  {
    ClearedOver(cmds, rs, trace, i, j);
    FreedIsZero(trace[i].w.vol, trace[j].w.vol, p);
  }

  /** On a device that held zeroes every free block does, after any commands. */
  lemma FreeBlocksStayZero(cmds: seq<Command>, rs: seq<Outcome>, trace: seq<Position>, p: int)
    requires IsTrace(cmds, rs, trace)
    requires forall q :: IsData(q) && !IsUsed(trace[0].w.vol, q) ==> trace[0].w.vol.disk[q] == ZERO_BLOCK
    requires IsData(p) && !trace[|cmds|].w.vol.used[p - DATA_START]
    ensures trace[|cmds|].w.vol.disk[p] == ZERO_BLOCK
  {
    ClearedOver(cmds, rs, trace, 0, |cmds|);
    assert ClearedAt(trace[0].w.vol, trace[|cmds|].w.vol, p);
  }

  // Beginning, and the benchmark

  /** A file system that was just made: the root names nothing but itself, twice, and one block is taken. */
  lemma StartIs(p: Position)
    requires IsStart(p)
    ensures FilesOf(p.w).Keys == {0} && IsDir(FilesOf(p.w), 0) && p.cur == 0 && !p.dirty
    ensures Entries(FilesOf(p.w), 0) == [Dirent([46, 0], 0), Dirent([46, 46, 0], 0)]
    ensures RoomOf(p.w.vol) == Room(8191, 7679) && p.w.live[0] && forall i :: 0 < i < 4096 ==> !p.w.live[i]
  {
    hide BlocksConsistent, FilesOf, Parse, Log, Bits.Zeros, Slots;
    ParseLog(EmptyDir(0, 0));
  }

  /** A file that holds at least as many bytes as the content keeps those behind it. */
  function Front(bytes: seq<byte>, content: seq<byte>): seq<byte> {
    if |content| > 512 * NR_MAPPED then bytes
    else if |content| < |bytes| then content + bytes[|content|..]
    else content
  }

  lemma {:induction false} AllWrittenAt(files: Files, nrs: seq<nat>, buf: seq<byte>, x: nat)
    requires x in files && forall i, j :: 0 <= i < j < |nrs| ==> nrs[i] != nrs[j]
    ensures AllWritten(files, nrs, buf).Keys == files.Keys && x in AllWritten(files, nrs, buf)
    ensures AllWritten(files, nrs, buf)[x]
         == if x in nrs then Node(files[x].typ, Front(files[x].bytes, buf)) else files[x]
  {
    if nrs != [] {
      var n := |nrs| - 1;
      AllWrittenAt(files, nrs[..n], buf, x);
      assert nrs == nrs[..n] + [nrs[n]];
      assert nrs[n] !in nrs[..n];
    }
  }

  /**
   * Both benchmark sequences, when their blocks suffice, put the content over the front of every file that is named,
   * and leave all other files alone.
   */
  lemma BenchDoes(w: World, csumDirty: seq<bool>, cur: nat, names: seq<seq<byte>>, content: seq<byte>, w': World,
      x: nat)
    requires BenchOutcome(w, csumDirty, cur, names, content, true, w') && x in FilesOf(w)
    ensures FilesOf(w').Keys == FilesOf(w).Keys && x in FilesOf(w')
    ensures FilesOf(w')[x] ==
      if exists i :: 0 <= i < |names| && NrOf(Entries(FilesOf(w), cur), names[i]) == x then
        Node(FilesOf(w)[x].typ, Front(FilesOf(w)[x].bytes, content))
      else
        FilesOf(w)[x]
  {
    hide BlocksConsistent, FilesOf, AllWritten, AllWrites, SavedWorld, NrOf, Parse, Front;
    var nrs := Nrs(FilesOf(w), cur, names);
    AllWrittenAt(FilesOf(w), nrs, content, x);
    forall i | 0 <= i < |names| ensures nrs[i] == NrOf(Entries(FilesOf(w), cur), names[i]) {
    }
    if x in nrs {
      var i :| 0 <= i < |nrs| && nrs[i] == x;
      assert NrOf(Entries(FilesOf(w), cur), names[i]) == x;
    }
  }

  // Whole sessions

  /** A command that fails changes no file, unless it is an `owrite`, and neither do those that only look or move. */
  lemma FilesStay(p: Position, cmd: Command, r: Outcome, p': Position)
    requires Follows(p, cmd, r, p') && !cmd.Owrite?
    requires r != Done || cmd.Cd? || cmd.Pwd? || cmd.Checkfs? || cmd.Restart?
    ensures FilesOf(p'.w) == FilesOf(p.w)
    ensures !cmd.Cd? && !cmd.Restart? ==> p'.cur == p.cur
    ensures cmd.Restart? ==> p'.cur == 0
  {
    hide BlocksConsistent, FilesOf, NrOf, Parse, Cleared, CreateOutcome, ReplaceOutcome, CdOutcome, RmCmdOutcome;
    hide FileCreated, NameGone, Remounted, NeededSaved;
  }

  /** Every command that does not end the session leaves a tree. */
  lemma StaysTree(p: Position, sh: Shape, cmd: Command, r: Outcome, p': Position) returns (sh': Shape)
    requires InOrder(p, sh) && Follows(p, cmd, r, p')
    ensures InOrder(p', sh')
  {
    hide BlocksConsistent, FilesOf, TreeOk, NrOf, Parse, Cleared, OverwriteOutcome, ReplaceOutcome, Overwritten;
    hide CreateOutcome, AddOutcome, CdOutcome, RmOutcome, Created, Unnamed, Remounted, IsLog, Entries;
    sh' := sh;
    match cmd
    case Touch(name) =>
      if r == Done {
        var nr, k;
        nr, k, sh' := CreateDoes(p, sh, false, name, p');
      }
    case Mkdir(name) =>
      if r == Done {
        var nr, k;
        nr, k, sh' := CreateDoes(p, sh, true, name, p');
      }
    case Rm(name) =>
      if r == Done {
        var k, nr := RmDoes(p, sh, name, p');
      }
    case Owrite(name, offset, content) =>
      var nr := NrOf(Entries(FilesOf(p.w), p.cur), name);
      if nr >= 0 && nr in FilesOf(p.w) && !IsDir(FilesOf(p.w), nr) {
        var now := Overwritten(FilesOf(p.w)[nr].bytes, Start(offset), content, r == Done);
        WriteOk(FilesOf(p.w), sh, nr, now);
      }
    case Replace(name, content) =>
      if r == Done {
        var k, nr := ReplaceDoes(p, sh, name, content, p');
        WriteOk(FilesOf(p.w), sh, nr, content);
      }
    case _ =>
  }

  /** So the directories are a tree at every time of a session, and all that is said above of commands applies. */
  lemma {:induction false} AlwaysTree(cmds: seq<Command>, rs: seq<Outcome>, trace: seq<Position>, i: nat)
    returns (sh: Shape)
    requires IsTrace(cmds, rs, trace) && IsStart(trace[0]) && i <= |cmds|
    ensures InOrder(trace[i], sh)
  {
    hide BlocksConsistent, FilesOf, TreeOk, Follows, Log, EmptyDir;
    if i == 0 {
      sh := ROOT_SHAPE;
      RootOk();
    } else {
      sh := AlwaysTree(cmds, rs, trace, i - 1);
      sh := StaysTree(trace[i - 1], sh, cmds[i - 1], rs[i - 1], trace[i]);
    }
  }
}
