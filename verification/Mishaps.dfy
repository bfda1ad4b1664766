/** Whole sessions, from `mkfs` on, in which the program falls short of what one would expect. */
module Mishaps {
  import opened Bytes
  import opened Layout
  import opened Checksum
  import opened Volume
  import Bits = Bitmap
  import opened Device
  import opened Super
  import opened Steps
  import opened Inodes
  import opened World
  import opened Dirents
  import opened Tree
  import opened DirOps
  import opened Contexts
  import opened Commands
  import opened WriteCommand
  import Alternate
  import Conservation
  import opened Mounting
  import opened Shell
  import BenchAsync
  import Crowded
  import opened Limits

  // A name that is too long

  /** The first `touch` in a new file system: whether the record fits into the directory's blocks decides. */
  lemma FirstTouch(w: World, name: seq<byte>)
    requires JustMade(w) && IsName(name) && name != DOT && name != DOTDOT
    ensures ReachesParent(w, 0, I_FILE, name)
    ensures CreateOutcome(w, 0, I_FILE, name) == if 29 + |name| > 512 * NR_MAPPED then Failed(EFBIG) else Done
  {
    hide BlocksConsistent, FilesOf, Parse, Ser, Log, Bits.Zeros, Slots;
    var ds := EmptyDir(0, 0);
    RootSize();
    ParseLog(ds);
    SmallInode(w, 0);
    Bits.FirstClearIs(w.live, 1);
    assert Bits.FirstClear(w.live, 0) == 1;
    assert AddFrom(ds, name, 0) == 2 && FindFrom(ds, name, 0) == 2;
  }

  lemma RootSize()
    ensures |Log(EmptyDir(0, 0))| == 21
  {
    hide EncodeInt;
    var ds := EmptyDir(0, 0);
    LogConcat([ds[0]], [ds[1]]);
    OneRecord(ds[0]);
    OneRecord(ds[1]);
    assert [ds[0]] + [ds[1]] == ds;
  }

  lemma StepOf(cmds: seq<Command>, rs: seq<Outcome>, trace: seq<Position>, i: nat)
    requires IsTrace(cmds, rs, trace) && i < |cmds|
    ensures Follows(trace[i], cmds[i], rs[i], trace[i + 1])
  {
  }

  /** The `touch` fails and leaves unsaved changes in the root, and so the `checkfs` after it violates an assertion. */
  method TouchTooLong(device: Device, name: seq<byte>) returns (r: Outcome, ghost trace: seq<Position>)
    requires device.Valid() && device.s.pending == [] && IsName(name) && 29 + |name| > 512 * NR_MAPPED
    modifies device
    ensures IsTrace([Touch(name)], [Failed(EFBIG)], trace) && IsStart(trace[0]) && trace[1].dirty
    ensures Standing(trace[1]) && r == Answer(trace[1], Checkfs) == Aborted(CleanOnPut)
  {
    hide Standing, JustMade, CreateOutcome, ReachesParent, Context.Valid;
    var c, n;
    ghost var rs;
    var cmds := [Touch(name), Checkfs];
    c, n, r, rs, trace := Session(device, cmds);
    FirstTouch(trace[0].w, name);
    assert n > 0;
    StepOf(cmds[..n], rs, trace, 0);
    if n == 2 {
      StepOf(cmds[..n], rs, trace, 1);
    }
    assert cmds[..n] == [Touch(name)];
  }

  // A checksum that is not saved

  /** A block of letters: three that tell `k`, and then the same one over and over. */
  function Letters(k: nat): Block
    requires k <= MAX_NR_CSUMS
  {
    [97 + k % 26, 97 + k / 26 % 26, 97 + k / 676] + seq(509, _ => 97)
  }

  /** Different blocks of letters have different checksums. */
  lemma LettersDiffer(j: nat, k: nat)
    requires j <= MAX_NR_CSUMS && k <= MAX_NR_CSUMS && Csum(Letters(j)) == Csum(Letters(k))
    ensures j == k
  {
    hide XorOf, IntAt, Letters;
    var s, t := ToInts(Letters(j)), ToInts(Letters(k));
    forall i: nat | 1 <= i < 128 ensures s[i] == t[i] {
      OtherWords(j, k, i);
    }
    assert t == s[0 := t[0]];
    OneWordIsDetected(s, 0, t[0]);
    FirstWord(j);
    FirstWord(k);
    SameDigits(j % 26, j / 26 % 26, j / 676, k % 26, k / 26 % 26, k / 676);
    Digits(j);
    Digits(k);
  }

  lemma SameDigits(a: int, b: int, c: int, x: int, y: int, z: int)
    requires 0 <= a < 26 && 0 <= b < 26 && 0 <= x < 26 && 0 <= y < 26
    requires a + 256 * b + 65536 * c == x + 256 * y + 65536 * z
    ensures a == x && b == y && c == z
  {
  }

  lemma Digits(k: nat)
    ensures k == k % 26 + 26 * (k / 26 % 26) + 676 * (k / 676)
  {
    assert k / 26 / 26 == k / 676;
  }

  lemma OtherWords(j: nat, k: nat, i: nat)
    requires j <= MAX_NR_CSUMS && k <= MAX_NR_CSUMS && 1 <= i < 128
    ensures IntAt(Letters(j), i) == IntAt(Letters(k), i)
  {
    hide DecodeInt;
    assert Letters(j)[4 * i..4 * i + 4] == Letters(k)[4 * i..4 * i + 4];
  }

  lemma FirstWord(k: nat)
    requires k <= MAX_NR_CSUMS
    ensures IntAt(Letters(k), 0) == 97 + k % 26 + 256 * (97 + k / 26 % 26) + 65536 * (97 + k / 676) + 16777216 * 97
  {
    assert Letters(k)[0..4] == [97 + k % 26, 97 + k / 26 % 26, 97 + k / 676, 97];
  }

  /** After a `write` whose checksum is nowhere in the table, a restart finds a damaged file system. */
  lemma LosesNewCsum(p: Position, name: seq<byte>, b: Block, p': Position)
    requires Follows(p, Replace(name, b), Done, p') && TableSaved(p.w.vol.disk, p.w.vol.csum)
    requires Csum(b) !in p.w.vol.csum
    ensures Stops(p', Restart)
  {
    hide OfInts, Csum, ToInts, Own, NrOf, Parse, IsLog, Bits.Zeros, BlocksConsistent, FilesOf;
    var nr := NrOf(Entries(FilesOf(p.w), p.cur), name);
    var w, w' := p.w, p'.w;
    FullBlock(w', nr, b);
    var at := Lookup(w'.vol.disk, w'.inodes[nr], 0);
    SavedEntry(w.vol, at);
    assert SavedCsum(w'.vol.disk, at - DATA_START) == w.vol.csum[at - DATA_START];
    assert !EntrySaved(w'.vol, at) && !FileSaved(w', nr);
  }

  /** A file of exactly one block. */
  lemma FullBlock(w: World, nr: nat, b: Block)
    requires BlocksConsistent(w) && nr in FilesOf(w) && FilesOf(w)[nr].bytes == b
    ensures nr < NR_INODES && IsLive(w, nr) && BlocksFor(w.inodes[nr].size) == 1
    ensures var p := Lookup(w.vol.disk, w.inodes[nr], 0);
            && DATA_START <= p < DATA_START + MAX_NR_CSUMS && w.vol.disk[p] == b
            && w.vol.csum[p - DATA_START] == Csum(b)
  {
    hide Own, Csum, Lookup;
    SizeKnown(w, nr);
    var v, d := w.vol, w.inodes[nr];
    assert CsumAt(v, d, 0);
    forall i | 0 <= i < 512 ensures v.disk[Lookup(v.disk, d, 0)][i] == b[i] {
      assert Contents(v.disk, d)[i] == RawByte(v.disk, d, i);
    }
  }

  /** Two files, however large, leave blocks free, and more than half of these have a checksum slot. */
  lemma RoomBesideTwo(w: World)
    requires BlocksConsistent(w) && FilesOf(w).Keys == {0, 1}
    ensures RoomOf(w.vol).free >= RoomOf(w.vol).slots >= 1024
  {
    hide BlocksConsistent, FilesOf, Bits.Ones, Slots, Conservation.HeldBelow;
    Conservation.BlocksConserved(w);
    HeldByTwo(w, NR_INODES);
    RoomBounds(w.vol);
  }

  lemma {:induction false} HeldByTwo(w: World, n: nat)
    requires BlocksConsistent(w) && FilesOf(w).Keys == {0, 1} && n <= NR_INODES
    ensures Conservation.HeldBelow(w, n) <= 133 * Min(n, 2)
  {
    hide LiveSound, BlocksConsistent;
    if n > 0 {
      HeldByTwo(w, n - 1);
      if w.live[n - 1] {
        assert n - 1 in FilesOf(w).Keys;
        SizeKnown(w, n - 1);
        HeldAtMost(w.vol, w.inodes[n - 1]);
      }
    }
  }

  lemma HeldAtMost(v: Vol, d: DInode)
    requires Sound(v, d)
    ensures Conservation.Held(d) <= 133
  {
    hide Own, CsumOk;
  }

  /** A file that was just made is found, and a block can be written to it. */
  lemma MayReplace(w: World, name: seq<byte>, w1: World)
    requires JustMade(w) && FileCreated(w, 0, I_FILE, name, w1) && name != DOT && name != DOTDOT
    ensures WriteCmdOutcome(w1, 0, false, name, 512) == Done
  {
    hide BlocksConsistent, Parse, Log, Bits.Zeros, Slots, NrOf, FilesOf, AddFrom, FindFrom;
    var ds := EmptyDir(0, 0);
    ParseLog(ds);
    Bits.FirstClearIs(w.live, 1);
    var files1 := FilesOf(w1);
    AddedWf(ds, name, 1);
    ParseLog(Added(ds, name, 1));
    NotThere(ds, name);
    AddInserts(ds, name, 1);
    assert name in NamesOf(Added(ds, name, 1)) && NamesOf(Added(ds, name, 1))[name] == 1;
    assert files1.Keys == {0, 1};
    RoomBesideTwo(w1);
    SmallInode(w1, 1);
  }

  lemma NotThere(ds: seq<Dirent>, name: seq<byte>)
    requires ds == EmptyDir(0, 0) && name != DOT && name != DOTDOT
    ensures UniqueNames(ds) && name !in NamesOf(ds)
  {
  }

  /** Of more different numbers than a table has entries one is not in it. */
  lemma {:induction false} OneIsNew(fs: seq<int32>, s: seq<int32>)
    requires |s| < |fs| && forall i, j :: 0 <= i < j < |fs| ==> fs[i] != fs[j]
    ensures exists k :: 0 <= k < |fs| && fs[k] !in s
  {
    if s == [] {
      assert fs[0] !in s;
    } else {
      var n := |s| - 1;
      if k :| 0 <= k < |fs| && fs[k] == s[n] {
        OneIsNew(fs[..k] + fs[k + 1..], s[..n]);
        var j :| 0 <= j < |fs| - 1 && (fs[..k] + fs[k + 1..])[j] !in s[..n];
        assert fs[if j < k then j else j + 1] !in s;
      } else {
        OneIsNew(fs, s[..n]);
        var k :| 0 <= k < |fs| && fs[k] !in s[..n];
        assert fs[k] !in s;
      }
    }
  }

  lemma SomeLettersAreNew(s: seq<int32>)
    requires |s| <= MAX_NR_CSUMS
    ensures exists k :: 0 <= k <= MAX_NR_CSUMS && Csum(Letters(k)) !in s
  {
    hide Csum, Letters;
    var fs := seq(MAX_NR_CSUMS + 1, k requires 0 <= k <= MAX_NR_CSUMS => Csum(Letters(k)));
    forall i, j | 0 <= i < j < |fs| ensures fs[i] != fs[j] {
      if fs[i] == fs[j] {
        LettersDiffer(i, j);
      }
    }
    OneIsNew(fs, s);
    var k :| 0 <= k < |fs| && fs[k] !in s;
    assert Csum(Letters(k)) !in s;
  }

  /** `touch` and `write`, after which a restart loses the checksum of the block that was written. */
  method WriteNewCsum(device: Device, name: seq<byte>) returns (c: Context, k: nat, ghost trace: seq<Position>)
    requires device.Valid() && device.s.pending == [] && IsName(name) && 29 + |name| <= 512 * NR_MAPPED
    requires name != DOT && name != DOTDOT
    modifies device
    ensures k <= MAX_NR_CSUMS && IsTrace([Touch(name), Replace(name, Letters(k))], [Done, Done], trace)
    ensures IsStart(trace[0]) && fresh(c) && fresh(c.sb) && fresh(c.table) && fresh(c.curDir)
    ensures Standing(trace[2]) && Answer(trace[2], Restart) == Done && Stops(trace[2], Restart)
    ensures c.sb.dev == device && c.Valid() && At(c) == trace[2]
  {
    hide Standing, JustMade, CreateOutcome, ReachesParent, Context.Valid, FileCreated, TableSaved;
    hide NeededSaved, WriteCmdOutcome, Written, Csum, Letters;
    var n, r, stop;
    ghost var rs;
    c, n, r, rs, trace := Session(device, [Touch(name)]);
    FirstTouch(trace[0].w, name);
    StepOf([Touch(name)][..n], rs, trace, 0);
    assert [Touch(name)][..n] == [Touch(name)] && NoReplace([Touch(name)], 1);
    MayReplace(trace[0].w, name, trace[1].w);
    SomeLettersAreNew(c.sb.csumTable);
    k :| 0 <= k <= MAX_NR_CSUMS && Csum(Letters(k)) !in c.sb.csumTable;
    r, c, stop := Execute(c, Replace(name, Letters(k)));
    trace := trace + [At(c)];
    LosesNewCsum(trace[1], name, Letters(k), trace[2]);
  }

  /**
   * The restart: what it finds is not consistent, though no command reported anything. `checkfs` then lists the blocks
   * whose checksums were lost.
   */
  method LosingSession(device: Device, name: seq<byte>)
    returns (c: Context, k: nat, bad: seq<int>, ghost trace: seq<Position>)
    requires device.Valid() && device.s.pending == [] && IsName(name) && 29 + |name| <= 512 * NR_MAPPED
    requires name != DOT && name != DOTDOT
    modifies device
    ensures k <= MAX_NR_CSUMS && IsTrace([Touch(name), Replace(name, Letters(k))], [Done, Done], trace)
    ensures IsStart(trace[0])
    ensures Standing(trace[2]) && Answer(trace[2], Restart) == Done && Stops(trace[2], Restart)
    ensures c.sb.dev == device && c.sb.Valid() && FoundAgain(trace[2].w, c.W(), false)
    ensures bad != [] && forall p :: p in bad <==> LostCsum(trace[2].w, p)
  {
    hide Standing, JustMade, Context.Valid, FoundAgain, LostCsum, NeededSaved, IsTrace, Letters, IsStart;
    c, k, trace := WriteNewCsum(device, name);
    var r, mapsOk;
    r, c, bad, mapsOk := RestartThenCheck(c);
  }

  // An almost full device

  /** Starts the shell on the device that holds one of the almost full file systems. */
  method MountCrowded(b: nat, t: nat) returns (c: Context)
    requires b <= 4 && t <= 3
    ensures fresh(c) && fresh(c.curDir) && fresh(c.table) && fresh(c.sb) && fresh(c.sb.dev)
    ensures fresh(c.sb.inodeFreemap.v) && fresh(c.sb.blockFreemap.v)
    ensures c.Valid() && At(c) == Position(Crowded.WorldOf(b, t), 0, false)
  {
    hide BlocksConsistent, FilesOf, TreeOk, Crowded.DiskOf, Crowded.WorldOf, SuperBlock.InodesUsed, SuperBlock.Vol;
    hide Context.Struct, Context.InTree, Context.W, NumbersSaved, Crowded.Flat, FromDevice, Context.Valid;
    hide Context.CachedLive, Context.MapsSaved;
    var device := new Device(Crowded.DiskOf(b, t));
    assert device.Disk() == Crowded.DiskOf(b, t);
    c := Mount(device);
    CrowdedFound(c, b, t);
    c.shape := Crowded.Flat(FilesOf(c.W()));
    BenchAsync.FoundValid(c, c.W());
  }

  lemma CrowdedFound(c: Context, b: nat, t: nat)
    requires b <= 4 && t <= 3 && FromDevice(c) && c.sb.Vol().disk == Crowded.DiskOf(b, t)
    requires c.W() == DiskWorld(c.sb.Vol(), c.sb.InodesUsed())
    ensures c.W() == Crowded.WorldOf(b, t) && BlocksConsistent(c.W()) && NumbersSaved(c.W())
    ensures TreeOk(FilesOf(c.W()), Crowded.Flat(FilesOf(c.W())))
  {
    hide BlocksConsistent, FilesOf, TreeOk, Crowded.DiskOf, Crowded.WorldOf, DiskWorld, SuperBlock.InodesUsed;
    hide Bits.BitsOf, Context.W, NumbersSaved, Crowded.Flat, NrOf, Sound, Bits.Zeros, SuperBlock.Vol;
    Crowded.WorldThere(b, t, c.sb.Vol());
    Crowded.FirstFile(b, t);
  }

  /** The same bytes, from the start of the same file in the same file system, by `owrite` and by `write`. */
  method BothPaths(content: seq<byte>) returns (ordinary: Outcome, alternate: Outcome)
    requires 2048 < |content| <= 2560
    ensures ordinary == Aborted(CsumSlot) && alternate == Done
  {
    hide Standing, Context.Valid, Ready, Answer, Crowded.WorldOf;
    PathsDiffer([0], content);
    var c := MountCrowded(4, 2);
    var stop;
    ordinary, c, stop := Execute(c, Owrite(Crowded.Name(), 0, content));
    c := MountCrowded(4, 2);
    alternate, c, stop := Execute(c, Replace(Crowded.Name(), content));
  }

  /** More bytes than fit, to an empty file: `owrite` cannot undo what it did. */
  method UndoFails(content: seq<byte>) returns (r: Outcome)
    requires |content| > 2048
    ensures r == Aborted(NoIndirect)
  {
    hide Standing, Context.Valid, Ready, Answer, Crowded.WorldOf;
    UndoViolatedWorld(content);
    var c := MountCrowded(0, 3);
    var stop;
    r, c, stop := Execute(c, Owrite(Crowded.Name(), 0, content));
  }
}
