/** Concrete inputs for which the program does not do what one would expect, and how far that reaches. */
module Limits {
  import opened Bytes
  import opened Layout
  import opened Checksum
  import opened Volume
  import opened Bitmap
  import opened Super
  import opened Steps
  import opened Inodes
  import opened World
  import opened FileOps
  import Alternate
  import Crowded
  import opened Dirents
  import opened Tree
  import opened DirOps
  import opened Commands
  import opened WriteCommand
  import opened Mounting
  import opened Shell

  /** Writing nothing to an empty file maps a block that its size does not need. */
  lemma EmptyWriteMapsABlock(v: Vol, d: DInode, v': Vol, d': DInode)
    requires Sound(v, d) && d.size == 0 && Wrote(v, d, 0, [], v', d')
    ensures !Sound(v', d') && d'.size == 0 && IsUsed(v', Lookup(v'.disk, d', 0))
  {
    hide Own, OwnStep, Contents, CsumAt, IntAt, Csum;
    AfterWrite(v, d, 0, [], v', d');
    InOwn(v'.disk, d', 1, 0);
  }

  /** The volume after a block of zeroes and its checksum went to the first free block. */
  function ZeroesStored(v: Vol): Vol
    requires FirstClear(v.used, 0) < MAX_NR_CSUMS
  {
    var i, v1 := FirstClear(v.used, 0), Allocated(v, FirstClear(v.used, 0));
    VolData.Vol(v1.disk[DATA_START + i := ZERO_BLOCK], v1.used, v1.csum[i := Csum(ZERO_BLOCK)])
  }

  /** The write goes through, and the file gets the first free block, full of zeroes. */
  ghost predicate EmptyWriteDone(v: Vol, d: DInode) {
    && d.size == 0 && FirstClear(v.used, 0) < MAX_NR_CSUMS
    && Wrote(v, d, 0, [], ZeroesStored(v), d.(direct := d.direct[0 := DATA_START + FirstClear(v.used, 0)]))
  }

  /** It does so whenever there is a free block with a checksum slot. */
  lemma EmptyWriteGoes(v: Vol, d: DInode)
    requires Sound(v, d) && d.size == 0 && FirstClear(v.used, 0) < MAX_NR_CSUMS
    ensures EmptyWriteDone(v, d)
  {
    hide Allocated, Sound, Own, OwnStep, Lookup, Contents, Wrote, Underway, WroteOne, Grown, Csum, CsumOk;
    var i := FirstClear(v.used, 0);
    AllSet(v.used);
    AllocatedFacts(v, i);
    var v1, d1, v2 := Allocated(v, i), d.(direct := d.direct[0 := DATA_START + i]), ZeroesStored(v);
    SoundMapped(v, d);
    GrowDirect(v, d, 0, i, v1);
    GrownLookup(v, d, 0, v1, d1, DATA_START + i);
    WriteStarts(v, d, 0, []);
    WroteOneBlock(v, d, 0, 0, 0, [], v1, d1, ZERO_BLOCK, ZERO_BLOCK, DATA_START + i, v2);
    assert ZERO_BLOCK[..0] + [] + ZERO_BLOCK[0..] == ZERO_BLOCK;
    WriteGoesOn(v, d, 0, 0, [], v, d, 0, 0, 0, [], v2, d1);
    WriteEnds(v, d, 0, [], v2, d1, 1);
  }

  /** The shell can stand in this file system: it is consistent, a tree, and has the example file in its root. */
  ghost predicate Ready(w: World) {
    && Standing(Position(w, 0, false)) && TreeOk(FilesOf(w), Crowded.Flat(FilesOf(w)))
    && NrOf(Entries(FilesOf(w), 0), Crowded.Name()) == Crowded.FIRST
    && Crowded.FIRST in FilesOf(w) && FilesOf(w)[Crowded.FIRST].typ == I_FILE
  }

  /** In the root of this file system the command gets this answer. */
  ghost predicate Answers(w: World, cmd: Command, r: Outcome) {
    Standing(Position(w, 0, false)) && Answer(Position(w, 0, false), cmd) == r
  }

  /** `owrite` to the example file gets this answer. */
  ghost predicate OwriteAnswers(w: World, start: nat, content: seq<byte>, r: Outcome) {
    start < 0x8000_0000 && Answers(w, Owrite(Crowded.Name(), start, content), r)
  }

  /** The almost full file systems are ready, and the example file has `b` blocks. */
  lemma FirstFound(b: nat, t: nat)
    requires b <= 4 && t <= 3
    ensures var w := Crowded.WorldOf(b, t); var d := w.inodes[Crowded.FIRST];
            && Ready(w) && RoomOf(w.vol) == Room(8 - b - t, 7 - b - t)
            && d.size == 512 * b && d.indirect == 0 && Sound(w.vol, d)
  {
    hide BlocksConsistent, Crowded.WorldOf, TreeOk, NrOf, Parse, Zeros;
    Crowded.FirstFile(b, t);
  }

  /** In this one the write that writes nothing goes through. */
  lemma EmptyWriteThere()
    ensures var w := Crowded.WorldOf(0, 3); Ready(w) && EmptyWriteDone(w.vol, w.inodes[Crowded.FIRST])
  {
    hide Ready, Crowded.WorldOf, EmptyWriteDone, Zeros, Sound;
    var w := Crowded.WorldOf(0, 3);
    FirstFound(0, 3);
    AllSet(w.vol.used);
    FirstFit(w.vol.used, MAX_NR_CSUMS);
    EmptyWriteGoes(w.vol, w.inodes[Crowded.FIRST]);
  }

  lemma SoundMapped(v: Vol, d: DInode)
    requires Sound(v, d)
    ensures d.size >= 0 && Mapped(v, d, BlocksFor(d.size))
  {
  }

  lemma GrownLookup(v: Vol, d: DInode, n: nat, v': Vol, d': DInode, p: int)
    requires Grown(v, d, n, v', d', p)
    ensures Mapped(v', d', n + 1) && WfMap(v'.disk, d', n + 1) && Lookup(v'.disk, d', n) == p
  {
  }

  /**
   * A file whose direct slots are just full, and one free block: appending fails, and the free block is gone
   * into an indirect block that no data needs. Cutting the file afterwards violates an assertion.
   */
  lemma LastBlockLeaks(v: Vol, d: DInode, buf: seq<byte>, v': Vol, d': DInode, content: seq<byte>, offset: nat)
    requires Sound(v, d) && d.size == 2048 && d.indirect == 0 && Zeros(v.used) == 1 && buf != []
    requires RolledBack(v, d, 2048, buf, v', d') && offset + |content| < 2048
    ensures WriteOutcome(2048, false, LastBlock(2048, |buf|), RoomOf(v)) == Failed(ENOSPC)
    ensures Dangling(d') && Sound(v', d') && Contents(v'.disk, d') == Contents(v.disk, d)
    ensures OverwriteOutcome(d', offset, |content|, RoomOf(v')) == Aborted(NoIndirect)
  {
    hide Own, OwnStep, CsumOk, Zeros, Lookup, Contents;
    assert Contents(v.disk, d)[..2048] + buf[..0] == Contents(v.disk, d);
    assert LastBlock(offset, |content|) < 4;
  }

  /** The append that leaks goes as told: what it leaves is the file rolled back, with the indirect block. */
  lemma LeakGoes(v: Vol, d: DInode, buf: seq<byte>)
    requires Sound(v, d) && d.size == 2048 && d.indirect == 0 && Zeros(v.used) == 1 && buf != []
    ensures FirstClear(v.used, 0) < NR_BLOCK_BITS
    ensures var i := FirstClear(v.used, 0);
            RolledBack(v, d, 2048, buf, WithEntry(Allocated(v, i), DATA_START + i, ZERO_BLOCK),
              d.(indirect := DATA_START + i))
  {
    hide Own, OwnStep, CsumOk, Lookup, Contents, RolledBack, Stopped, Underway, Allocated;
    var i := FirstClear(v.used, 0);
    AllSet(v.used);
    AllocatedFacts(v, i);
    AllSet(Allocated(v, i).used);
    var v', d' := WithEntry(Allocated(v, i), DATA_START + i, ZERO_BLOCK), d.(indirect := DATA_START + i);
    FreshDone(v, d, 4, v', false);
    WriteStarts(v, d, 2048, buf);
    WriteStops(v, d, 2048, buf, 0, v, d, 4, v', d', ENOSPC);
    UndoneInPlace(v, d, 2048, buf, 0, v', d', 4, ENOSPC);
  }

  /** The example file can neither be removed nor be made shorter. */
  ghost predicate Stuck(w: World, content: seq<byte>) {
    && Ready(w) && Answers(w, Rm(Crowded.Name()), Aborted(NoIndirect))
    && OwriteAnswers(w, 0, content, Aborted(NoIndirect))
  }

  /** The failed write leaves such a file. */
  ghost predicate LeavesStuck(w: World, buf: seq<byte>, content: seq<byte>) {
    && w.inodes[Crowded.FIRST].size == 2048
    && exists v', d' ::
         RolledBack(w.vol, w.inodes[Crowded.FIRST], 2048, buf, v', d') && Stuck(With(w, v', Crowded.FIRST, d'), content)
  }

  /**
   * In this file system `owrite` at the end of a file of 2048 bytes fails for lack of space, and leaves a file that can
   * neither be removed nor be made shorter any more.
   */
  lemma LeakingWorld(buf: seq<byte>, content: seq<byte>)
    requires buf != [] && 0 < |content| < 2048
    ensures var w := Crowded.WorldOf(4, 3);
            && Ready(w) && OwriteAnswers(w, 2048, buf, Failed(ENOSPC)) && LeavesStuck(w, buf, content)
  {
    hide Zeros, Allocated, Sound, RolledBack, Crowded.WorldOf, Ready, Stuck, Answers, OwriteAnswers;
    var w := Crowded.WorldOf(4, 3);
    FirstFound(4, 3);
    var d := w.inodes[Crowded.FIRST];
    ReadyAnswers(w, d, 2048, buf);
    LeakGoes(w.vol, d, buf);
    var i := FirstClear(w.vol.used, 0);
    var v', d' := WithEntry(Allocated(w.vol, i), DATA_START + i, ZERO_BLOCK), d.(indirect := DATA_START + i);
    LeftStuck(w, buf, v', d', content);
  }

  /** What the commands on the example file answer. */
  lemma ReadyAnswers(w: World, d: DInode, start: nat, content: seq<byte>)
    requires Ready(w) && start < 0x8000_0000 && d == w.inodes[Crowded.FIRST]
    ensures d.size >= 0 && start == Start(start)
    ensures OwriteAnswers(w, start, content, OverwriteOutcome(d, start, |content|, RoomOf(w.vol)))
    ensures Answers(w, Replace(Crowded.Name(), content), ReplaceOutcome(d, |content|, RoomOf(w.vol)))
    ensures Answers(w, Rm(Crowded.Name()), if Dangling(d) then Aborted(NoIndirect) else Done)
  {
    hide BlocksConsistent, Parse, NrOf, TreeOk, OverwriteOutcome, ReplaceOutcome;
    SizeKnown(w, Crowded.FIRST);
  }

  lemma LeftStuck(w: World, buf: seq<byte>, v': Vol, d': DInode, content: seq<byte>)
    requires Ready(w) && w.inodes[Crowded.FIRST].size == 2048 && 0 < |content| < 2048
    requires RolledBack(w.vol, w.inodes[Crowded.FIRST], 2048, buf, v', d') && Dangling(d')
    ensures Stuck(With(w, v', Crowded.FIRST, d'), content)
  {
    hide BlocksConsistent, Parse, NrOf, TreeOk, Sound, Own, OwnStep, Lookup, Contents, FilesOf, Ready;
    hide Answers, OwriteAnswers;
    var w' := With(w, v', Crowded.FIRST, d');
    ReadyFirst(w);
    SizeKnown(w, Crowded.FIRST);
    var bytes := Contents(w.vol.disk, w.inodes[Crowded.FIRST]);
    assert bytes[..2048] + buf[..0] == bytes;
    StepOne(w, Crowded.FIRST, v', d');
    SameReady(w, w');
    ReadyAnswers(w', d', 0, content);
  }

  lemma ReadyFirst(w: World)
    requires Ready(w)
    ensures BlocksConsistent(w) && IsLive(w, Crowded.FIRST) && w.inodes[Crowded.FIRST].typ == I_FILE
    ensures w.inodes[Crowded.FIRST].size >= 0
    ensures FilesOf(w)[Crowded.FIRST := NodeOf(w, Crowded.FIRST)] == FilesOf(w)
  {
    hide BlocksConsistent, Parse, NrOf, TreeOk, Contents;
    SizeKnown(w, Crowded.FIRST);
  }

  lemma SameReady(w: World, w': World)
    requires Ready(w) && BlocksConsistent(w') && FilesOf(w') == FilesOf(w)
    ensures Ready(w')
  {
    hide BlocksConsistent, Parse, NrOf, TreeOk, FilesOf;
  }

  /**
   * How that append ends on the two paths, for any number of free blocks. The ordinary path needs two blocks with a
   * checksum slot, the alternate path two blocks of which one has a slot.
   */
  lemma AppendToFull(len: nat, room: Room)
    requires 0 < len <= 512 && room.slots <= room.free
    ensures WriteOutcome(2048, false, LastBlock(2048, len), room)
      == if room.free < 2 then Failed(ENOSPC) else if room.slots < 2 then Aborted(CsumSlot) else Done
    ensures Alternate.AltOutcome(2048, false, LastBlock(2048, len), room)
      == if room.free < 2 then Failed(ENOSPC) else if room.slots < 1 then Aborted(CsumSlot) else Done
  {
  }

  /**
   * In this file system two blocks are free and one of them has a slot. Writing five blocks to a file of four violates
   * an assertion with `owrite`, be it over the old bytes or behind them, and goes through with `write`.
   */
  lemma PathsDiffer(buf: seq<byte>, content: seq<byte>)
    requires 0 < |buf| <= 512 && 2048 < |content| <= 2560
    ensures var w := Crowded.WorldOf(4, 2);
            && Ready(w) && w.inodes[Crowded.FIRST].size == 2048 && RoomOf(w.vol) == Room(2, 1)
            && OwriteAnswers(w, 2048, buf, Aborted(CsumSlot))
            && OwriteAnswers(w, 0, content, Aborted(CsumSlot))
            && Answers(w, Replace(Crowded.Name(), content), Done)
  {
    hide Crowded.WorldOf, Zeros, Ready, Answers, OwriteAnswers, Sound;
    var w := Crowded.WorldOf(4, 2);
    FirstFound(4, 2);
    ReadyAnswers(w, w.inodes[Crowded.FIRST], 2048, buf);
    ReadyAnswers(w, w.inodes[Crowded.FIRST], 0, content);
  }

  /**
   * A write that fails cannot be undone, exactly when it ran out of blocks with at most four mapped, has made the
   * file longer than it was, and an indirect block is there: the one it got with its last free block, or one that an
   * earlier write left behind. That takes slots for the data blocks it did map.
   */
  lemma UndoViolates(size: nat, indirect: bool, last: nat, room: Room)
    requires BlocksFor(size) <= NR_MAPPED && (BlocksFor(size) > NR_DIRECT ==> indirect) && room.slots <= room.free
    ensures WriteOutcome(size, indirect, last, room) == Aborted(NoIndirect)
      <==> var n := BlocksFor(size);
           if indirect then
             size < 512 * (n + room.free) <= 2048 && n + room.free < Max(n, Min(last + 1, NR_MAPPED))
               && room.slots == room.free
           else
             n + room.free == 5 && size < 2048 && last >= NR_DIRECT && n + room.slots >= NR_DIRECT
  {
  }

  /**
   * In this file system five blocks are free, and an `owrite` of more than 2048 bytes to the example file, which is
   * empty, cannot be undone.
   */
  lemma UndoViolatedWorld(content: seq<byte>)
    requires |content| > 2048
    ensures var w := Crowded.WorldOf(0, 3);
            && Ready(w) && w.inodes[Crowded.FIRST].size == 0 && RoomOf(w.vol).free == 5
            && OwriteAnswers(w, 0, content, Aborted(NoIndirect))
  {
    hide Crowded.WorldOf, Zeros, Ready, Answers, OwriteAnswers, Sound;
    var w := Crowded.WorldOf(0, 3);
    FirstFound(0, 3);
    ReadyAnswers(w, w.inodes[Crowded.FIRST], 0, content);
  }

  /**
   * `write` saves an inode that has no changes, which violates an assertion, exactly when the content fits no file,
   * or needs more blocks than the file has while none is free.
   */
  lemma TooMuchToReplace(d: DInode, len: nat, room: Room)
    requires 0 <= d.size <= NR_MAPPED * 512 && len > 0 && (d.size > 2048 ==> d.indirect != 0) && room.slots <= room.free
    ensures ReplaceOutcome(d, len, room) == Aborted(DirtyOnSync)
      <==> len > NR_MAPPED * 512 || (room.free == 0 && len > 512 * BlocksFor(d.size))
  {
  }

  /**
   * `write` leaves its checksums in memory: a restart after it brings back the checksum table from before it, and so
   * loses the new one exactly when the two differ.
   */
  lemma ChecksumsAreLost(w: World, w1: World, w2: World)
    requires TableSaved(w.vol.disk, w.vol.csum) && TableKept(w.vol.disk, w1.vol.disk) && Remounted(w1, w2)
    ensures w2.vol.csum == w.vol.csum
    ensures TableSaved(w1.vol.disk, w1.vol.csum) <==> w1.vol.csum == w.vol.csum
  {
    hide TableBlock, ToInts;
    assert TableSaved(w2.vol.disk, w.vol.csum);
    ReloadedTable(w2.vol.disk, w.vol.csum, w2.vol.csum);
    ReloadedTable(w2.vol.disk, w1.vol.csum, w2.vol.csum);
  }

  /** Block `p` has the same checksum in both tables. */
  predicate SameCsum(v: Vol, v1: Vol, p: int) {
    DATA_START <= p < DATA_START + MAX_NR_CSUMS ==> v.csum[p - DATA_START] == v1.csum[p - DATA_START]
  }

  /** The file system is damaged then, unless every block of every file has the checksum that its place had before. */
  lemma LostChecksumDamages(w: World, w1: World, w2: World)
    requires TableSaved(w.vol.disk, w.vol.csum) && TableKept(w.vol.disk, w1.vol.disk) && Remounted(w1, w2)
    requires BlocksConsistent(w1)
    ensures BlocksConsistent(w2) <==> forall i: nat, l: nat ::
      i < NR_INODES && IsLive(w1, i) && l < BlocksFor(w1.inodes[i].size) ==>
        SameCsum(w.vol, w1.vol, Lookup(w1.vol.disk, w1.inodes[i], l))
    ensures BlocksConsistent(w2) ==> FilesOf(w2) == FilesOf(w1)
  {
    hide BlocksConsistent, FilesOf, TableSaved, CsumLoaded, Lookup, SavedCsum;
    ChecksumsAreLost(w, w1, w2);
    RemountedWhen(w1, w2);
    forall p ensures EntrySaved(w1.vol, p) <==> SameCsum(w.vol, w1.vol, p) {
      if DATA_START <= p < DATA_START + MAX_NR_CSUMS {
        LoadedEntry(w2.vol.disk, w2.vol.csum, p - DATA_START);
        SameSaved(w1.vol.disk, w2.vol.disk, p - DATA_START);
      }
    }
  }

  lemma SameSaved(disk: Disk, disk': Disk, i: nat)
    requires i < MAX_NR_CSUMS && forall p :: 4 <= p < DISK_BLOCKS ==> disk'[p] == disk[p]
    ensures SavedCsum(disk', i) == SavedCsum(disk, i)
  {
  }

  /** The remainder of C, which has the sign of the dividend. */
  function Remainder(a: int, b: int): int
    requires b > 0
  {
    if a >= 0 then a % b else -(-a % b)
  }

  /** How the alternate path splits a write of `size` bytes: sizes of head, body and tail. */
  function Split(start: nat, size: nat): (int, int, int) {
    var off := start % 512;
    var tail := Remainder(size - off, 512);
    (if off == 0 then 0 else 512 - off, size - off - tail, tail)
  }

  /** Which byte of the buffer that write puts at position `pos` of the file, or -1 when it puts none there. */
  function Lands(start: nat, size: nat, pos: nat): int {
    var off, l, at := start % 512, pos / 512, pos % 512;
    var (head, body, tail) := Split(start, size);
    var first := if off == 0 then start / 512 else start / 512 + 1;
    var end := first + body / 512;
    if off != 0 && l == start / 512 && at >= off then at - off
    else if first <= l < end then off + 512 * (l - first) + at
    else if l == end && at < tail then size - tail + at
    else -1
  }

  /** Byte `k` of the buffer belongs at position `start + k`, and nothing anywhere else. */
  function Belongs(start: nat, size: nat, pos: nat): int {
    if start <= pos < start + size then pos - start else -1
  }

  /**
   * The write puts all bytes where they belong exactly from block boundaries on, and from the middle of a block on;
   * from anywhere else some byte comes to the wrong place. When there are fewer bytes than come before `start` in its
   * block an assertion is violated.
   */
  lemma SplitFits(start: nat, size: nat)
    requires size > 0
    ensures Split(start, size).2 < 0 <==> size < start % 512
    ensures size >= start % 512 ==>
      ((forall pos: nat :: Lands(start, size, pos) == Belongs(start, size, pos)) <==> start % 512 in {0, 256})
  {
    var off, next := start % 512, 512 * (start / 512 + 1);
    if size >= off && off !in {0, 256} {
      var pos := if size == off && off < 256 then start + size else next;
      assert pos / 512 == start / 512 || pos == next;
      assert Lands(start, size, pos) != Belongs(start, size, pos);
    }
    if size >= off && off in {0, 256} {
      forall pos: nat ensures Lands(start, size, pos) == Belongs(start, size, pos) {
        LandsRight(start, size, pos);
      }
    }
  }

  lemma LandsRight(start: nat, size: nat, pos: nat)
    requires size > 0 && start % 512 in {0, 256} && size >= start % 512
    ensures Lands(start, size, pos) == Belongs(start, size, pos)
  {
    var off, s, l, at := start % 512, start / 512, pos / 512, pos % 512;
    var nr := (size - off) / 512;
    assert start == 512 * s + off && pos == 512 * l + at && size - off == 512 * nr + Split(start, size).2;
    assert Split(start, size).1 / 512 == nr;
  }
}
