/** Issuing requests, waiting for futures, and the synchronous wrappers. */
module Device {
  import opened Bytes
  import opened Layout
  import opened Reactors

  const METADATA_REACTOR: nat := 1
  const DATA_REACTOR: nat := 2

  /** The state after one more request was sent to its reactor. */
  function Sent(s: Io, r: Req): Io
    requires Inv(s) && r.f < |s.futures| && r.reactor < 3
  {
    CountersFit(s, r.f);
    s.(pending := s.pending + [r], futures := s.futures[r.f := ExpectOne(s.futures[r.f], r.reactor)])
  }

  /** `f->expected_counts[reactor_id] += 1` */
  function ExpectOne(u: Future, reactor: nat): Future
    requires reactor < |u.expected|
  {
    Future(u.counts, u.expected[reactor := u.expected[reactor] + 1])
  }

  /** No request in flight conflicts with writing these blocks. */
  ghost predicate MayWrite(s: Io, start: int, nr: nat) {
    0 <= start && start + nr <= DISK_BLOCKS && forall p :: start <= p < start + nr ==> !Writing(s, p) && !Reading(s, p)
  }

  ghost predicate MayRead(s: Io, start: int, nr: nat) {
    0 <= start && start + nr <= DISK_BLOCKS && forall p :: start <= p < start + nr ==> !Writing(s, p)
  }

  lemma SentApart(s: Io, r: Req, i: nat)
    requires i < |s.pending| && Inv(s) && Len(r) > 0
    requires r.Write? ==> MayWrite(s, r.start, Len(r))
    requires r.Read? ==> MayRead(s, r.start, Len(r)) && forall g: nat :: !Into(s, g, r.dest)
    ensures Apart(s.pending[i], r)
  {
    var q := s.pending[i];
    assert WfReq(s, q);
    assert q.Read? ==> Into(s, q.f, q.dest);
    var p := Max(q.start, r.start);
    assert Touches(q, p) ==> if q.Write? then WritingOn(s, q.f, p) else ReadingOn(s, q.f, p);
    assert WritingOn(s, q.f, p) ==> Writing(s, p);
    assert ReadingOn(s, q.f, p) ==> Reading(s, p);
    assert Touches(r, p) <==> r.start <= p < r.start + Len(r);
  }

  lemma StillMay(s: Io, s': Io, disk: Disk, start: int, nr: nat)
    requires Inv(s) && Became(s, s', disk)
    ensures MayWrite(s, start, nr) ==> MayWrite(s', start, nr)
    ensures MayRead(s, start, nr) ==> MayRead(s', start, nr)
  {
    hide WritingOn, ReadingOn;
    forall p ensures Writing(s', p) ==> Writing(s, p) {
    }
    forall p ensures Reading(s', p) ==> Reading(s, p) {
    }
  }

  lemma SentFutures(s: Io, r: Req)
    requires Inv(s) && r.f < |s.futures| && r.reactor < 3
    ensures forall f: nat :: f < |s.futures| ==> WfFuture(Sent(s, r), f)
  {
    var s' := Sent(s, r);
    forall f: nat | f < |s.futures| ensures WfFuture(s', f) {
      assert WfFuture(s, f);
      assert s'.pending[..|s.pending|] == s.pending;
    }
  }

  lemma SentInv(s: Io, r: Req)
    requires Inv(s) && r.f < |s.futures| && r.reactor < 3 && !r.moved && Len(r) > 0
    requires r.Write? ==> MayWrite(s, r.start, Len(r))
    requires r.Read? ==> MayRead(s, r.start, Len(r)) && r.dest < |s.bufs| && forall g: nat :: !Into(s, g, r.dest)
    ensures Inv(Sent(s, r))
  {
    hide WfFuture, Settled;
    var s' := Sent(s, r);
    SentFutures(s, r);
    forall i, j | 0 <= i < j < |s'.pending| ensures Apart(s'.pending[i], s'.pending[j]) {
      if j == |s.pending| {
        SentApart(s, r, i);
      } else {
        assert Apart(s.pending[i], s.pending[j]);
      }
    }
    forall i: nat | i < |s'.pending| ensures WfReq(s', s'.pending[i]) {
      if i < |s.pending| {
        assert WfReq(s, s.pending[i]);
      }
    }
  }

  lemma SentSettled(s: Io, r: Req)
    requires Inv(s) && r.f < |s.futures| && r.reactor < 3 && 0 <= r.start && r.start + Len(r) <= DISK_BLOCKS
    ensures Settled(Sent(s, r)) == if r.Write? then Put(Settled(s), r.start, r.data) else Settled(s)
  {
    var s' := Sent(s, r);
    assert s'.pending[..|s.pending|] == s.pending;
    forall p: nat | p < DISK_BLOCKS
      ensures Settled(s')[p] == if r.Write? && Touches(r, p) then r.data[p - r.start] else Settled(s)[p]
    {
    }
    if r.Write? {
      forall p: nat | p < DISK_BLOCKS {
        PutAt(Settled(s), r.start, r.data, p);
      }
    }
  }

  lemma SentBufs(s: Io, r: Req, b: nat)
    requires Inv(s) && r.f < |s.futures| && r.reactor < 3 && Inv(Sent(s, r)) && b < |s.bufs|
    requires r.Read? ==> b != r.dest
    requires r.Write? ==> MayWrite(s, r.start, Len(r))
    ensures FinalBuf(Sent(s, r), b) == FinalBuf(s, b)
  {
    hide Settled, SettledAt, WfFuture, Apart;
    var s' := Sent(s, r);
    if i: nat :| i < |s.pending| && s.pending[i].Read? && s.pending[i].dest == b {
      assert s'.pending[i] == s.pending[i];
      FinalBufOfRead(s, i);
      FinalBufOfRead(s', i);
    } else {
      forall i: nat | i < |s'.pending| && s'.pending[i].Read? ensures s'.pending[i].dest != b {
        assert i < |s.pending| ==> s'.pending[i] == s.pending[i];
      }
    }
  }

  lemma SentPending(s: Io, r: Req)
    requires Inv(s) && r.f < |s.futures| && r.reactor < 3
    ensures var s' := Sent(s, r);
            && (forall f: nat, p :: WritingOn(s', f, p) ==>
                 WritingOn(s, f, p) || (r.Write? && f == r.f && Touches(r, p)))
            && (forall f: nat, p :: ReadingOn(s', f, p) ==>
                 ReadingOn(s, f, p) || (r.Read? && f == r.f && Touches(r, p)))
            && (forall f: nat :: PendingOn(s', f) ==> PendingOn(s, f) || f == r.f)
            && (forall f: nat, b: nat :: Into(s', f, b) ==> Into(s, f, b) || (r.Read? && f == r.f && b == r.dest))
  {
    var s' := Sent(s, r);
    assert forall i: nat :: i < |s'.pending| ==> s'.pending[i] == if i < |s.pending| then s.pending[i] else r;
  }

  /** A write of `nr` blocks at `start` on future `f` was issued. */
  ghost predicate WriteIssued(s: Io, s': Io, f: nat, start: int, data: seq<Block>)
    requires Inv(s) && 0 <= start && start + |data| <= DISK_BLOCKS
  {
    && Inv(s') && Settled(s') == Put(Settled(s), start, data)
    && |s'.futures| >= |s.futures| && |s'.bufs| >= |s.bufs|
    && (forall g: nat, p :: WritingOn(s', g, p) ==> WritingOn(s, g, p) || (g == f && start <= p < start + |data|))
    && (forall g: nat, p :: ReadingOn(s', g, p) ==> ReadingOn(s, g, p))
    && (forall g: nat :: PendingOn(s', g) ==> PendingOn(s, g) || g == f)
    && (forall g: nat, b: nat :: Into(s', g, b) ==> Into(s, g, b))
    && (forall b: nat :: b < |s.bufs| ==> FinalBuf(s', b) == FinalBuf(s, b))
  }

  /** A read on future `f` into a new buffer `dest` was issued: it will deliver what is settled there now. */
  ghost predicate ReadIssued(s: Io, s': Io, f: nat, start: int, nr: nat, dest: nat)
    requires Inv(s) && 0 <= start && start + nr <= DISK_BLOCKS
  {
    && Inv(s') && Settled(s') == Settled(s)
    && |s'.futures| >= |s.futures| && |s.bufs| <= dest < |s'.bufs|
    && (forall g: nat, p :: WritingOn(s', g, p) ==> WritingOn(s, g, p))
    && (forall g: nat, p :: ReadingOn(s', g, p) ==> ReadingOn(s, g, p) || (g == f && start <= p < start + nr))
    && (forall g: nat :: PendingOn(s', g) ==> PendingOn(s, g) || g == f)
    && (forall g: nat, b: nat :: Into(s', g, b) ==> Into(s, g, b) || (g == f && b == dest))
    && (forall b: nat :: b < |s.bufs| ==> FinalBuf(s', b) == FinalBuf(s, b))
    && FinalBuf(s', dest) == Settled(s)[start..start + nr]
  }

  /** With nothing in flight every block may be written, and afterwards nothing is in flight again. */
  lemma IdleAgain(s: Io, s': Io, disk: Disk)
    requires Inv(s) && s.pending == [] && Became(s, s', disk)
    ensures s'.pending == []
  {
    if s'.pending != [] {
      assert PendingOn(s', s'.pending[0].f);
    }
  }

  lemma IdleMay(s: Io, start: int, nr: nat)
    requires s.pending == [] && 0 <= start && start + nr <= DISK_BLOCKS
    ensures MayWrite(s, start, nr) && MayRead(s, start, nr)
  {
    forall f: nat, p ensures !WritingOn(s, f, p) && !ReadingOn(s, f, p) {
    }
  }

  /** Nothing but writes to the blocks `ps` on future `f` was issued. */
  ghost predicate Issued(s: Io, s': Io, f: nat, ps: set<int>)
    requires Inv(s)
  {
    && Inv(s') && |s'.futures| >= |s.futures| && |s'.bufs| >= |s.bufs|
    && (forall g: nat, p :: WritingOn(s', g, p) ==> WritingOn(s, g, p) || (g == f && p in ps))
    && (forall g: nat, p :: ReadingOn(s', g, p) ==> ReadingOn(s, g, p))
    && (forall g: nat :: PendingOn(s', g) ==> PendingOn(s, g) || g == f)
    && (forall g: nat, b: nat :: Into(s', g, b) ==> Into(s, g, b))
    && (forall b: nat :: b < |s.bufs| ==> FinalBuf(s', b) == FinalBuf(s, b))
  }

  lemma QuietIssued(s: Io, s': Io, f: nat)
    requires Inv(s) && Quiet(s, s')
    ensures Issued(s, s', f, {})
  {
    hide Settled, FinalBuf, WritingOn, ReadingOn, PendingOn, Into;
  }

  lemma WriteIsIssued(s: Io, s': Io, f: nat, p: int, b: Block)
    requires Inv(s) && 0 <= p < DISK_BLOCKS && WriteIssued(s, s', f, p, [b])
    ensures Issued(s, s', f, {p}) && Settled(s') == Settled(s)[p := b]
  {
    hide Settled, FinalBuf, WritingOn, ReadingOn, PendingOn, Into;
    assert Put(Settled(s), p, [b]) == Settled(s)[p := b];
  }

  lemma IssuedTrans(s: Io, s1: Io, ps: set<int>, s2: Io, qs: set<int>, f: nat)
    requires Inv(s) && Issued(s, s1, f, ps) && Issued(s1, s2, f, qs)
    ensures Issued(s, s2, f, ps + qs)
  {
    hide Settled, FinalBuf, WritingOn, ReadingOn, PendingOn, Into;
  }

  /** The blocks of one request. */
  datatype Extent = Extent(start: int, nr: nat)

  class Device {
    var s: Io
    /** The blocks that were read and written, request by request, in the order in which the requests were issued. */
    ghost var readLog: seq<Extent>
    ghost var writeLog: seq<Extent>

    /** A device with the given contents and nothing in flight. */
    constructor (disk: Disk)
      ensures Inv(s) && s == Io(disk, [], [], [])
    {
      s := Io(disk, [], [], []);
      readLog, writeLog := [], [];
    }

    ghost predicate Valid()
      reads this
    {
      Inv(s)
    }

    /** What the device will hold when all writes in flight have landed. */
    function Disk(): Disk
      reads this
    {
      Settled(s)
    }

    /** One step of some reactor. */
    method Step()
      requires Valid() && s.pending != []
      modifies `s
      ensures Valid() && Next(old(s), s)
      ensures Quiet(old(s), s) && CountsGrow(old(s), s) && Work(s.pending) < Work(old(s.pending))
    {
      var i: nat :| i < |s.pending|;
      var s' := if s.pending[i].moved then Completed(s, i) else Moved(s, i);
      assert Next(s, s');
      NextQuiet(s, s');
      s := s';
    }

    /** The reactors run on while the main thread is doing something else. */
    method Elapse()
      requires Valid()
      modifies `s
      ensures Valid() && Quiet(old(s), s) && CountsGrow(old(s), s)
    {
      var budget: nat := *;
      QuietRefl(s);
      while budget > 0 && s.pending != []
        invariant Valid() && Quiet(old(s), s) && CountsGrow(old(s), s)
      {
        ghost var s1 := s;
        Step();
        QuietTrans(old(s), s1, s);
        CountsGrowTrans(old(s), s1, s);
        budget := budget - 1;
      }
    }

    method FutureInit() returns (f: nat)
      requires Valid()
      modifies `s
      ensures Valid() && Quiet(old(s), s) && !PendingOn(s, f) && f < |s.futures| && !PendingOn(old(s), f)
      ensures f == |old(s.futures)|
    {
      f := |s.futures|;
      s := s.(futures := s.futures + [Future([0, 0, 0], [0, 0, 0])]);
      FutureAdded(old(s), s);
    }

    /** Busy-waits on the counters, one reactor after another. */
    method SpinWait(f: nat)
      requires Valid() && f < |s.futures|
      modifies `s
      ensures Valid() && Quiet(old(s), s) && !PendingOn(s, f)
      ensures forall b: nat :: b < |old(s).bufs| && Into(old(s), f, b) ==>
        b < |s.bufs| && s.bufs[b] == FinalBuf(old(s), b)
    {
      hide Quiet, Settled, FinalBuf, Next;
      var i := 0;
      QuietRefl(s);
      while i < 3
        invariant 0 <= i <= 3
        invariant Valid() && Quiet(old(s), s) && CountsGrow(old(s), s)
        invariant f < |s.futures| && WfFuture(s, f)
        invariant forall k: nat :: k < i ==> s.futures[f].counts[k] == s.futures[f].expected[k]
      {
        while s.futures[f].counts[i] != s.futures[f].expected[i]
          invariant Valid() && Quiet(old(s), s) && CountsGrow(old(s), s)
          invariant f < |s.futures| && WfFuture(s, f)
          invariant forall k: nat :: k < i ==> s.futures[f].counts[k] == s.futures[f].expected[k]
          decreases Work(s.pending)
        {
          ghost var s1 := s;
          Step();
          QuietTrans(old(s), s1, s);
          CountsGrowTrans(old(s), s1, s);
          assert WfFuture(s1, f) && WfFuture(s, f);
        }
        i := i + 1;
      }
      NothingOutstanding(s, f);
      forall b: nat | b < |old(s).bufs| && Into(old(s), f, b) ensures b < |s.bufs| && s.bufs[b] == FinalBuf(old(s), b) {
        FilledWhenWaited(old(s), s, f, b);
      }
    }

    /** The buffer is copied when the request is made. */
    method WriteBlocksAsync(reactor: nat, f: nat, data: seq<Block>, start: int)
      requires Valid() && reactor < 3 && f < |s.futures| && |data| > 0 && MayWrite(s, start, |data|)
      modifies `s, `writeLog
      ensures Valid() && WriteIssued(old(s), s, f, start, data)
      ensures writeLog == old(writeLog) + [Extent(start, |data|)]
    {
      hide Settled, FinalBuf, WritingOn, ReadingOn, PendingOn, Into, Put;
      Elapse();
      StillMay(old(s), s, Settled(s), start, |data|);
      var r := Write(f, reactor, start, data, false);
      SentInv(s, r);
      SentSettled(s, r);
      SentPending(s, r);
      forall b: nat | b < |s.bufs| ensures FinalBuf(Sent(s, r), b) == FinalBuf(s, b) {
        SentBufs(s, r, b);
      }
      s := Sent(s, r);
      writeLog := writeLog + [Extent(start, |data|)];
    }

    method ReadBlocksAsync(reactor: nat, f: nat, start: int, nr: nat) returns (dest: nat)
      requires Valid() && reactor < 3 && f < |s.futures| && nr > 0 && MayRead(s, start, nr)
      modifies `s, `readLog
      ensures Valid() && ReadIssued(old(s), s, f, start, nr, dest) && Into(s, f, dest)
      ensures readLog == old(readLog) + [Extent(start, nr)]
    {
      hide Settled, FinalBuf, WritingOn, ReadingOn, PendingOn, Into;
      Elapse();
      ghost var s1 := s;
      dest := |s.bufs|;
      s := s.(bufs := s.bufs + [[]]);
      BufAdded(s1, s);
      QuietTrans(old(s), s1, s);
      ghost var s2 := s;
      StillMay(old(s), s, Settled(s), start, nr);
      var r := Read(f, reactor, start, nr, dest, [], false);
      SentInv(s, r);
      SentSettled(s, r);
      SentPending(s, r);
      forall b: nat | b < |s1.bufs| ensures FinalBuf(Sent(s, r), b) == FinalBuf(s, b) {
        SentBufs(s, r, b);
      }
      s := Sent(s, r);
      readLog := readLog + [Extent(start, nr)];
      assert s.pending[|s2.pending|] == r;
      FinalBufOfRead(s, |s2.pending|);
      assert Into(s, f, dest) by {
        IntoLast(s, f, dest);
      }
    }

    /** Issue one read on the data reactor and wait for it. */
    method ReadBlocks(start: int, nr: nat) returns (data: seq<Block>)
      requires Valid() && nr > 0 && MayRead(s, start, nr)
      modifies `s, `readLog
      ensures Valid() && Quiet(old(s), s) && data == old(Disk())[start..start + nr]
      ensures readLog == old(readLog) + [Extent(start, nr)]
    {
      data := ReadAndWait(DATA_REACTOR, start, nr);
    }

    /** Issue one read on some reactor, with a future of its own, and wait for it. */
    method ReadAndWait(reactor: nat, start: int, nr: nat) returns (data: seq<Block>)
      requires Valid() && nr > 0 && MayRead(s, start, nr) && reactor < 3
      modifies `s, `readLog
      ensures Valid() && Quiet(old(s), s) && data == old(Disk())[start..start + nr]
      ensures readLog == old(readLog) + [Extent(start, nr)]
    {
      hide Settled, FinalBuf, WritingOn, ReadingOn, PendingOn, Into;
      var f := FutureInit();
      ghost var s1 := s;
      StillMay(old(s), s, Settled(s), start, nr);
      data := ReadAndWaitOn(reactor, f, start, nr);
      QuietTrans(old(s), s1, s);
    }

    /** The same with a future that is used again, on which nothing is in flight. */
    method ReadAndWaitOn(reactor: nat, f: nat, start: int, nr: nat) returns (data: seq<Block>)
      requires Valid() && nr > 0 && MayRead(s, start, nr) && reactor < 3 && f < |s.futures| && !PendingOn(s, f)
      modifies `s, `readLog
      ensures Valid() && Quiet(old(s), s) && data == old(Disk())[start..start + nr] && !PendingOn(s, f)
      ensures readLog == old(readLog) + [Extent(start, nr)]
    {
      hide Settled, FinalBuf, WritingOn, ReadingOn, PendingOn, Into;
      ghost var s1 := s;
      QuietRefl(s);
      var dest := ReadBlocksAsync(reactor, f, start, nr);
      ghost var s2 := s;
      SpinWait(f);
      data := s.bufs[dest];
      ReadDone(s1, s1, s2, s, f, start, nr, dest);
    }

    method WriteBlocks(data: seq<Block>, start: int)
      requires Valid() && |data| > 0 && MayWrite(s, start, |data|)
      modifies `s, `writeLog
      ensures Valid() && Became(old(s), s, Put(old(Disk()), start, data))
      ensures writeLog == old(writeLog) + [Extent(start, |data|)]
    {
      hide Settled, FinalBuf, WritingOn, ReadingOn, PendingOn, Into, Put;
      var f := FutureInit();
      ghost var s1 := s;
      StillMay(old(s), s, Settled(s), start, |data|);
      WriteBlocksAsync(DATA_REACTOR, f, data, start);
      ghost var s2 := s;
      SpinWait(f);
      WriteDone(old(s), s1, s2, s, f, start, data);
    }

    /** Writes zeroes over blocks, one at a time. */
    method ZeroBlocks(start: int, nr: nat)
      requires Valid() && s.pending == [] && 0 <= start && start + nr <= DISK_BLOCKS
      modifies this
      ensures Valid() && s.pending == []
      ensures forall p: nat :: p < DISK_BLOCKS ==>
        Disk()[p] == if start <= p < start + nr then ZERO_BLOCK else old(Disk())[p]
    {
      var i := 0;
      while i < nr
        invariant 0 <= i <= nr && Valid() && s.pending == []
        invariant forall p: nat :: p < DISK_BLOCKS ==>
          Disk()[p] == if start <= p < start + i then ZERO_BLOCK else old(Disk())[p]
      {
        IdleMay(s, start + i, 1);
        ghost var s1 := s;
        WriteBlocks([ZERO_BLOCK], start + i);
        assert Put(Settled(s1), start + i, [ZERO_BLOCK]) == Settled(s1)[start + i := ZERO_BLOCK];
        IdleAgain(s1, s, Put(Settled(s1), start + i, [ZERO_BLOCK]));
        i := i + 1;
      }
    }
  }

  lemma NotOn(s: Io, f: nat, p: int)
    requires !PendingOn(s, f)
    ensures !WritingOn(s, f, p) && !ReadingOn(s, f, p)
  {
  }

  lemma ReadDone(s: Io, s1: Io, s2: Io, e: Io, f: nat, start: int, nr: nat, dest: nat)
    requires Inv(s) && Quiet(s, s1) && 0 <= start && start + nr <= DISK_BLOCKS
    requires ReadIssued(s1, s2, f, start, nr, dest) && Quiet(s2, e) && !PendingOn(e, f)
    ensures Quiet(s, e)
  {
    hide Settled, FinalBuf, WritingOn, ReadingOn;
    forall g: nat, p | ReadingOn(e, g, p) ensures ReadingOn(s, g, p) {
      NotOn(e, f, p);
    }
    forall g: nat, b: nat | Into(e, g, b) ensures Into(s, g, b) {
      assert PendingOn(e, g);
    }
  }

  lemma WriteDone(s: Io, s1: Io, s2: Io, e: Io, f: nat, start: int, data: seq<Block>)
    requires Inv(s) && Quiet(s, s1) && 0 <= start && start + |data| <= DISK_BLOCKS
    requires WriteIssued(s1, s2, f, start, data) && Quiet(s2, e) && !PendingOn(e, f)
    ensures Became(s, e, Put(Settled(s), start, data))
  {
    hide Settled, FinalBuf, WritingOn, ReadingOn, Put;
    forall g: nat, p | WritingOn(e, g, p) ensures WritingOn(s, g, p) {
      NotOn(e, f, p);
    }
  }

  lemma IntoLast(s: Io, f: nat, dest: nat)
    requires s.pending != []
    requires var r := s.pending[|s.pending| - 1]; r.Read? && r.f == f && r.dest == dest
    ensures Into(s, f, dest)
  {
  }

  lemma BufAdded(s: Io, s': Io)
    requires Inv(s) && s' == s.(bufs := s.bufs + [[]])
    ensures Quiet(s, s') && forall g: nat :: !Into(s', g, |s.bufs|)
  {
    forall i: nat | i < |s'.pending| ensures WfReq(s', s'.pending[i]) {
      assert WfReq(s, s.pending[i]);
    }
    forall g: nat | g < |s'.futures| ensures WfFuture(s', g) {
      assert WfFuture(s, g);
    }
    forall b: nat | b < |s.bufs| ensures FinalBuf(s', b) == FinalBuf(s, b) {
      if i: nat :| i < |s.pending| && s.pending[i].Read? && s.pending[i].dest == b {
        FinalBufOfRead(s, i);
        FinalBufOfRead(s', i);
      }
    }
    forall i: nat | i < |s.pending| && s.pending[i].Read? ensures s.pending[i].dest != |s.bufs| {
      assert WfReq(s, s.pending[i]);
    }
  }

  lemma NothingOutstanding(s: Io, f: nat)
    requires Inv(s) && f < |s.futures| && WfFuture(s, f)
    requires forall k: nat :: k < 3 ==> s.futures[f].counts[k] == s.futures[f].expected[k]
    ensures !PendingOn(s, f)
  {
    forall k: nat | k < |s.pending| ensures s.pending[k].f != f {
      assert WfReq(s, s.pending[k]);
      OutstandingNone(s.pending, f, s.pending[k].reactor);
    }
  }

  lemma FutureAdded(s: Io, s': Io)
    requires Inv(s) && s' == s.(futures := s.futures + [Future([0, 0, 0], [0, 0, 0])])
    ensures Quiet(s, s') && !PendingOn(s', |s.futures|)
  {
    var f := |s.futures|;
    forall i: nat | i < |s'.pending| ensures WfReq(s', s'.pending[i]) && s'.pending[i].f != f {
      assert WfReq(s, s.pending[i]);
    }
    forall k: nat ensures Outstanding(s.pending, f, k) == 0 {
      OutstandingNone(s.pending, f, k);
    }
    forall g: nat | g < |s'.futures| ensures WfFuture(s', g) {
      if g < f {
        assert WfFuture(s, g);
      }
    }
    forall b: nat | b < |s.bufs| ensures FinalBuf(s', b) == FinalBuf(s, b) {
      if i: nat :| i < |s.pending| && s.pending[i].Read? && s.pending[i].dest == b {
        FinalBufOfRead(s, i);
        FinalBufOfRead(s', i);
      }
    }
  }
}
