/**
 * Requests in flight between the main thread and the reactors, as a step relation. A request moves
 * its data to or from the device in one step and is completed by its callback in a later one.
 */
module Reactors {
  import opened Bytes
  import opened Layout

  datatype Req =
    | Write(f: nat, reactor: nat, start: int, data: seq<Block>, moved: bool)
    | Read(f: nat, reactor: nat, start: int, nr: nat, dest: nat, got: seq<Block>, moved: bool)

  /** Completion counters, one of each for every reactor. */
  datatype Future = Future(counts: seq<nat>, expected: seq<nat>)

  /** Futures and destination buffers are named by their index. */
  datatype Io = Io(disk: Disk, pending: seq<Req>, futures: seq<Future>, bufs: seq<seq<Block>>)

  function Len(r: Req): nat {
    if r.Write? then |r.data| else r.nr
  }

  predicate Touches(r: Req, p: int) {
    r.start <= p < r.start + Len(r)
  }

  ghost predicate Apart(r: Req, q: Req) {
    && (r.Write? || q.Write? ==> r.start + Len(r) <= q.start || q.start + Len(q) <= r.start)
    && (r.Read? && q.Read? ==> r.dest != q.dest)
  }

  /** Requests still pending on future `f` at one reactor. */
  function Outstanding(pending: seq<Req>, f: nat, reactor: nat): nat {
    if pending == [] then 0
    else
      var r := pending[|pending| - 1];
      Outstanding(pending[..|pending| - 1], f, reactor) + (if r.f == f && r.reactor == reactor then 1 else 0)
  }

  ghost predicate WfReq(s: Io, r: Req) {
    && 0 <= r.start && Len(r) > 0 && r.start + Len(r) <= DISK_BLOCKS
    && r.reactor < 3 && r.f < |s.futures|
    && (r.Write? && r.moved ==> forall p :: Touches(r, p) ==> s.disk[p] == r.data[p - r.start])
    && (r.Read? ==> r.dest < |s.bufs|)
    && (r.Read? && r.moved ==> r.got == s.disk[r.start..r.start + r.nr])
  }

  ghost predicate WfFuture(s: Io, f: nat)
    requires f < |s.futures|
  {
    var u := s.futures[f];
    && |u.counts| == 3 && |u.expected| == 3
    && forall i: nat :: i < 3 ==> u.expected[i] == u.counts[i] + Outstanding(s.pending, f, i)
  }

  /** No two requests in flight conflict, and every future counts what is still to come. */
  ghost predicate Inv(s: Io) {
    && (forall i :: 0 <= i < |s.pending| ==> WfReq(s, s.pending[i]))
    && (forall i, j :: 0 <= i < j < |s.pending| ==> Apart(s.pending[i], s.pending[j]))
    && (forall f: nat :: f < |s.futures| ==> WfFuture(s, f))
  }

  /** The device writes `data` at `start`. */
  function Put(disk: Disk, start: int, data: seq<Block>): Disk
    requires 0 <= start && start + |data| <= DISK_BLOCKS
  {
    disk[..start] + data + disk[start + |data|..]
  }

  function Drop(pending: seq<Req>, i: nat): seq<Req>
    requires i < |pending|
  {
    pending[..i] + pending[i + 1..]
  }

  /** Request `i` moves its data. */
  function Moved(s: Io, i: nat): Io
    requires Inv(s) && i < |s.pending| && !s.pending[i].moved
  {
    var r := s.pending[i];
    if r.Write? then
      s.(disk := Put(s.disk, r.start, r.data), pending := s.pending[i := Write(r.f, r.reactor, r.start, r.data, true)])
    else
      s.(pending := s.pending[i := Read(r.f, r.reactor, r.start, r.nr, r.dest, s.disk[r.start..r.start + r.nr], true)])
  }

  /** The callback of request `i`: copy out what was read, then bump the counter of its reactor. */
  function Completed(s: Io, i: nat): Io
    requires Inv(s) && i < |s.pending| && s.pending[i].moved
  {
    var r := s.pending[i];
    CompletionFits(s, i);
    var futures := s.futures[r.f := CountOne(s.futures[r.f], r.reactor)];
    Io(s.disk, Drop(s.pending, i), futures, if r.Read? then s.bufs[r.dest := r.got] else s.bufs)
  }

  /** `f->counts[reactor_id] += 1` */
  function CountOne(u: Future, reactor: nat): Future
    requires reactor < |u.counts|
  {
    Future(u.counts[reactor := u.counts[reactor] + 1], u.expected)
  }

  lemma CountersFit(s: Io, f: nat)
    requires Inv(s) && f < |s.futures|
    ensures |s.futures[f].counts| == |s.futures[f].expected| == 3
  {
    assert WfFuture(s, f);
  }

  lemma CompletionFits(s: Io, i: nat)
    requires Inv(s) && i < |s.pending|
    ensures var r := s.pending[i];
            && r.f < |s.futures| && r.reactor < 3 && |s.futures[r.f].counts| == 3
            && (r.Read? ==> r.dest < |s.bufs|)
  {
    assert WfReq(s, s.pending[i]);
    CountersFit(s, s.pending[i].f);
  }

  ghost predicate Next(s: Io, s': Io)
    requires Inv(s)
  {
    exists i: nat :: i < |s.pending| && s' == if s.pending[i].moved then Completed(s, i) else Moved(s, i)
  }

  /** Block `p` once every pending write has reached the device. */
  function SettledAt(disk: Disk, pending: seq<Req>, p: nat): Block
    requires p < DISK_BLOCKS
  {
    if pending == [] then disk[p]
    else
      var r := pending[|pending| - 1];
      if r.Write? && Touches(r, p) then r.data[p - r.start] else SettledAt(disk, pending[..|pending| - 1], p)
  }

  function Settled(s: Io): Disk {
    seq(DISK_BLOCKS, p requires 0 <= p < DISK_BLOCKS => SettledAt(s.disk, s.pending, p))
  }

  /** Buffer `b` once every pending read has been completed. */
  ghost function FinalBuf(s: Io, b: nat): seq<Block>
    requires Inv(s) && b < |s.bufs|
  {
    if exists i: nat :: i < |s.pending| && s.pending[i].Read? && s.pending[i].dest == b then
      var i: nat :| i < |s.pending| && s.pending[i].Read? && s.pending[i].dest == b;
      assert WfReq(s, s.pending[i]);
      Settled(s)[s.pending[i].start..s.pending[i].start + s.pending[i].nr]
    else s.bufs[b]
  }

  /** A write issued on future `f` is still to reach block `p`. */
  ghost predicate WritingOn(s: Io, f: nat, p: int) {
    exists i: nat :: i < |s.pending| && s.pending[i].Write? && s.pending[i].f == f && Touches(s.pending[i], p)
  }

  ghost predicate ReadingOn(s: Io, f: nat, p: int) {
    exists i: nat :: i < |s.pending| && s.pending[i].Read? && s.pending[i].f == f && Touches(s.pending[i], p)
  }

  ghost predicate Writing(s: Io, p: int) {
    exists f: nat :: WritingOn(s, f, p)
  }

  ghost predicate Reading(s: Io, p: int) {
    exists f: nat :: ReadingOn(s, f, p)
  }

  ghost predicate PendingOn(s: Io, f: nat) {
    exists i: nat :: i < |s.pending| && s.pending[i].f == f
  }

  /** A read issued on future `f` is still to fill buffer `b`. */
  ghost predicate Into(s: Io, f: nat, b: nat) {
    exists i: nat :: i < |s.pending| && s.pending[i].Read? && s.pending[i].f == f && s.pending[i].dest == b
  }

  /** From `s` to `s'` the device came to settle to `disk`, and nothing old became pending. */
  ghost predicate Became(s: Io, s': Io, disk: Disk)
    requires Inv(s)
  {
    && Inv(s')
    && Settled(s') == disk
    && |s'.futures| >= |s.futures| && |s'.bufs| >= |s.bufs|
    && (forall f: nat, p :: WritingOn(s', f, p) ==> WritingOn(s, f, p))
    && (forall f: nat, p :: ReadingOn(s', f, p) ==> ReadingOn(s, f, p))
    && (forall f: nat :: PendingOn(s', f) ==> PendingOn(s, f))
    && (forall f: nat, b: nat :: Into(s', f, b) ==> Into(s, f, b))
    && (forall b: nat :: b < |s.bufs| ==> FinalBuf(s', b) == FinalBuf(s, b))
  }

  /** From `s` to `s'` nothing was settled differently. */
  ghost predicate Quiet(s: Io, s': Io)
    requires Inv(s)
  {
    Became(s, s', Settled(s))
  }

  lemma BecameTrans(s: Io, s1: Io, disk1: Disk, s2: Io, disk2: Disk)
    requires Inv(s) && Became(s, s1, disk1) && Became(s1, s2, disk2)
    ensures Became(s, s2, disk2)
  {
  }

  lemma QuietTrans(s: Io, s1: Io, s2: Io)
    requires Inv(s) && Quiet(s, s1) && Quiet(s1, s2)
    ensures Quiet(s, s2)
  {
    BecameTrans(s, s1, Settled(s), s2, Settled(s));
  }

  lemma {:induction false} SettledByWrite(disk: Disk, pending: seq<Req>, i: nat, p: nat)
    requires i < |pending| && pending[i].Write? && Touches(pending[i], p) && p < DISK_BLOCKS
    requires forall k, j :: 0 <= k < j < |pending| ==> Apart(pending[k], pending[j])
    ensures SettledAt(disk, pending, p) == pending[i].data[p - pending[i].start]
  {
    var n := |pending| - 1;
    if i < n {
      assert Apart(pending[i], pending[n]);
      assert pending[..n][i] == pending[i];
      SettledByWrite(disk, pending[..n], i, p);
    }
  }

  lemma {:induction false} SettledUntouched(disk: Disk, pending: seq<Req>, p: nat)
    requires p < DISK_BLOCKS
    requires forall i :: 0 <= i < |pending| && pending[i].Write? ==> !Touches(pending[i], p)
    ensures SettledAt(disk, pending, p) == disk[p]
  {
    if pending != [] {
      SettledUntouched(disk, pending[..|pending| - 1], p);
    }
  }

  /** Settled blocks depend only on which write, if any, touches them. */
  lemma SettledSplit(s: Io, p: nat)
    requires Inv(s) && p < DISK_BLOCKS
    ensures !Writing(s, p) ==> Settled(s)[p] == s.disk[p]
    ensures forall i: nat :: i < |s.pending| && s.pending[i].Write? && Touches(s.pending[i], p)
              ==> Settled(s)[p] == s.pending[i].data[p - s.pending[i].start]
  {
    if !Writing(s, p) {
      forall i: nat | i < |s.pending| && s.pending[i].Write? ensures !Touches(s.pending[i], p) {
        assert !WritingOn(s, s.pending[i].f, p);
      }
      SettledUntouched(s.disk, s.pending, p);
    }
    forall i: nat | i < |s.pending| && s.pending[i].Write? && Touches(s.pending[i], p)
      ensures Settled(s)[p] == s.pending[i].data[p - s.pending[i].start]
    {
      SettledByWrite(s.disk, s.pending, i, p);
    }
  }

  lemma FinalBufOfRead(s: Io, i: nat)
    requires Inv(s) && i < |s.pending| && s.pending[i].Read?
    ensures var r := s.pending[i];
            WfReq(s, r) && FinalBuf(s, r.dest) == Settled(s)[r.start..r.start + r.nr] == s.disk[r.start..r.start + r.nr]
  {
    var r := s.pending[i];
    assert WfReq(s, r);
    var k: nat :| k < |s.pending| && s.pending[k].Read? && s.pending[k].dest == r.dest
                  && FinalBuf(s, r.dest) == Settled(s)[s.pending[k].start..s.pending[k].start + s.pending[k].nr];
    assert k == i;
    forall p: nat | Touches(r, p) ensures Settled(s)[p] == s.disk[p] {
      forall j: nat | j < |s.pending| && s.pending[j].Write? ensures !Touches(s.pending[j], p) {
        if j < i {
          assert Apart(s.pending[j], r);
        } else if i < j {
          assert Apart(r, s.pending[j]);
        }
      }
      SettledSplit(s, p);
    }
  }

  lemma {:induction false} OutstandingSame(a: seq<Req>, b: seq<Req>, f: nat, reactor: nat)
    requires |a| == |b|
    requires forall i :: 0 <= i < |a| ==> a[i].f == b[i].f && a[i].reactor == b[i].reactor
    ensures Outstanding(a, f, reactor) == Outstanding(b, f, reactor)
  {
    if a != [] {
      OutstandingSame(a[..|a| - 1], b[..|b| - 1], f, reactor);
    }
  }

  lemma {:induction false} OutstandingDrop(a: seq<Req>, i: nat, f: nat, reactor: nat)
    requires i < |a|
    ensures Outstanding(a, f, reactor)
         == Outstanding(Drop(a, i), f, reactor) + (if a[i].f == f && a[i].reactor == reactor then 1 else 0)
  {
    var n := |a| - 1;
    if i == n {
      assert Drop(a, i) == a[..n];
    } else {
      OutstandingDrop(a[..n], i, f, reactor);
      var d := Drop(a, i);
      assert d[|d| - 1] == a[n] && d[..|d| - 1] == Drop(a[..n], i);
    }
  }

  lemma {:induction false} OutstandingNone(a: seq<Req>, f: nat, reactor: nat)
    ensures Outstanding(a, f, reactor) == 0 <==> forall i :: 0 <= i < |a| ==> !(a[i].f == f && a[i].reactor == reactor)
  {
    if a != [] {
      var n := |a| - 1;
      OutstandingNone(a[..n], f, reactor);
      assert forall i :: 0 <= i < n ==> a[..n][i] == a[i];
    }
  }

  /** Steps left: two for a request that has not moved its data yet, one for one that has. */
  function Work(a: seq<Req>): nat {
    if a == [] then 0 else Work(a[..|a| - 1]) + (if a[|a| - 1].moved then 1 else 2)
  }

  lemma {:induction false} WorkUpdate(a: seq<Req>, i: nat, r: Req)
    requires i < |a| && !a[i].moved && r.moved
    ensures Work(a[i := r]) + 1 == Work(a)
  {
    var n := |a| - 1;
    if i == n {
      assert a[i := r][..n] == a[..n];
    } else {
      assert a[i := r][..n] == a[..n][i := r];
      WorkUpdate(a[..n], i, r);
    }
  }

  lemma {:induction false} WorkDrop(a: seq<Req>, i: nat)
    requires i < |a| && a[i].moved
    ensures Work(Drop(a, i)) + 1 == Work(a)
  {
    var n := |a| - 1;
    if i == n {
      assert Drop(a, i) == a[..n];
    } else {
      WorkDrop(a[..n], i);
      var d := Drop(a, i);
      assert d[|d| - 1] == a[n] && d[..|d| - 1] == Drop(a[..n], i);
    }
  }

  /** Expected counts stand still and counts only grow. */
  ghost predicate CountsGrow(s: Io, s': Io)
    requires Inv(s) && Inv(s')
  {
    |s'.futures| >= |s.futures| &&
    forall f: nat :: f < |s.futures| ==>
      WfFuture(s, f) && WfFuture(s', f) && s'.futures[f].expected == s.futures[f].expected
      && forall i: nat :: i < 3 ==> s'.futures[f].counts[i] >= s.futures[f].counts[i]
  }

  lemma PutAt(disk: Disk, start: int, data: seq<Block>, p: nat)
    requires 0 <= start && start + |data| <= DISK_BLOCKS && p < DISK_BLOCKS
    ensures Put(disk, start, data)[p] == if start <= p < start + |data| then data[p - start] else disk[p]
  {
  }

  lemma MovedDisk(s: Io, i: nat)
    requires Inv(s) && i < |s.pending| && !s.pending[i].moved
    ensures var r, s' := s.pending[i], Moved(s, i);
            forall p: nat :: p < DISK_BLOCKS ==>
              s'.disk[p] == if r.Write? && Touches(r, p) then r.data[p - r.start] else s.disk[p]
  {
    var r := s.pending[i];
    assert WfReq(s, r);
    if r.Write? {
      forall p: nat | p < DISK_BLOCKS {
        PutAt(s.disk, r.start, r.data, p);
      }
    }
  }

  lemma MovedReq(s: Io, i: nat, j: nat)
    requires Inv(s) && i < |s.pending| && !s.pending[i].moved && j < |s.pending|
    ensures WfReq(Moved(s, i), Moved(s, i).pending[j])
  {
    hide Put, Settled;
    var r, q, s' := s.pending[i], s.pending[j], Moved(s, i);
    assert WfReq(s, q) && WfReq(s, r);
    MovedDisk(s, i);
    if j != i && q.Read? && q.moved {
      assert Apart(q, r) || Apart(r, q);
      assert s'.disk[q.start..q.start + q.nr] == s.disk[q.start..q.start + q.nr];
    }
  }

  lemma MovedFuture(s: Io, i: nat, f: nat)
    requires Inv(s) && i < |s.pending| && !s.pending[i].moved && f < |s.futures|
    ensures WfFuture(Moved(s, i), f)
  {
    hide Put;
    assert WfFuture(s, f);
    forall k: nat | k < 3 ensures Outstanding(s.pending, f, k) == Outstanding(Moved(s, i).pending, f, k) {
      OutstandingSame(s.pending, Moved(s, i).pending, f, k);
    }
  }

  lemma MovedInv(s: Io, i: nat)
    requires Inv(s) && i < |s.pending| && !s.pending[i].moved
    ensures Inv(Moved(s, i)) && Work(Moved(s, i).pending) < Work(s.pending)
  {
    hide Put, WfReq, Settled, WfFuture;
    var s' := Moved(s, i);
    forall j, k | 0 <= j < k < |s'.pending| ensures Apart(s'.pending[j], s'.pending[k]) {
      assert Apart(s.pending[j], s.pending[k]);
    }
    forall j: nat | j < |s'.pending| ensures WfReq(s', s'.pending[j]) {
      MovedReq(s, i, j);
    }
    forall f: nat | f < |s'.futures| ensures WfFuture(s', f) {
      MovedFuture(s, i, f);
    }
    WorkUpdate(s.pending, i, s'.pending[i]);
  }

  lemma MovedSettled(s: Io, i: nat)
    requires Inv(s) && i < |s.pending| && !s.pending[i].moved && Inv(Moved(s, i))
    ensures Settled(Moved(s, i)) == Settled(s)
  {
    hide Put, Inv, WfReq, WfFuture, Apart, SettledAt;
    var r, s' := s.pending[i], Moved(s, i);
    MovedDisk(s, i);
    forall p: nat | p < DISK_BLOCKS ensures Settled(s')[p] == Settled(s)[p] {
      SettledSplit(s, p);
      SettledSplit(s', p);
      if j: nat :| j < |s.pending| && s.pending[j].Write? && Touches(s.pending[j], p) {
        assert s'.pending[j].Write? && Touches(s'.pending[j], p);
      } else {
        assert forall j: nat :: j < |s'.pending| && s'.pending[j].Write? ==>
          s.pending[j].Write? && !Touches(s'.pending[j], p);
        assert !Writing(s, p) && !Writing(s', p);
      }
    }
  }

  /** Where request `j` of the state after a completion was before. */
  function Before(i: nat, j: nat): nat {
    if j < i then j else j + 1
  }

  lemma CompletedFuture(s: Io, i: nat, f: nat)
    requires Inv(s) && i < |s.pending| && s.pending[i].moved && f < |s.futures|
    ensures WfFuture(Completed(s, i), f)
  {
    assert WfFuture(s, f) && WfReq(s, s.pending[i]);
    OutstandingDrop(s.pending, i, f, 0);
    OutstandingDrop(s.pending, i, f, 1);
    OutstandingDrop(s.pending, i, f, 2);
  }

  lemma CompletedInv(s: Io, i: nat)
    requires Inv(s) && i < |s.pending| && s.pending[i].moved
    ensures Inv(Completed(s, i)) && Work(Completed(s, i).pending) < Work(s.pending)
  {
    hide Settled, WfFuture;
    var s' := Completed(s, i);
    forall j: nat | j < |s'.pending| ensures WfReq(s', s'.pending[j]) {
      assert s'.pending[j] == s.pending[Before(i, j)];
      assert WfReq(s, s.pending[Before(i, j)]);
    }
    forall j, k | 0 <= j < k < |s'.pending| ensures Apart(s'.pending[j], s'.pending[k]) {
      assert Apart(s.pending[Before(i, j)], s.pending[Before(i, k)]);
    }
    forall f: nat | f < |s'.futures| ensures WfFuture(s', f) {
      CompletedFuture(s, i, f);
    }
    WorkDrop(s.pending, i);
  }

  lemma CompletedSettled(s: Io, i: nat)
    requires Inv(s) && i < |s.pending| && s.pending[i].moved && Inv(Completed(s, i))
    ensures Settled(Completed(s, i)) == Settled(s)
  {
    hide Put, WfFuture, Apart, SettledAt;
    var r, s' := s.pending[i], Completed(s, i);
    assert WfReq(s, r);
    forall p: nat | p < DISK_BLOCKS ensures Settled(s')[p] == Settled(s)[p] {
      SettledSplit(s, p);
      SettledSplit(s', p);
      if j: nat :| j < |s'.pending| && s'.pending[j].Write? && Touches(s'.pending[j], p) {
        assert s.pending[Before(i, j)] == s'.pending[j];
      } else {
        assert !Writing(s', p);
        forall j: nat | j < |s.pending| && j != i ensures !(s.pending[j].Write? && Touches(s.pending[j], p)) {
          assert s'.pending[if j < i then j else j - 1] == s.pending[j];
        }
      }
    }
  }

  /** One step: what the run will settle to is the same, and less work is left. */
  lemma NextQuiet(s: Io, s': Io)
    requires Inv(s) && Next(s, s')
    ensures Quiet(s, s') && CountsGrow(s, s') && Work(s'.pending) < Work(s.pending)
    ensures |s'.futures| == |s.futures| && |s'.bufs| == |s.bufs|
  {
    hide Settled, Work, FinalBuf, Outstanding, Apart;
    var i: nat :| i < |s.pending| && s' == if s.pending[i].moved then Completed(s, i) else Moved(s, i);
    if s.pending[i].moved {
      CompletedInv(s, i);
      CompletedSettled(s, i);
    } else {
      MovedInv(s, i);
      MovedSettled(s, i);
    }
    NextPending(s, i, s');
    NextFutures(s, i, s');
    forall b: nat | b < |s.bufs| ensures FinalBuf(s', b) == FinalBuf(s, b) {
      NextBuf(s, i, s', b);
    }
  }

  lemma NextFutures(s: Io, i: nat, s': Io)
    requires Inv(s) && Inv(s') && i < |s.pending|
    requires s' == if s.pending[i].moved then Completed(s, i) else Moved(s, i)
    ensures |s'.futures| == |s.futures| && |s'.bufs| == |s.bufs| && CountsGrow(s, s')
  {
    assert WfReq(s, s.pending[i]);
    forall f: nat | f < |s.futures|
      ensures WfFuture(s, f) && WfFuture(s', f) && s'.futures[f].expected == s.futures[f].expected
      ensures forall k: nat :: k < 3 ==> s'.futures[f].counts[k] >= s.futures[f].counts[k]
    {
      assert WfFuture(s, f) && WfFuture(s', f);
    }
  }

  lemma NextPending(s: Io, i: nat, s': Io)
    requires Inv(s) && i < |s.pending|
    requires s' == if s.pending[i].moved then Completed(s, i) else Moved(s, i)
    ensures forall f: nat, p :: WritingOn(s', f, p) ==> WritingOn(s, f, p)
    ensures forall f: nat, p :: ReadingOn(s', f, p) ==> ReadingOn(s, f, p)
    ensures forall f: nat :: PendingOn(s', f) ==> PendingOn(s, f)
    ensures forall f: nat, b: nat :: Into(s', f, b) ==> Into(s, f, b)
  {
    forall j: nat | j < |s'.pending|
      ensures exists k: nat :: k < |s.pending| && SameRequest(s'.pending[j], s.pending[k])
    {
      var k := if s.pending[i].moved then Before(i, j) else j;
      assert SameRequest(s'.pending[j], s.pending[k]);
    }
  }

  ghost predicate SameRequest(r: Req, q: Req) {
    && r.Write? == q.Write? && r.f == q.f && r.reactor == q.reactor && r.start == q.start && Len(r) == Len(q)
    && (r.Read? ==> r.dest == q.dest)
  }

  lemma NextBuf(s: Io, i: nat, s': Io, b: nat)
    requires Inv(s) && Inv(s') && i < |s.pending| && Settled(s') == Settled(s)
    requires s' == if s.pending[i].moved then Completed(s, i) else Moved(s, i)
    requires b < |s.bufs|
    ensures FinalBuf(s', b) == FinalBuf(s, b)
  {
    hide Settled, SettledAt, Outstanding, Put, WfFuture, Apart, Work;
    if j: nat :| j < |s'.pending| && s'.pending[j].Read? && s'.pending[j].dest == b {
      FinalBufOfRead(s', j);
      var k := if s.pending[i].moved && j >= i then j + 1 else j;
      assert SameRequest(s'.pending[j], s.pending[k]);
      FinalBufOfRead(s, k);
    } else if s.pending[i].moved && s.pending[i].Read? && s.pending[i].dest == b {
      FinalBufOfRead(s, i);
    } else {
      forall k: nat | k < |s.pending| ensures !(s.pending[k].Read? && s.pending[k].dest == b) {
        if k != i || !s.pending[i].moved {
          var j := if s.pending[i].moved && k > i then k - 1 else k;
          assert SameRequest(s'.pending[j], s.pending[k]);
        }
      }
    }
  }

  // Whole runs

  /** A run of the reactors with nothing issued in between. */
  ghost predicate Run(tr: seq<Io>) {
    && tr != [] && (forall i :: 0 <= i < |tr| ==> Inv(tr[i]))
    && forall i :: 0 <= i < |tr| - 1 ==> Next(tr[i], tr[i + 1])
  }

  lemma {:induction false} RunQuiet(tr: seq<Io>)
    requires Run(tr)
    ensures Quiet(tr[0], tr[|tr| - 1]) && CountsGrow(tr[0], tr[|tr| - 1])
    ensures Work(tr[|tr| - 1].pending) + |tr| - 1 <= Work(tr[0].pending)
    ensures |tr[|tr| - 1].futures| == |tr[0].futures| && |tr[|tr| - 1].bufs| == |tr[0].bufs|
  {
    hide Became, Next, Inv;
    var n := |tr| - 1;
    if n == 0 {
      QuietRefl(tr[0]);
    } else {
      var front := tr[..n];
      assert Run(front) by {
        forall i | 0 <= i < n - 1 ensures Next(front[i], front[i + 1]) {
          assert Next(tr[i], tr[i + 1]);
        }
      }
      RunQuiet(front);
      assert front[n - 1] == tr[n - 1] && Next(tr[n - 1], tr[n - 1 + 1]);
      NextQuiet(tr[n - 1], tr[n]);
      QuietTrans(tr[0], tr[n - 1], tr[n]);
      CountsGrowTrans(tr[0], tr[n - 1], tr[n]);
    }
  }

  lemma QuietRefl(s: Io)
    requires Inv(s)
    ensures Quiet(s, s) && CountsGrow(s, s)
  {
    forall f: nat | f < |s.futures| ensures WfFuture(s, f) {
    }
  }

  lemma CountsGrowTrans(s: Io, s1: Io, s2: Io)
    requires Inv(s) && Inv(s1) && Inv(s2) && CountsGrow(s, s1) && CountsGrow(s1, s2)
    ensures CountsGrow(s, s2)
  {
    forall f: nat | f < |s.futures|
      ensures WfFuture(s, f) && WfFuture(s2, f) && s2.futures[f].expected == s.futures[f].expected
      ensures forall k: nat :: k < 3 ==> s2.futures[f].counts[k] >= s.futures[f].counts[k]
    {
      assert WfFuture(s, f) && WfFuture(s1, f) && WfFuture(s2, f);
    }
  }

  lemma NothingPending(s: Io)
    requires Inv(s) && s.pending == []
    ensures Settled(s) == s.disk && forall b: nat :: b < |s.bufs| ==> FinalBuf(s, b) == s.bufs[b]
  {
  }

  /** While requests are pending some step can be taken, so runs end only when none are. */
  lemma NeverStuck(s: Io)
    requires Inv(s)
    ensures (exists s' :: Next(s, s')) <==> s.pending != []
  {
    if s.pending != [] {
      var s' := if s.pending[0].moved then Completed(s, 0) else Moved(s, 0);
      assert Next(s, s');
    }
  }

  /** Whatever order the reactors work in, two complete runs end with the same device, buffers and counters. */
  lemma OrderDoesNotMatter(tr: seq<Io>, tr': seq<Io>)
    requires Run(tr) && Run(tr') && tr[0] == tr'[0]
    requires tr[|tr| - 1].pending == [] && tr'[|tr'| - 1].pending == []
    ensures tr[|tr| - 1] == tr'[|tr'| - 1]
  {
    var s, e, e' := tr[0], tr[|tr| - 1], tr'[|tr'| - 1];
    RunQuiet(tr);
    RunQuiet(tr');
    NothingPending(e);
    NothingPending(e');
    assert e.bufs == e'.bufs by {
      forall b: nat | b < |s.bufs| ensures e.bufs[b] == e'.bufs[b] {
        assert FinalBuf(e, b) == FinalBuf(s, b) == FinalBuf(e', b);
      }
    }
    forall f: nat | f < |s.futures| ensures e.futures[f] == e'.futures[f] {
      assert WfFuture(s, f) && WfFuture(e, f) && WfFuture(e', f);
      assert e.futures[f].counts == e.futures[f].expected == s.futures[f].expected;
      assert e'.futures[f].counts == e'.futures[f].expected == s.futures[f].expected;
    }
    assert e.futures == e'.futures;
  }

  /**
   * Waiting on one reactor after another: at moment `at[i]` of a run the counter of reactor `i` was
   * seen to match. Then at the last of these moments no request on that future is pending.
   */
  lemma SequentialChecksSuffice(tr: seq<Io>, f: nat, at: seq<nat>)
    requires Run(tr) && f < |tr[0].futures| && |at| == 3
    requires at[0] <= at[1] <= at[2] == |tr| - 1
    requires forall i: nat :: i < 3 ==> SeenEqual(tr, f, at, i)
    ensures !PendingOn(tr[|tr| - 1], f)
    ensures forall b: nat :: b < |tr[0].bufs| && Into(tr[0], f, b)
              ==> b < |tr[|tr| - 1].bufs| && tr[|tr| - 1].bufs[b] == FinalBuf(tr[0], b)
  {
    var e := tr[|tr| - 1];
    RunQuiet(tr);
    forall i: nat | i < 3 ensures Outstanding(e.pending, f, i) == 0 {
      assert SeenEqual(tr, f, at, i);
      var rest := tr[at[i]..];
      assert Run(rest) by {
        forall k | 0 <= k < |rest| - 1 ensures Next(rest[k], rest[k + 1]) {
          assert Next(tr[at[i] + k], tr[at[i] + k + 1]);
        }
      }
      RunQuiet(rest);
      assert rest[|rest| - 1] == e;
      assert WfFuture(rest[0], f) && WfFuture(e, f);
    }
    forall k: nat | k < |e.pending| ensures e.pending[k].f != f {
      var reactor := e.pending[k].reactor;
      assert WfReq(e, e.pending[k]);
      OutstandingNone(e.pending, f, reactor);
    }
    forall b: nat | b < |tr[0].bufs| && Into(tr[0], f, b) ensures e.bufs[b] == FinalBuf(tr[0], b) {
      FilledWhenWaited(tr[0], e, f, b);
    }
  }

  /** Once nothing is pending on the future of a read, its buffer holds what it was to read. */
  lemma FilledWhenWaited(s: Io, e: Io, f: nat, b: nat)
    requires Inv(s) && Quiet(s, e) && Into(s, f, b) && !PendingOn(e, f) && b < |s.bufs|
    ensures b < |e.bufs| && e.bufs[b] == FinalBuf(s, b)
  {
    forall i: nat | i < |e.pending| && e.pending[i].Read? ensures e.pending[i].dest != b {
      if e.pending[i].dest == b {
        assert Into(e, e.pending[i].f, b);
        OneReader(s, f, e.pending[i].f, b);
        assert false;
      }
    }
  }

  lemma OneReader(s: Io, f: nat, g: nat, b: nat)
    requires Inv(s) && Into(s, f, b) && Into(s, g, b)
    ensures f == g
  {
    var i: nat :| i < |s.pending| && s.pending[i].Read? && s.pending[i].f == f && s.pending[i].dest == b;
    var j: nat :| j < |s.pending| && s.pending[j].Read? && s.pending[j].f == g && s.pending[j].dest == b;
    assert i == j;
  }

  ghost predicate SeenEqual(tr: seq<Io>, f: nat, at: seq<nat>, i: nat)
    requires |at| == 3 && i < 3
  {
    && at[i] < |tr| && f < |tr[at[i]].futures|
    && |tr[at[i]].futures[f].counts| == |tr[at[i]].futures[f].expected| == 3
    && tr[at[i]].futures[f].counts[i] == tr[at[i]].futures[f].expected[i]
  }
}
