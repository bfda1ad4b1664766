/** Saving many inodes at once: indirect blocks first, then the dinodes clustered by inode block. */
module Bulk {
  import opened Bytes
  import opened Layout
  import opened Volume
  import opened Reactors
  import opened Device
  import opened Super
  import opened Inodes
  import opened Steps
  import opened AltPath

  /** What is to be saved of one inode. */
  datatype Unsaved = Unsaved(nr: nat, d: DInode, tableDirty: bool, table: seq<int32>)

  predicate WfUnsaved(u: Unsaved) {
    u.nr < NR_INODES && |u.table| == 128 && (u.tableDirty ==> IsData(u.d.indirect))
  }

  predicate Wf(us: seq<Unsaved>) {
    forall i :: 0 <= i < |us| ==> WfUnsaved(us[i])
  }

  function TableWritten(disk: Disk, u: Unsaved): Disk
    requires WfUnsaved(u)
  {
    WithIndirect(disk, u.d, u.tableDirty, u.table)
  }

  function TablesWritten(disk: Disk, us: seq<Unsaved>): Disk
    requires Wf(us)
  {
    if us == [] then disk else TableWritten(TablesWritten(disk, us[..|us| - 1]), us[|us| - 1])
  }

  function DInodesWritten(disk: Disk, us: seq<Unsaved>): Disk
    requires Wf(us)
  {
    if us == [] then disk else WithDInode(DInodesWritten(disk, us[..|us| - 1]), us[|us| - 1].nr, us[|us| - 1].d)
  }

  /** The device after the inodes were saved one by one, as `testfs_sync_inode` does. */
  function SyncedOneByOne(disk: Disk, us: seq<Unsaved>): Disk
    requires Wf(us)
  {
    if us == [] then disk
    else
      var u := us[|us| - 1];
      SyncedDisk(SyncedOneByOne(disk, us[..|us| - 1]), u.nr, u.d, u.tableDirty, u.table)
  }

  /** No inode is listed twice, and no two of them share an indirect block. */
  ghost predicate Distinct(us: seq<Unsaved>) {
    forall i, j :: 0 <= i < j < |us| ==>
      us[i].nr != us[j].nr && (us[i].tableDirty && us[j].tableDirty ==> us[i].d.indirect != us[j].d.indirect)
  }

  lemma TableAndDInodeCommute(disk: Disk, u: Unsaved, nr: nat, d: DInode)
    requires WfUnsaved(u) && nr < NR_INODES
    ensures TableWritten(WithDInode(disk, nr, d), u) == WithDInode(TableWritten(disk, u), nr, d)
  {
    hide OfInts, EncodeDInode;
  }

  lemma {:induction false} TableBeforeDInodes(disk: Disk, us: seq<Unsaved>, u: Unsaved)
    requires Wf(us) && WfUnsaved(u)
    ensures TableWritten(DInodesWritten(disk, us), u) == DInodesWritten(TableWritten(disk, u), us)
  {
    hide TableWritten, WithDInode;
    if us != [] {
      var last := us[|us| - 1];
      TableBeforeDInodes(disk, us[..|us| - 1], u);
      TableAndDInodeCommute(DInodesWritten(disk, us[..|us| - 1]), u, last.nr, last.d);
    }
  }

  /** Doing all indirect blocks first makes no difference. */
  lemma {:induction false} TablesFirst(disk: Disk, us: seq<Unsaved>)
    requires Wf(us)
    ensures DInodesWritten(TablesWritten(disk, us), us) == SyncedOneByOne(disk, us)
  {
    hide TableWritten, WithDInode;
    if us != [] {
      var front, u := us[..|us| - 1], us[|us| - 1];
      TablesFirst(disk, front);
      TableBeforeDInodes(TablesWritten(disk, front), front, u);
      TableAndDInodeCommute(SyncedOneByOne(disk, front), u, u.nr, u.d);
      SyncIs(SyncedOneByOne(disk, front), u);
    }
  }

  lemma SyncIs(disk: Disk, u: Unsaved)
    requires WfUnsaved(u)
    ensures SyncedDisk(disk, u.nr, u.d, u.tableDirty, u.table) == TableWritten(WithDInode(disk, u.nr, u.d), u)
  {
    hide WithDInode, OfInts;
  }

  // The order does not matter

  lemma SyncsCommute(disk: Disk, u: Unsaved, w: Unsaved)
    requires WfUnsaved(u) && WfUnsaved(w) && u.nr != w.nr
      && (u.tableDirty && w.tableDirty ==> u.d.indirect != w.d.indirect)
    ensures SyncedDisk(SyncedDisk(disk, u.nr, u.d, u.tableDirty, u.table), w.nr, w.d, w.tableDirty, w.table)
         == SyncedDisk(SyncedDisk(disk, w.nr, w.d, w.tableDirty, w.table), u.nr, u.d, u.tableDirty, u.table)
  {
    hide OfInts, EncodeDInode;
    if u.nr / 16 == w.nr / 16 {
      EncodeDInodeCommutes(disk[INODE_START + u.nr / 16], u.nr, u.d, w.nr, w.d);
    }
  }

  function Without<T>(us: seq<T>, i: nat): seq<T>
    requires i < |us|
  {
    us[..i] + us[i + 1..]
  }

  lemma WithoutFits(us: seq<Unsaved>, i: nat)
    requires Wf(us) && Distinct(us) && i < |us|
    ensures Wf(Without(us, i)) && Distinct(Without(us, i))
    ensures forall k :: 0 <= k < |us| && k != i ==> us[k].nr != us[i].nr
    ensures forall k :: 0 <= k < |us| && k != i && us[k].tableDirty && us[i].tableDirty ==>
      us[k].d.indirect != us[i].d.indirect
  {
    var rest := Without(us, i);
    forall j, k | 0 <= j < k < |rest|
      ensures rest[j].nr != rest[k].nr
      ensures rest[j].tableDirty && rest[k].tableDirty ==> rest[j].d.indirect != rest[k].d.indirect
    {
      var j', k' := if j < i then j else j + 1, if k < i then k else k + 1;
      assert rest[j] == us[j'] && rest[k] == us[k'];
    }
  }

  lemma WithoutLast(us: seq<Unsaved>, i: nat)
    requires i < |us| - 1
    ensures var n := |us| - 1; var rest := Without(us, i);
            |rest| == n && rest[..n - 1] == Without(us[..n], i) && rest[n - 1] == us[n] && us[..n][i] == us[i]
  {
  }

  /** Saving inode `i` last instead of in its turn. */
  lemma {:induction false} MoveToEnd(disk: Disk, us: seq<Unsaved>, i: nat)
    requires Wf(us) && Distinct(us) && i < |us| && Wf(Without(us, i))
    ensures var u := us[i];
            SyncedOneByOne(disk, us)
              == SyncedDisk(SyncedOneByOne(disk, Without(us, i)), u.nr, u.d, u.tableDirty, u.table)
  {
    hide SyncedDisk, Without;
    var n := |us| - 1;
    if i < n {
      var front := us[..n];
      WithoutFits(front, i);
      WithoutFits(us, i);
      WithoutLast(us, i);
      MoveToEnd(disk, front, i);
      SyncsCommute(SyncedOneByOne(disk, Without(front, i)), us[i], us[n]);
    } else {
      WithoutEnd(us);
    }
  }

  lemma WithoutEnd(us: seq<Unsaved>)
    requires us != []
    ensures Without(us, |us| - 1) == us[..|us| - 1]
  {
  }

  lemma SameRest<T>(us: seq<T>, ws: seq<T>) returns (i: nat)
    requires us != [] && multiset(us) == multiset(ws)
    ensures i < |ws| && ws[i] == us[|us| - 1] && multiset(us[..|us| - 1]) == multiset(Without(ws, i))
  {
    var n := |us| - 1;
    assert us[n] in multiset(us);
    assert us[n] in multiset(ws);
    i :| i < |ws| && ws[i] == us[n];
    assert us == us[..n] + [us[n]];
    assert multiset(us) == multiset(us[..n]) + multiset{us[n]};
    TakenOut(ws, i);
    Cancel(multiset(us[..n]), multiset(Without(ws, i)), us[n]);
  }

  lemma TakenOut<T>(ws: seq<T>, i: nat)
    requires i < |ws|
    ensures multiset(ws) == multiset(Without(ws, i)) + multiset{ws[i]}
  {
    assert ws == ws[..i] + [ws[i]] + ws[i + 1..];
    assert multiset(ws) == multiset(ws[..i]) + multiset{ws[i]} + multiset(ws[i + 1..]);
    assert multiset(Without(ws, i)) == multiset(ws[..i]) + multiset(ws[i + 1..]);
  }

  lemma Cancel<T>(a: multiset<T>, b: multiset<T>, u: T)
    requires a + multiset{u} == b + multiset{u}
    ensures a == b
  {
    assert a == (a + multiset{u}) - multiset{u} && b == (b + multiset{u}) - multiset{u};
  }

  /** Saving the same inodes in any other order gives the same device. */
  lemma {:induction false} AnyOrder(disk: Disk, us: seq<Unsaved>, ws: seq<Unsaved>)
    requires Wf(us) && Distinct(us) && Wf(ws) && Distinct(ws) && multiset(us) == multiset(ws)
    ensures SyncedOneByOne(disk, us) == SyncedOneByOne(disk, ws)
    decreases |us|
  {
    hide SyncedDisk, Without;
    if us == [] {
      assert |multiset(ws)| == 0;
    } else {
      var i := SameRest(us, ws);
      WithoutFits(ws, i);
      WithoutFits(us, |us| - 1);
      WithoutEnd(us);
      MoveToEnd(disk, ws, i);
      AnyOrder(disk, us[..|us| - 1], Without(ws, i));
    }
  }

  // The inodes in memory

  function BlockNr(in_: Inode): nat {
    in_.nr / INODES_PER_BLOCK
  }

  ghost predicate Sorted(s: seq<Inode>) {
    forall i, j :: 0 <= i < j < |s| ==> BlockNr(s[i]) <= BlockNr(s[j])
  }

  /** The entries up to `i` are in order, but for the one at `j`, which has come down from `i`. */
  ghost predicate Settling(s: seq<Inode>, i: nat, j: nat) {
    j <= i < |s| && forall p, q :: 0 <= p < q <= i && q != j ==> BlockNr(s[p]) <= BlockNr(s[q])
  }

  function Swapped(s: seq<Inode>, j: nat): seq<Inode>
    requires 0 < j < |s|
  {
    s[j - 1 := s[j]][j := s[j - 1]]
  }

  lemma SettleStep(s: seq<Inode>, i: nat, j: nat)
    requires Settling(s, i, j) && j > 0 && BlockNr(s[j - 1]) > BlockNr(s[j])
    ensures Settling(Swapped(s, j), i, j - 1) && multiset(Swapped(s, j)) == multiset(s)
  {
    var t := Swapped(s, j);
    forall p, q | 0 <= p < q <= i && q != j - 1 ensures BlockNr(t[p]) <= BlockNr(t[q]) {
    }
  }

  lemma SettleEnds(s: seq<Inode>, i: nat, j: nat)
    requires Settling(s, i, j) && (j == 0 || BlockNr(s[j - 1]) <= BlockNr(s[j]))
    ensures Sorted(s[..i + 1])
  {
    forall p, q | 0 <= p < q < i + 1 ensures BlockNr(s[p]) <= BlockNr(s[q]) {
      if q == j && p < j - 1 {
        assert BlockNr(s[p]) <= BlockNr(s[j - 1]);
      }
    }
  }

  /** Clusters the inodes by inode block, as the library sort does with `inode_compare`. */
  method SortByBlock(a: array<Inode>)
    modifies a
    ensures Sorted(a[..]) && multiset(a[..]) == multiset(old(a[..]))
  {
    hide Sorted, Settling, Swapped, BlockNr;
    var i := 0;
    SortedNone(a[..]);
    while i < a.Length
      invariant 0 <= i <= a.Length && multiset(a[..]) == multiset(old(a[..])) && Sorted(a[..i])
    {
      var j := i;
      SettleStart(a[..], i);
      while j > 0 && BlockNr(a[j - 1]) > BlockNr(a[j])
        invariant 0 <= j <= i && multiset(a[..]) == multiset(old(a[..])) && Settling(a[..], i, j)
      {
        SettleStep(a[..], i, j);
        SwapBack(a, j);
        j := j - 1;
      }
      SettleEnds(a[..], i, j);
      assert a[..][..i + 1] == a[..i + 1];
      i := i + 1;
    }
    assert a[..i] == a[..];
  }

  lemma SortedNone(s: seq<Inode>)
    ensures Sorted(s[..0])
  {
  }

  lemma SettleStart(s: seq<Inode>, i: nat)
    requires i < |s| && Sorted(s[..i])
    ensures Settling(s, i, i)
  {
    forall p, q | 0 <= p < q <= i && q != i ensures BlockNr(s[p]) <= BlockNr(s[q]) {
      assert s[..i][p] == s[p] && s[..i][q] == s[q];
    }
  }

  method SwapBack(a: array<Inode>, j: nat)
    requires 0 < j < a.Length
    modifies a
    ensures a[..] == Swapped(old(a[..]), j)
  {
    a[j - 1], a[j] := a[j], a[j - 1];
  }

  ghost function UnsavedOf(in_: Inode): Unsaved
    reads in_
  {
    Unsaved(in_.nr, in_.din, in_.indirectDirty, in_.indirect)
  }

  ghost function ListOf(s: seq<Inode>): (us: seq<Unsaved>)
    reads s
    ensures |us| == |s|
  {
    if s == [] then [] else ListOf(s[..|s| - 1]) + [UnsavedOf(s[|s| - 1])]
  }

  lemma {:induction false} ListAt(s: seq<Inode>, i: nat)
    requires i < |s|
    ensures ListOf(s)[i] == UnsavedOf(s[i])
  {
    if i < |s| - 1 {
      ListAt(s[..|s| - 1], i);
    }
  }

  lemma {:induction false} ListTake(s: seq<Inode>, i: nat)
    requires i <= |s|
    ensures ListOf(s)[..i] == ListOf(s[..i])
  {
    if i < |s| {
      ListTake(s[..|s| - 1], i);
      assert s[..|s| - 1][..i] == s[..i];
    } else {
      assert s[..i] == s;
    }
  }

  lemma {:induction false} ListPermuted(s: seq<Inode>, t: seq<Inode>)
    requires multiset(s) == multiset(t)
    ensures multiset(ListOf(s)) == multiset(ListOf(t))
  {
    hide Without;
    if s == [] {
      assert |multiset(t)| == 0;
    } else {
      var i := SameRest(s, t);
      ListPermuted(s[..|s| - 1], Without(t, i));
      ListWithout(t, i);
      ListAt(t, i);
      TakenOut(ListOf(t), i);
    }
  }

  lemma {:induction false} ListWithout(t: seq<Inode>, i: nat)
    requires i < |t|
    ensures ListOf(Without(t, i)) == Without(ListOf(t), i)
  {
    var n := |t| - 1;
    if i < n {
      ListWithout(t[..n], i);
      assert Without(t, i)[..n - 1] == Without(t[..n], i) && Without(t, i)[n - 1] == t[n];
    } else {
      assert Without(t, i) == t[..n];
    }
  }

  lemma DistinctPermuted(us: seq<Unsaved>, ws: seq<Unsaved>)
    requires multiset(us) == multiset(ws) && Distinct(us) && Wf(us)
    ensures Distinct(ws) && Wf(ws)
  {
    forall i | 0 <= i < |ws| ensures WfUnsaved(ws[i]) {
      assert ws[i] in multiset(ws);
      assert ws[i] in us;
    }
    forall i, j | 0 <= i < j < |ws|
      ensures ws[i].nr != ws[j].nr && (ws[i].tableDirty && ws[j].tableDirty ==> ws[i].d.indirect != ws[j].d.indirect)
    {
      TwoOf(us, ws, i, j);
    }
  }

  /** Two entries of one list are two entries of the other. */
  lemma TwoOf(us: seq<Unsaved>, ws: seq<Unsaved>, i: nat, j: nat)
    requires multiset(us) == multiset(ws) && Distinct(us) && i < j < |ws|
    ensures ws[i].nr != ws[j].nr && (ws[i].tableDirty && ws[j].tableDirty ==> ws[i].d.indirect != ws[j].d.indirect)
  {
    TakenOut(ws, j);
    var rest := Without(ws, j);
    assert rest[i] == ws[i];
    assert ws[j] in multiset(us) && ws[j] in us;
    var k: nat :| k < |us| && us[k] == ws[j];
    TakenOut(us, k);
    Cancel(multiset(Without(us, k)), multiset(rest), ws[j]);
    assert ws[i] in multiset(rest);
    assert ws[i] in Without(us, k);
    var l: nat :| l < |Without(us, k)| && Without(us, k)[l] == ws[i];
    assert us[if l < k then l else l + 1] == ws[i];
  }

  ghost function SetOf(s: seq<Inode>): set<Inode> {
    set x | x in s
  }

  /** The inodes in `s` hold what `us` tells, apart from the flags. */
  ghost predicate Tells(s: seq<Inode>, us: seq<Unsaved>)
    reads s
  {
    |us| == |s| && Wf(us) && forall i :: 0 <= i < |s| ==>
      s[i].nr == us[i].nr && s[i].din == us[i].d && s[i].indirect == us[i].table
  }

  /** One request for each block. */
  function OneEach(bs: seq<int>): (es: seq<Extent>)
    ensures |es| == |bs|
  {
    seq(|bs|, i requires 0 <= i < |bs| => Extent(bs[i], 1))
  }

  lemma OneMore(bs: seq<int>, b: int)
    ensures OneEach(bs + [b]) == OneEach(bs) + [Extent(b, 1)]
  {
  }

  /** The changed indirect blocks, in the order of the inodes. */
  function DirtyTables(us: seq<Unsaved>): seq<int> {
    if us == [] then []
    else
      var u := us[|us| - 1];
      DirtyTables(us[..|us| - 1]) + if u.tableDirty then [u.d.indirect as int] else []
  }

  /** They are all different, and there is one for every inode whose indirect block was changed. */
  lemma {:induction false} TablesOnce(us: seq<Unsaved>)
    requires Distinct(us)
    ensures forall i, j :: 0 <= i < j < |DirtyTables(us)| ==> DirtyTables(us)[i] != DirtyTables(us)[j]
    ensures forall p :: p in DirtyTables(us) <==> exists k :: 0 <= k < |us| && us[k].tableDirty && us[k].d.indirect == p
  {
    if us != [] {
      var n := |us| - 1;
      assert forall i, j :: 0 <= i < j < n ==> us[..n][i].nr != us[..n][j].nr;
      TablesOnce(us[..n]);
      forall p | p in DirtyTables(us) ensures exists k :: 0 <= k < |us| && us[k].tableDirty && us[k].d.indirect == p {
        if p in DirtyTables(us[..n]) {
          var k :| 0 <= k < n && us[..n][k].tableDirty && us[..n][k].d.indirect == p;
          assert us[k] == us[..n][k];
        }
      }
      forall k | 0 <= k < |us| && us[k].tableDirty ensures us[k].d.indirect in DirtyTables(us) {
        if k < n {
          assert us[..n][k] == us[k];
        }
      }
      if us[n].tableDirty {
        forall i | 0 <= i < |DirtyTables(us[..n])| ensures DirtyTables(us[..n])[i] != us[n].d.indirect {
          var p := DirtyTables(us[..n])[i];
          assert p in DirtyTables(us[..n]);
          var k :| 0 <= k < n && us[..n][k].tableDirty && us[..n][k].d.indirect == p;
          assert us[k].nr != us[n].nr;
        }
      }
    }
  }

  lemma TablesGrow(disk: Disk, us: seq<Unsaved>, i: nat)
    requires Wf(us) && i < |us|
    ensures TablesWritten(disk, us[..i + 1]) == TableWritten(TablesWritten(disk, us[..i]), us[i])
    ensures DInodesWritten(disk, us[..i + 1]) == WithDInode(DInodesWritten(disk, us[..i]), us[i].nr, us[i].d)
  {
    assert us[..i + 1][..i] == us[..i];
  }

  /** Writes the changed indirect blocks. */
  method FlushTables(sb: SuperBlock, inodes: seq<Inode>, ghost us: seq<Unsaved>)
    requires sb.Valid() && sb.Idle() && Tells(inodes, us)
    requires forall i :: 0 <= i < |inodes| ==> inodes[i].indirectDirty == us[i].tableDirty
    requires forall i, j :: 0 <= i < j < |inodes| ==> inodes[i] != inodes[j]
    modifies SetOf(inodes)`indirectDirty, sb.dev
    ensures sb.Valid() && sb.Idle() && sb.Vol() == WithDisk(old(sb.Vol()), TablesWritten(old(sb.Vol().disk), us))
    ensures forall i :: 0 <= i < |inodes| ==> !inodes[i].indirectDirty
    ensures sb.dev.readLog == old(sb.dev.readLog) && sb.dev.writeLog == old(sb.dev.writeLog) + OneEach(DirtyTables(us))
  {
    hide OfInts, TableWritten, SuperBlock.Vol, SuperBlock.Valid, WithIndirect, DirtyTables, OneEach;
    NoDirtyTables(us);
    ghost var v := sb.Vol();
    var i := 0;
    while i < |inodes|
      invariant 0 <= i <= |inodes| && sb.Valid() && sb.Idle()
      invariant sb.Vol() == WithDisk(v, TablesWritten(v.disk, us[..i]))
      invariant forall j :: 0 <= j < i ==> !inodes[j].indirectDirty
      invariant forall j :: i <= j < |inodes| ==> inodes[j].indirectDirty == us[j].tableDirty
      invariant sb.dev.readLog == old(sb.dev.readLog)
      invariant sb.dev.writeLog == old(sb.dev.writeLog) + OneEach(DirtyTables(us[..i]))
    {
      TablesGrow(v.disk, us, i);
      RequestsGrow(us, i, old(sb.dev.writeLog));
      FlushTable(sb, inodes[i], us[i], TablesWritten(v.disk, us[..i]));
      i := i + 1;
    }
    assert us[..i] == us;
  }

  lemma RequestsGrow(us: seq<Unsaved>, i: nat, log: seq<Extent>)
    requires i < |us|
    ensures log + OneEach(DirtyTables(us[..i + 1]))
         == log + OneEach(DirtyTables(us[..i])) + if us[i].tableDirty then [Extent(us[i].d.indirect, 1)] else []
  {
    assert us[..i + 1][..i] == us[..i];
    OneMore(DirtyTables(us[..i]), us[i].d.indirect);
  }

  lemma NoDirtyTables(us: seq<Unsaved>)
    ensures OneEach(DirtyTables(us[..0])) == []
  {
  }

  method FlushTable(sb: SuperBlock, in_: Inode, ghost u: Unsaved, ghost disk: Disk)
    requires sb.Valid() && sb.Idle() && WfUnsaved(u) && sb.Vol().disk == disk
    requires in_.indirectDirty == u.tableDirty && in_.din == u.d && in_.indirect == u.table
    modifies in_`indirectDirty, sb.dev
    ensures sb.Valid() && sb.Idle() && sb.Vol() == WithDisk(old(sb.Vol()), TableWritten(disk, u)) && !in_.indirectDirty
    ensures sb.dev.readLog == old(sb.dev.readLog)
    ensures sb.dev.writeLog == old(sb.dev.writeLog) + if u.tableDirty then [Extent(u.d.indirect, 1)] else []
  {
    hide OfInts, SuperBlock.Vol, SuperBlock.Valid;
    TableIs(disk, u);
    if in_.indirectDirty {
      sb.WriteBlock(OfInts(in_.indirect), in_.din.indirect);
      in_.indirectDirty := false;
    }
  }

  lemma TableIs(disk: Disk, u: Unsaved)
    requires WfUnsaved(u)
    ensures TableWritten(disk, u) == if u.tableDirty then disk[u.d.indirect := OfInts(u.table)] else disk
  {
    hide OfInts;
  }

  /** Blocks are written in increasing order, each once, and they are those that hold the inodes `s`. */
  ghost predicate EachOnce(written: seq<int>, s: seq<Inode>) {
    && (forall i, j :: 0 <= i < j < |written| ==> written[i] < written[j])
    && (forall k :: 0 <= k < |s| ==> INODE_START + BlockNr(s[k]) in written)
    && (forall b :: b in written ==> HoldsOne(b, s))
  }

  ghost predicate HoldsOne(b: int, s: seq<Inode>) {
    exists k :: 0 <= k < |s| && b == INODE_START + BlockNr(s[k])
  }

  /** While the dinodes are being collected: the device with block `cur` replaced by the one in memory. */
  function Pending(disk: Disk, cur: int, block: Block): Disk {
    if 0 <= cur < DISK_BLOCKS then disk[cur := block] else disk
  }

  lemma CollectOne(disk0: Disk, us: seq<Unsaved>, i: nat, disk: Disk, cur: int, block: Block)
    requires Wf(us) && i < |us| && cur == INODE_START + us[i].nr / 16
    requires Pending(disk, cur, block) == DInodesWritten(disk0, us[..i])
    ensures Pending(disk, cur, EncodeDInode(block, us[i].nr, us[i].d)) == DInodesWritten(disk0, us[..i + 1])
  {
    hide EncodeDInode;
    TablesGrow(disk0, us, i);
  }

  /** Where the blocks that have been written so far stand. */
  ghost predicate WrittenSoFar(written: seq<int>, s: seq<Inode>, i: nat, cur: int)
    requires i <= |s|
  {
    && (if i == 0 then cur == -1 && written == [] else cur == INODE_START + BlockNr(s[i - 1]))
    && (forall j, k :: 0 <= j < k < |written| ==> written[j] < written[k])
    && (forall b :: b in written ==> b < cur && HoldsOne(b, s))
    && (forall k :: 0 <= k < i ==> INODE_START + BlockNr(s[k]) in written || INODE_START + BlockNr(s[k]) == cur)
  }

  /** The blocks that have been read: those written, and the one being built. */
  function Fetched(written: seq<int>, cur: int): seq<int> {
    if cur == -1 then written else written + [cur]
  }

  lemma Append(written: seq<int>, cur: int)
    requires (forall j, k :: 0 <= j < k < |written| ==> written[j] < written[k]) && forall b :: b in written ==> b < cur
    ensures forall j, k :: 0 <= j < k < |written| + 1 ==> (written + [cur])[j] < (written + [cur])[k]
  {
    forall j | 0 <= j < |written| ensures written[j] < cur {
      assert written[j] in written;
    }
  }

  lemma NextCluster(written: seq<int>, s: seq<Inode>, i: nat, cur: int, next: int)
    requires i < |s| && Sorted(s) && WrittenSoFar(written, s, i, cur) && next == INODE_START + BlockNr(s[i])
    ensures next == cur ==> WrittenSoFar(written, s, i + 1, cur)
    ensures next != cur ==> WrittenSoFar(Fetched(written, cur), s, i + 1, next)
  {
    Append(written, cur);
    if i > 0 {
      assert BlockNr(s[i - 1]) <= BlockNr(s[i]);
      assert HoldsOne(cur, s);
    }
  }

  lemma LastCluster(written: seq<int>, s: seq<Inode>, cur: int)
    requires s != [] && WrittenSoFar(written, s, |s|, cur)
    ensures EachOnce(Fetched(written, cur), s) && cur >= INODE_START
  {
    hide BlockNr, HoldsOne;
    LastIsThere(s, cur);
    var now := Fetched(written, cur);
    Append(written, cur);
    InMore(written, cur);
  }

  lemma InMore(s: seq<int>, x: int)
    ensures forall b :: b in s + [x] <==> b in s || b == x
  {
    assert (s + [x])[|s|] == x;
  }

  lemma LastIsThere(s: seq<Inode>, cur: int)
    requires s != [] && cur == INODE_START + BlockNr(s[|s| - 1])
    ensures HoldsOne(cur, s) && cur >= INODE_START
  {
  }

  lemma NextRequests(written: seq<int>, cur: int, next: int)
    ensures var now := Fetched(written, cur);
            && (cur != -1 ==> now == written + [cur])
                 && OneEach(now) == OneEach(written) + (if cur == -1 then [] else [Extent(cur, 1)])
            && (next != -1 ==> OneEach(Fetched(now, next)) == OneEach(now) + [Extent(next, 1)])
  {
    OneMore(written, cur);
    OneMore(Fetched(written, cur), next);
  }

  /** Writes the block that was being built, if any, and reads the next. */
  method TurnTo(sb: SuperBlock, cur: int, block: Block, next: int) returns (b: Block)
    requires sb.Valid() && sb.Idle() && (cur == -1 || INODE_START <= cur < DATA_START)
      && INODE_START <= next < DATA_START && next != cur
    modifies sb.dev
    ensures sb.Valid() && sb.Idle() && sb.Vol() == WithDisk(old(sb.Vol()), sb.Vol().disk)
    ensures Pending(sb.Vol().disk, next, b) == Pending(old(sb.Vol().disk), cur, block)
    ensures sb.dev.readLog == old(sb.dev.readLog) + [Extent(next, 1)]
    ensures sb.dev.writeLog == old(sb.dev.writeLog) + if cur == -1 then [] else [Extent(cur, 1)]
  {
    hide SuperBlock.Vol, SuperBlock.Valid;
    if cur != -1 {
      sb.WriteBlock(block, cur);
    }
    b := sb.ReadBlock(next);
  }

  /** Writes the dinodes, reading and writing every inode block once. */
  method FlushDInodes(sb: SuperBlock, inodes: seq<Inode>, ghost us: seq<Unsaved>) returns (ghost written: seq<int>)
    requires sb.Valid() && sb.Idle() && Tells(inodes, us) && |inodes| > 0 && Sorted(inodes)
    modifies SetOf(inodes)`dirty, sb.dev
    ensures sb.Valid() && sb.Idle() && sb.Vol() == WithDisk(old(sb.Vol()), DInodesWritten(old(sb.Vol().disk), us))
    ensures forall i :: 0 <= i < |inodes| ==> !inodes[i].dirty
    ensures EachOnce(written, inodes)
    ensures sb.dev.readLog == old(sb.dev.readLog) + OneEach(written)
    ensures sb.dev.writeLog == old(sb.dev.writeLog) + OneEach(written)
  {
    hide EncodeDInode, SuperBlock.Vol, SuperBlock.Valid, BlockNr, Sorted, WrittenSoFar, EachOnce, WithDInode;
    hide Pending, DInodesWritten, SetOf, Wf;
    hide OneEach, Fetched;
    ghost var v := sb.Vol();
    NoDInodeYet(v.disk, us);
    var cur, block, i := -1, ZERO_BLOCK, 0;
    written := [];
    NothingWritten(inodes);
    while i < |inodes|
      invariant 0 <= i <= |inodes| && sb.Valid() && sb.Idle()
      invariant sb.Vol() == WithDisk(v, sb.Vol().disk)
      invariant Pending(sb.Vol().disk, cur, block) == DInodesWritten(v.disk, us[..i])
      invariant forall j :: 0 <= j < i ==> !inodes[j].dirty
      invariant WrittenSoFar(written, inodes, i, cur) && (cur == -1 || INODE_START <= cur < DATA_START)
      invariant sb.dev.writeLog == old(sb.dev.writeLog) + OneEach(written)
      invariant sb.dev.readLog == old(sb.dev.readLog) + OneEach(Fetched(written, cur))
    {
      var blockNr := INODE_START + BlockNr(inodes[i]);
      NextCluster(written, inodes, i, cur, blockNr);
      InodeBlockIs(inodes[i]);
      if blockNr != cur {
        NextRequests(written, cur, blockNr);
        block := TurnTo(sb, cur, block, blockNr);
        written := Fetched(written, cur);
        cur := blockNr;
      }
      CollectOne(v.disk, us, i, sb.Vol().disk, cur, block);
      block := EncodeDInode(block, inodes[i].nr, inodes[i].din);
      MayClean(inodes, i);
      inodes[i].dirty := false;
      i := i + 1;
    }
    assert us[..i] == us;
    LastCluster(written, inodes, cur);
    NextRequests(written, cur, cur);
    PendingIs(sb.Vol().disk, cur, block);
    sb.WriteBlock(block, cur);
    written := Fetched(written, cur);
  }

  lemma MayClean(s: seq<Inode>, i: nat)
    requires i < |s|
    ensures s[i] in SetOf(s)
  {
  }

  lemma PendingIs(disk: Disk, cur: int, block: Block)
    requires INODE_START <= cur < DATA_START
    ensures Pending(disk, cur, block) == disk[cur := block]
  {
  }

  lemma NoDInodeYet(disk: Disk, us: seq<Unsaved>)
    requires Wf(us)
    ensures forall i :: 0 <= i <= |us| ==> Wf(us[..i])
    ensures forall i :: 0 <= i < |us| ==> us[i].nr < NR_INODES
    ensures Pending(disk, -1, ZERO_BLOCK) == DInodesWritten(disk, us[..0])
  {
  }

  lemma NothingWritten(s: seq<Inode>)
    ensures WrittenSoFar([], s, 0, -1) && OneEach([]) == [] && OneEach(Fetched([], -1)) == []
  {
  }

  lemma InodeBlockIs(in_: Inode)
    ensures BlockNr(in_) == in_.nr / 16
  {
  }

  lemma {:induction false} NoTables(disk: Disk, us: seq<Unsaved>)
    requires Wf(us) && forall i :: 0 <= i < |us| ==> !us[i].tableDirty
    ensures SyncedOneByOne(disk, us) == DInodesWritten(disk, us)
  {
    hide WithDInode;
    if us != [] {
      NoTables(disk, us[..|us| - 1]);
    }
  }

  lemma {:induction false} SameDInodes(disk: Disk, us: seq<Unsaved>, cs: seq<Unsaved>)
    requires Wf(us) && Wf(cs) && |us| == |cs| && forall i :: 0 <= i < |us| ==>
      us[i].nr == cs[i].nr && us[i].d == cs[i].d
    ensures DInodesWritten(disk, us) == DInodesWritten(disk, cs)
  {
    hide WithDInode;
    if us != [] {
      SameDInodes(disk, us[..|us| - 1], cs[..|cs| - 1]);
    }
  }

  /** `cs` is `us` after the indirect blocks were written. */
  ghost predicate TablesDone(us: seq<Unsaved>, cs: seq<Unsaved>) {
    |cs| == |us| && forall i :: 0 <= i < |us| ==>
      cs[i].nr == us[i].nr && cs[i].d == us[i].d && !cs[i].tableDirty && |cs[i].table| == 128
  }

  /** The dinodes may be written in any order. */
  lemma DInodesAnyOrder(disk: Disk, us: seq<Unsaved>, cs: seq<Unsaved>, ws: seq<Unsaved>)
    requires Wf(us) && Distinct(us) && TablesDone(us, cs) && multiset(cs) == multiset(ws)
    ensures Wf(cs) && Distinct(cs) && Wf(ws) && Distinct(ws)
    ensures DInodesWritten(disk, ws) == DInodesWritten(disk, us)
  {
    hide SyncedDisk, WithDInode, TableWritten, Without;
    DistinctPermuted(cs, ws);
    SameDInodes(disk, us, cs);
    NoTables(disk, cs);
    AnyOrder(disk, cs, ws);
    forall i | 0 <= i < |ws| ensures !ws[i].tableDirty {
      assert ws[i] in multiset(ws);
      assert ws[i] in cs;
    }
    NoTables(disk, ws);
  }

  /** Different numbers, different inodes; and what `ListOf` tells is so. */
  lemma ListTells(s: seq<Inode>)
    requires Wf(ListOf(s))
    ensures Tells(s, ListOf(s)) && forall i :: 0 <= i < |s| ==> s[i].indirectDirty == ListOf(s)[i].tableDirty
    ensures Distinct(ListOf(s)) ==> forall i, j :: 0 <= i < j < |s| ==> s[i] != s[j]
  {
    hide ListOf, Distinct, Wf;
    var us := ListOf(s);
    forall i | 0 <= i < |s|
      ensures s[i].nr == us[i].nr && s[i].din == us[i].d && s[i].indirect == us[i].table
      ensures s[i].indirectDirty == us[i].tableDirty
    {
      ListAt(s, i);
    }
    if Distinct(us) {
      forall i, j | 0 <= i < j < |s| ensures s[i] != s[j] {
        DifferentInodes(s, i, j);
      }
    }
  }

  lemma DifferentInodes(s: seq<Inode>, i: nat, j: nat)
    requires i < j < |s| && Distinct(ListOf(s))
    ensures s[i] != s[j]
  {
    hide ListOf;
    ListAt(s, i);
    ListAt(s, j);
  }

  /** The list after nothing but the indirect blocks was written. */
  twostate lemma ListDone(s: seq<Inode>, new us: seq<Unsaved>)
    requires us == old(ListOf(s)) && Wf(us)
    requires forall i :: 0 <= i < |s| ==>
      s[i].din == old(s[i].din) && s[i].indirect == old(s[i].indirect) && !s[i].indirectDirty
    ensures TablesDone(us, ListOf(s))
  {
    hide ListOf;
    forall i | 0 <= i < |s| ensures ListOf(s)[i] == UnsavedOf(s[i]) && us[i] == old(UnsavedOf(s[i])) {
      ListAt(s, i);
      ListWas(s, i);
    }
  }

  twostate lemma ListWas(s: seq<Inode>, new i: nat)
    requires i < |s|
    ensures old(ListOf(s))[i] == old(UnsavedOf(s[i]))
    decreases |s|
  {
    if i < |s| - 1 {
      ListWas(s[..|s| - 1], i);
    }
  }

  /**
   * Saves all inodes: the device is as if each had been saved by itself, in any order, and every inode block is
   * read and written once.
   */
  method BulkSync(sb: SuperBlock, inodes: array<Inode>) returns (ghost written: seq<int>)
    requires sb.Valid() && sb.Idle() && Wf(ListOf(inodes[..])) && Distinct(ListOf(inodes[..]))
    modifies inodes, SetOf(inodes[..])`dirty, SetOf(inodes[..])`indirectDirty, sb.dev
    ensures sb.Valid() && sb.Idle()
    ensures sb.Vol() == WithDisk(old(sb.Vol()), SyncedOneByOne(old(sb.Vol().disk), old(ListOf(inodes[..]))))
    ensures multiset(inodes[..]) == multiset(old(inodes[..]))
    ensures forall i :: 0 <= i < inodes.Length ==> !inodes[i].dirty && !inodes[i].indirectDirty
    ensures EachOnce(written, inodes[..]) && sb.dev.readLog == old(sb.dev.readLog) + OneEach(written)
    ensures sb.dev.writeLog == old(sb.dev.writeLog) + OneEach(DirtyTables(old(ListOf(inodes[..])))) + OneEach(written)
  {
    hide DirtyTables, OneEach;
    hide SuperBlock.Vol, SuperBlock.Valid, ListOf, TablesWritten, DInodesWritten, SyncedOneByOne, EachOnce;
    hide Distinct, Wf, TablesDone;
    written := [];
    if inodes.Length == 0 {
      EmptyList(inodes[..]);
      OfNothing(sb.Vol().disk);
      NoRequests();
      return;
    }
    ghost var us, v, all := ListOf(inodes[..]), sb.Vol(), inodes[..];
    ListTells(all);
    FlushTables(sb, inodes[..], us);
    ListDone(all, us);
    TablesFirst(v.disk, us);
    written := SortAndFlush(sb, inodes, us);
  }

  lemma OfNothing(disk: Disk)
    ensures SyncedOneByOne(disk, []) == disk
  {
  }

  lemma NoRequests()
    ensures OneEach([]) == [] && DirtyTables([]) == [] && EachOnce([], [])
  {
  }

  /** Sorts the inodes and writes their dinodes. */
  method SortAndFlush(sb: SuperBlock, inodes: array<Inode>, ghost us: seq<Unsaved>) returns (ghost written: seq<int>)
    requires sb.Valid() && sb.Idle() && Wf(us) && Distinct(us) && TablesDone(us, ListOf(inodes[..]))
    requires inodes.Length > 0
    requires forall i :: 0 <= i < inodes.Length ==> !inodes[i].indirectDirty
    modifies inodes, SetOf(inodes[..])`dirty, sb.dev
    ensures sb.Valid() && sb.Idle()
    ensures sb.Vol() == WithDisk(old(sb.Vol()), DInodesWritten(old(sb.Vol().disk), us))
    ensures multiset(inodes[..]) == multiset(old(inodes[..])) && EachOnce(written, inodes[..])
    ensures sb.dev.readLog == old(sb.dev.readLog) + OneEach(written)
    ensures sb.dev.writeLog == old(sb.dev.writeLog) + OneEach(written)
    ensures forall i :: 0 <= i < inodes.Length ==> !inodes[i].dirty && !inodes[i].indirectDirty
  {
    hide SuperBlock.Vol, SuperBlock.Valid, ListOf, DInodesWritten, EachOnce, Distinct, Wf, TablesDone;
    ghost var v, all, cs := sb.Vol(), inodes[..], ListOf(inodes[..]);
    SortByBlock(inodes);
    SameMembers(inodes[..], all);
    ListPermuted(all, inodes[..]);
    assert ListOf(all) == cs;
    DInodesAnyOrder(v.disk, us, cs, ListOf(inodes[..]));
    ListTells(inodes[..]);
    written := FlushDInodes(sb, inodes[..], ListOf(inodes[..]));
    forall i | 0 <= i < inodes.Length ensures !inodes[i].dirty && !inodes[i].indirectDirty {
      assert inodes[i] == inodes[..][i] && inodes[i] in SetOf(inodes[..]);
    }
  }

  lemma SameMembers(s: seq<Inode>, t: seq<Inode>)
    requires multiset(s) == multiset(t)
    ensures SetOf(s) == SetOf(t)
  {
    forall x ensures x in s <==> x in t {
      assert x in s <==> x in multiset(s);
      assert x in t <==> x in multiset(t);
    }
  }

  lemma EmptyList(s: seq<Inode>)
    requires s == []
    ensures ListOf(s) == []
  {
  }
}
