/** The directory tree: what the `.`, `..` and child records of all directories must agree on. */
module Tree {
  import opened Bytes
  import opened Layout
  import opened World
  import opened Dirents

  /** Parent and depth of every inode; they are not stored but told by the records. */
  datatype Shape = Shape(parent: map<nat, nat>, depth: map<nat, nat>)

  function Entries(files: Files, d: nat): seq<Dirent>
    requires d in files
  {
    Parse(files[d].bytes)
  }

  predicate IsDir(files: Files, d: nat) {
    d in files && files[d].typ == I_DIR
  }

  /** Record `k` of a directory names a child: it is live and not one of the two leading ones. */
  predicate IsChildAt(ds: seq<Dirent>, k: int) {
    2 <= k < |ds| && Live(ds[k])
  }

  ghost predicate HasChild(files: Files, d: nat, x: nat)
    requires d in files
  {
    exists k :: IsChildAt(Entries(files, d), k) && Entries(files, d)[k].nr == x
  }

  predicate ChildOk(files: Files, sh: Shape, d: nat, c: int) {
    c > 0 && c in files && c in sh.parent && sh.parent[c] == d
  }

  /** The records of directory `d`, whose parent is `p`, that name children given by `sh`. */
  ghost predicate LogOk(files: Files, sh: Shape, d: nat, p: nat, ds: seq<Dirent>) {
    && |ds| >= 2 && ds[0].name == DOT && ds[0].nr == d && ds[1].name == DOTDOT && ds[1].nr == p
    && UniqueNames(ds)
    && (forall k :: IsChildAt(ds, k) ==> ChildOk(files, sh, d, ds[k].nr))
    && (forall j, k :: IsChildAt(ds, j) && IsChildAt(ds, k) && j != k ==> ds[j].nr != ds[k].nr)
  }

  ghost predicate DirOk(files: Files, sh: Shape, d: nat)
    requires d in files
  {
    IsLog(files[d].bytes) && d in sh.parent && LogOk(files, sh, d, sh.parent[d], Entries(files, d))
  }

  ghost predicate NodeOk(files: Files, sh: Shape, x: nat) {
    && x in files && x in sh.parent && x in sh.depth && sh.parent[x] in sh.depth
    && (files[x].typ == I_FILE || files[x].typ == I_DIR)
    && (x == 0 ==> sh.parent[0] == 0 && sh.depth[0] == 0 && IsDir(files, 0))
    && (x != 0 ==>
         IsDir(files, sh.parent[x]) && sh.depth[x] == sh.depth[sh.parent[x]] + 1 && HasChild(files, sh.parent[x], x))
    && (IsDir(files, x) ==> DirOk(files, sh, x))
  }

  /** Every inode but the root is named by exactly one child record, `..` is the parent, and depths fit. */
  ghost predicate TreeOk(files: Files, sh: Shape) {
    0 in files && forall x: nat :: x in files ==> NodeOk(files, sh, x)
  }

  const ROOT_SHAPE: Shape := Shape(map[0 := 0], map[0 := 0])

  function EmptyDir(nr: int32, parent: int32): (ds: seq<Dirent>)
    ensures WfLog(ds)
  {
    [Dirent(DOT, nr), Dirent(DOTDOT, parent)]
  }

  lemma RootOk()
    ensures TreeOk(map[0 := Node(I_DIR, Log(EmptyDir(0, 0)))], ROOT_SHAPE)
  {
    hide Parse, Log;
    var files: Files := map[0 := Node(I_DIR, Log(EmptyDir(0, 0)))];
    ParseLog(EmptyDir(0, 0));
    EmptyOk(files, ROOT_SHAPE, 0, 0);
    assert NodeOk(files, ROOT_SHAPE, 0);
  }

  lemma EmptyOk(files: Files, sh: Shape, d: nat, p: nat)
    requires d < 0x8000_0000 && p < 0x8000_0000
    ensures LogOk(files, sh, d, p, EmptyDir(d, p)) && forall k :: !IsChildAt(EmptyDir(d, p), k)
  {
  }

  /** A child record carries neither `.` nor `..`. */
  lemma ChildNames(files: Files, sh: Shape, d: nat, k: int)
    requires TreeOk(files, sh) && IsDir(files, d) && 0 <= k < |Entries(files, d)| && Live(Entries(files, d)[k])
    ensures NodeOk(files, sh, d)
    ensures IsChildAt(Entries(files, d), k) <==> Entries(files, d)[k].name != DOT && Entries(files, d)[k].name != DOTDOT
  {
    assert NodeOk(files, sh, d);
  }

  /** Names lead to inodes that exist. */
  lemma NamesLive(files: Files, sh: Shape, d: nat, name: seq<byte>)
    requires TreeOk(files, sh) && IsDir(files, d)
    ensures NodeOk(files, sh, d) && IsLog(files[d].bytes)
    ensures var nr := NrOf(Entries(files, d), name); nr >= 0 ==> nr in files
  {
    hide IsLog, Parse, UniqueNames, FindFrom;
    assert NodeOk(files, sh, d);
    var ds := Entries(files, d);
    var k := FindFrom(ds, name, 0);
    if k >= 2 && k < |ds| {
      assert IsChildAt(ds, k);
      assert ChildOk(files, sh, d, ds[k].nr);
    }
  }

  // Updates

  /** `d` got the record (`name`, `c`) and the new inode `c` is `node`. */
  ghost function Created(files: Files, d: nat, name: seq<byte>, c: nat, node: Node): Files
    requires IsDir(files, d) && c < 0x8000_0000 && IsName(name) && IsLog(files[d].bytes)
  {
    AddedWf(Entries(files, d), name, c);
    files[d := Node(I_DIR, Log(Added(Entries(files, d), name, c)))][c := node]
  }

  lemma AddedWf(ds: seq<Dirent>, name: seq<byte>, nr: int32)
    requires WfLog(ds) && IsName(name)
    ensures WfLog(Added(ds, name, nr))
  {
  }

  function ShapeWith(sh: Shape, d: nat, c: nat): Shape
    requires d in sh.depth
  {
    Shape(sh.parent[c := d], sh.depth[c := sh.depth[d] + 1])
  }

  lemma CreateOk(files: Files, sh: Shape, d: nat, name: seq<byte>, c: nat, node: Node)
    requires TreeOk(files, sh) && IsDir(files, d) && NodeOk(files, sh, d)
    requires c !in files && c < 0x8000_0000 && d < 0x8000_0000 && IsName(name)
    requires NrOf(Entries(files, d), name) < 0
    requires node == Node(I_FILE, []) || node == Node(I_DIR, Log(EmptyDir(c, d)))
    ensures TreeOk(Created(files, d, name, c, node), ShapeWith(sh, d, c))
  {
    hide Parse, Log, FindFrom, AddFrom, NamesOf, NodeOk, LogOk, UniqueNames, NrOf, Added;
    DirLog(files, sh, d);
    var files', sh' := Created(files, d, name, c, node), ShapeWith(sh, d, c);
    var ds := Entries(files, d);
    AddedWf(ds, name, c);
    ParseLog(Added(ds, name, c));
    ParseLog(EmptyDir(c, d));
    forall x: nat | x in files' ensures NodeOk(files', sh', x) {
      if x == c {
        CreateNew(files, sh, d, name, c, node);
      } else {
        assert NodeOk(files, sh, x);
        CreateKeeps(files, sh, d, name, c, node, x);
      }
    }
  }

  lemma DirLog(files: Files, sh: Shape, d: nat)
    requires NodeOk(files, sh, d) && IsDir(files, d)
    ensures IsLog(files[d].bytes) && d in sh.depth && DirOk(files, sh, d)
  {
  }

  lemma CreateNew(files: Files, sh: Shape, d: nat, name: seq<byte>, c: nat, node: Node)
    requires NodeOk(files, sh, d) && IsDir(files, d) && d < 0x8000_0000
    requires c !in files && 0 < c < 0x8000_0000 && IsName(name) && NrOf(Entries(files, d), name) < 0
    requires node == Node(I_FILE, []) || node == Node(I_DIR, Log(EmptyDir(c, d)))
    requires var es := Added(Entries(files, d), name, c); WfLog(es) && Parse(Log(es)) == es
    requires Parse(Log(EmptyDir(c, d))) == EmptyDir(c, d) && IsLog(Log(EmptyDir(c, d)))
    ensures NodeOk(Created(files, d, name, c, node), ShapeWith(sh, d, c), c)
  {
    hide Parse, Log, FindFrom, AddFrom, NamesOf, UniqueNames;
    var files', sh' := Created(files, d, name, c, node), ShapeWith(sh, d, c);
    var k := AddFrom(Entries(files, d), name, 0);
    AddedChild(Entries(files, d), name, c);
    assert IsChildAt(Entries(files', d), k) && Entries(files', d)[k].nr == c;
    EmptyOk(files', sh', c, d);
  }

  /** The record goes behind the two leading ones. */
  lemma AddedChild(ds: seq<Dirent>, name: seq<byte>, c: int32)
    requires |ds| >= 2 && Live(ds[0]) && Live(ds[1]) && NrOf(ds, name) < 0 && c >= 0
    ensures var k, es := AddFrom(ds, name, 0), Added(ds, name, c);
            && IsChildAt(es, k) && es[k] == Dirent(name, c) && (k < |ds| ==> !Live(ds[k]))
            && |es| >= |ds| && (forall i :: 0 <= i < |es| && i != k ==> i < |ds| && es[i] == ds[i])
            && (forall i :: 0 <= i < |ds| && i != k ==> i < |es| && es[i] == ds[i])
  {
    hide AddFrom, FindFrom;
    FindNone(ds, name);
  }

  lemma AddedLogOk(files: Files, sh: Shape, d: nat, name: seq<byte>, c: nat, node: Node)
    requires NodeOk(files, sh, d) && IsDir(files, d) && c !in files && c > 0 && c < 0x8000_0000 && IsName(name)
    requires NrOf(Entries(files, d), name) < 0
    ensures LogOk(Created(files, d, name, c, node), ShapeWith(sh, d, c), d, sh.parent[d],
      Added(Entries(files, d), name, c))
  {
    hide Parse, Log, FindFrom, AddFrom, NamesOf;
    var ds := Entries(files, d);
    AddedChild(ds, name, c);
    FindNone(ds, name);
    PutInserts(ds, AddFrom(ds, name, 0), Added(ds, name, c), name, c);
  }

  lemma CreateKeeps(files: Files, sh: Shape, d: nat, name: seq<byte>, c: nat, node: Node, x: nat)
    requires NodeOk(files, sh, x) && NodeOk(files, sh, d) && IsDir(files, d)
    requires c !in files && c > 0 && c < 0x8000_0000 && IsName(name) && NrOf(Entries(files, d), name) < 0 && x != c
    requires var es := Added(Entries(files, d), name, c); WfLog(es) && Parse(Log(es)) == es && IsLog(Log(es))
    ensures NodeOk(Created(files, d, name, c, node), ShapeWith(sh, d, c), x)
  {
    hide Parse, Log, FindFrom, AddFrom, NamesOf, UniqueNames;
    var files', sh' := Created(files, d, name, c, node), ShapeWith(sh, d, c);
    AddedLogOk(files, sh, d, name, c, node);
    AddedChild(Entries(files, d), name, c);
    if x != 0 {
      var p := sh.parent[x];
      var k :| IsChildAt(Entries(files, p), k) && Entries(files, p)[k].nr == x;
      assert IsChildAt(Entries(files', p), k) && Entries(files', p)[k].nr == x;
    }
  }

  /** Record `k` of `d` became a tombstone and the inode it named is gone. */
  ghost function Removed(files: Files, d: nat, k: nat): Files
    requires IsDir(files, d) && IsLog(files[d].bytes) && k < |Entries(files, d)| && Live(Entries(files, d)[k])
  {
    var ds := Entries(files, d);
    files[d := Node(I_DIR, Log(ds[k := Dirent(ds[k].name, -1)]))] - {ds[k].nr}
  }

  lemma RemoveOk(files: Files, sh: Shape, d: nat, k: nat)
    requires TreeOk(files, sh) && IsDir(files, d) && DirOk(files, sh, d) && IsChildAt(Entries(files, d), k)
    requires var c := Entries(files, d)[k].nr; IsDir(files, c) ==> forall j :: !IsChildAt(Entries(files, c), j)
    ensures TreeOk(Removed(files, d, k), sh)
  {
    hide Parse, Log, NamesOf, NodeOk;
    var ds, c := Entries(files, d), Entries(files, d)[k].nr;
    var es := ds[k := Dirent(ds[k].name, -1)];
    var files' := Removed(files, d, k);
    ParseLog(es);
    TombstoneDeletes(ds, k);
    assert NodeOk(files, sh, d) && ChildOk(files, sh, d, c);
    assert NodeOk(files, sh, c);
    forall x: nat | x in files' ensures NodeOk(files', sh, x) {
      assert NodeOk(files, sh, x);
      RemoveKeeps(files, sh, d, k, x);
    }
  }

  lemma RemoveKeeps(files: Files, sh: Shape, d: nat, k: nat, x: nat)
    requires NodeOk(files, sh, x) && NodeOk(files, sh, d) && IsDir(files, d) && IsChildAt(Entries(files, d), k)
    requires var c := Entries(files, d)[k].nr;
             NodeOk(files, sh, c) && x != c && (IsDir(files, c) ==> forall j :: !IsChildAt(Entries(files, c), j))
    requires forall y: nat :: y in files ==> NodeOk(files, sh, y)
    requires var ds := Entries(files, d); var es := ds[k := Dirent(ds[k].name, -1)];
             WfLog(es) && Parse(Log(es)) == es && IsLog(Log(es)) && UniqueNames(es)
    ensures NodeOk(Removed(files, d, k), sh, x)
  {
    hide Parse, Log, NamesOf, UniqueNames, LogOk, HasChild;
    var ds, c := Entries(files, d), Entries(files, d)[k].nr;
    var files' := Removed(files, d, k);
    if x != 0 {
      RemoveParent(files, d, k, sh.parent[x], x);
    }
    if IsDir(files, x) {
      RemoveDir(files, sh, d, k, x);
    }
  }

  lemma RemoveParent(files: Files, d: nat, k: nat, p: nat, x: nat)
    requires IsDir(files, d) && IsLog(files[d].bytes) && IsChildAt(Entries(files, d), k) && IsDir(files, p)
    requires HasChild(files, p, x)
    requires var c := Entries(files, d)[k].nr; x != c && (p == c ==> forall j :: !IsChildAt(Entries(files, c), j))
    requires var ds := Entries(files, d); var es := ds[k := Dirent(ds[k].name, -1)];
             WfLog(es) && Parse(Log(es)) == es
    ensures IsDir(Removed(files, d, k), p) && HasChild(Removed(files, d, k), p, x)
  {
    hide Parse, Log;
    var files' := Removed(files, d, k);
    var j :| IsChildAt(Entries(files, p), j) && Entries(files, p)[j].nr == x;
    assert IsChildAt(Entries(files', p), j) && Entries(files', p)[j].nr == x;
  }

  lemma RemoveDir(files: Files, sh: Shape, d: nat, k: nat, x: nat)
    requires IsDir(files, x) && DirOk(files, sh, x) && IsDir(files, d) && DirOk(files, sh, d)
    requires IsChildAt(Entries(files, d), k)
    requires x != Entries(files, d)[k].nr
    requires var ds := Entries(files, d); var es := ds[k := Dirent(ds[k].name, -1)];
             WfLog(es) && Parse(Log(es)) == es && IsLog(Log(es)) && UniqueNames(es)
    ensures x in Removed(files, d, k) && DirOk(Removed(files, d, k), sh, x)
  {
    hide Parse, Log, NamesOf, UniqueNames;
    var files', c := Removed(files, d, k), Entries(files, d)[k].nr;
    var xs, xs' := Entries(files, x), Entries(files', x);
    assert ChildOk(files, sh, d, c);
    forall j | IsChildAt(xs', j) ensures IsChildAt(xs, j) && xs'[j] == xs[j] && ChildOk(files', sh, x, xs[j].nr) {
      assert IsChildAt(xs, j) && xs'[j] == xs[j] && (x == d ==> j != k);
      assert ChildOk(files, sh, x, xs[j].nr);
    }
  }

  /** Changing the bytes of a plain file. */
  lemma WriteOk(files: Files, sh: Shape, x: nat, bytes: seq<byte>)
    requires TreeOk(files, sh) && x in files && files[x].typ == I_FILE
    ensures TreeOk(files[x := Node(I_FILE, bytes)], sh)
  {
    hide Parse, Log, NamesOf, UniqueNames, NodeOk;
    var files' := files[x := Node(I_FILE, bytes)];
    forall y: nat | y in files' ensures NodeOk(files', sh, y) {
      assert NodeOk(files, sh, y);
      WriteKeeps(files, sh, x, bytes, y);
    }
  }

  lemma WriteKeeps(files: Files, sh: Shape, x: nat, bytes: seq<byte>, y: nat)
    requires NodeOk(files, sh, y) && x in files && files[x].typ == I_FILE
    ensures NodeOk(files[x := Node(I_FILE, bytes)], sh, y)
  {
    hide Parse, Log, NamesOf, UniqueNames;
    var files' := files[x := Node(I_FILE, bytes)];
    if y != 0 {
      var p := sh.parent[y];
      var k :| IsChildAt(Entries(files, p), k) && Entries(files, p)[k].nr == y;
      assert IsChildAt(Entries(files', p), k);
    }
  }

  // Subtrees

  /** `a` is `x` or one of its ancestors. */
  ghost predicate Under(sh: Shape, x: nat, a: nat)
    decreases if x in sh.depth then sh.depth[x] else 0
  {
    x == a || (x in sh.parent && x in sh.depth && sh.parent[x] in sh.depth && sh.depth[sh.parent[x]] < sh.depth[x]
               && Under(sh, sh.parent[x], a))
  }

  ghost function Subtree(files: Files, sh: Shape, a: nat): set<nat> {
    set x | x in files && Under(sh, x, a)
  }

  lemma {:induction false} RootAboveAll(files: Files, sh: Shape, x: nat)
    requires TreeOk(files, sh) && x in files
    ensures x in sh.depth && Under(sh, x, 0)
    decreases if x in sh.depth then sh.depth[x] else 0
  {
    hide LogOk, IsLog, Parse;
    assert NodeOk(files, sh, x);
    if x != 0 {
      RootAboveAll(files, sh, sh.parent[x]);
    }
  }

  lemma {:induction false} DeeperUnder(sh: Shape, x: nat, a: nat)
    requires Under(sh, x, a) && x in sh.depth && a in sh.depth
    ensures sh.depth[a] <= sh.depth[x] && (sh.depth[a] == sh.depth[x] ==> a == x)
    decreases if x in sh.depth then sh.depth[x] else 0
  {
    if x != a {
      DeeperUnder(sh, sh.parent[x], a);
    }
  }

  /** Different inodes of the same depth have no common descendant. */
  lemma {:induction false} ApartBelow(sh: Shape, x: nat, a: nat, b: nat)
    requires Under(sh, x, a) && Under(sh, x, b) && x in sh.depth && a in sh.depth && b in sh.depth
    requires sh.depth[a] == sh.depth[b]
    ensures a == b
    decreases if x in sh.depth then sh.depth[x] else 0
  {
    DeeperUnder(sh, x, a);
    DeeperUnder(sh, x, b);
    if x != a && x != b {
      ApartBelow(sh, sh.parent[x], a, b);
    }
  }

  /** The inodes below `a` are `a` and those below its children. */
  lemma {:induction false} UnderChild(files: Files, sh: Shape, x: nat, a: nat) returns (c: nat)
    requires TreeOk(files, sh) && x in files && x != a && Under(sh, x, a) && a in files
    ensures c in files && c != 0 && c in sh.parent && sh.parent[c] == a && Under(sh, x, c)
    ensures IsDir(files, a) && HasChild(files, a, c)
    decreases if x in sh.depth then sh.depth[x] else 0
  {
    hide LogOk, IsLog, Parse, HasChild;
    assert NodeOk(files, sh, x);
    if sh.parent[x] == a {
      c := x;
    } else {
      c := UnderChild(files, sh, sh.parent[x], a);
    }
  }

  lemma UnderTrans(sh: Shape, x: nat, c: nat, a: nat)
    requires Under(sh, x, c) && c in sh.parent && c in sh.depth && sh.parent[c] == a && a in sh.depth
    requires sh.depth[a] < sh.depth[c]
    ensures Under(sh, x, a)
    decreases if x in sh.depth then sh.depth[x] else 0
  {
    if x != c {
      UnderTrans(sh, sh.parent[x], c, a);
    }
  }

  /** The inodes below the children named by the first `k` records of `d`. */
  ghost function BelowFirst(files: Files, sh: Shape, d: nat, k: nat): set<nat>
    requires d in files && k <= |Entries(files, d)|
  {
    set x | x in files && exists j :: j < k && IsChildAt(Entries(files, d), j) && Under(sh, x, Entries(files, d)[j].nr)
  }

  lemma ChildSubtree(files: Files, sh: Shape, d: nat, k: nat)
    requires TreeOk(files, sh) && IsDir(files, d) && IsChildAt(Entries(files, d), k)
    ensures var c := Entries(files, d)[k].nr;
            && ChildOk(files, sh, d, c)
            && BelowFirst(files, sh, d, k + 1) == BelowFirst(files, sh, d, k) + Subtree(files, sh, c)
            && BelowFirst(files, sh, d, k) !! Subtree(files, sh, c)
            && d !in Subtree(files, sh, c) && Subtree(files, sh, c) < Subtree(files, sh, d)
  {
    hide IsLog, Parse, UniqueNames;
    assert NodeOk(files, sh, d);
    var ds := Entries(files, d);
    var c: nat := ds[k].nr;
    assert ChildOk(files, sh, d, c) && NodeOk(files, sh, c);
    forall x | x in BelowFirst(files, sh, d, k) ensures x !in Subtree(files, sh, c) {
      var j :| j < k && IsChildAt(ds, j) && Under(sh, x, ds[j].nr);
      assert ChildOk(files, sh, d, ds[j].nr) && NodeOk(files, sh, ds[j].nr) && NodeOk(files, sh, x);
      if Under(sh, x, c) {
        ApartBelow(sh, x, ds[j].nr, c);
      }
    }
    if Under(sh, d, c) {
      DeeperUnder(sh, d, c);
    }
    forall x | x in Subtree(files, sh, c) ensures x in Subtree(files, sh, d) {
      UnderTrans(sh, x, c, d);
    }
    assert d in Subtree(files, sh, d);
    forall x | x in files
      ensures x in BelowFirst(files, sh, d, k + 1) <==> x in BelowFirst(files, sh, d, k) || Under(sh, x, c) {
    }
  }

  lemma NoChildHere(files: Files, sh: Shape, d: nat, k: nat)
    requires d in files && k < |Entries(files, d)| && !IsChildAt(Entries(files, d), k)
    ensures BelowFirst(files, sh, d, k + 1) == BelowFirst(files, sh, d, k)
  {
    hide Parse, IsLog;
  }

  lemma WholeSubtree(files: Files, sh: Shape, d: nat)
    requires TreeOk(files, sh) && d in files
    ensures IsDir(files, d) ==> Subtree(files, sh, d) == {d} + BelowFirst(files, sh, d, |Entries(files, d)|)
    ensures !IsDir(files, d) ==> Subtree(files, sh, d) == {d}
  {
    hide IsLog, Parse, UniqueNames, LogOk;
    assert NodeOk(files, sh, d);
    forall x | x in Subtree(files, sh, d) && x != d
      ensures IsDir(files, d) && x in BelowFirst(files, sh, d, |Entries(files, d)|)
    {
      var c := UnderChild(files, sh, x, d);
      var j :| IsChildAt(Entries(files, d), j) && Entries(files, d)[j].nr == c;
      assert j < |Entries(files, d)|;
    }
    if IsDir(files, d) {
      forall x | x in BelowFirst(files, sh, d, |Entries(files, d)|) ensures Under(sh, x, d) {
        var j :| j < |Entries(files, d)| && IsChildAt(Entries(files, d), j) && Under(sh, x, Entries(files, d)[j].nr);
        ChildBelow(files, sh, d, j);
        UnderTrans(sh, x, Entries(files, d)[j].nr, d);
      }
    }
  }

  lemma ChildBelow(files: Files, sh: Shape, d: nat, k: int)
    requires TreeOk(files, sh) && IsDir(files, d) && IsChildAt(Entries(files, d), k)
    ensures var c := Entries(files, d)[k].nr;
            ChildOk(files, sh, d, c) && c in sh.depth && d in sh.depth && sh.depth[c] == sh.depth[d] + 1
  {
    hide IsLog, Parse, UniqueNames;
    assert NodeOk(files, sh, d);
    var c := Entries(files, d)[k].nr;
    assert ChildOk(files, sh, d, c) && NodeOk(files, sh, c);
  }

  // Paths

  /** Where `testfs_find_dirent` stops: the first record with that inode number. */
  function FindNr(ds: seq<Dirent>, nr: nat, i: nat): (k: nat)
    requires i <= |ds|
    ensures i <= k <= |ds| && (k < |ds| ==> ds[k].nr == nr) && forall j :: i <= j < k ==> ds[j].nr != nr
    decreases |ds| - i
  {
    if i == |ds| || ds[i].nr == nr then i else FindNr(ds, nr, i + 1)
  }

  /** The names from the root down to directory `x`, as `testfs_pwd` finds them. */
  ghost function PathOf(files: Files, sh: Shape, x: nat): seq<seq<byte>>
    requires TreeOk(files, sh) && x in files
    decreases if x in sh.depth then sh.depth[x] else 0
  {
    assert NodeOk(files, sh, x);
    if x == 0 then []
    else
      var p := sh.parent[x];
      var ds := Entries(files, p);
      var k := FindNr(ds, x, 0);
      PathOf(files, sh, p) + (if k < |ds| then [ds[k].name] else [])
  }

  /** Looking names up one after another from directory `from`; negative as soon as one is missing. */
  function Resolve(files: Files, from: int, names: seq<seq<byte>>): int {
    if names == [] then from
    else
      var at := Resolve(files, from, names[..|names| - 1]);
      if at >= 0 && IsDir(files, at) then NrOf(Entries(files, at), names[|names| - 1]) else -ENOENT
  }

  /** The child record of `x` is the first record in its parent with that number, and its name leads to `x`. */
  lemma NamedFirst(files: Files, sh: Shape, x: nat)
    requires TreeOk(files, sh) && x in files && x != 0
    ensures NodeOk(files, sh, x) && sh.parent[x] in files
    ensures var ds := Entries(files, sh.parent[x]);
            var k := FindNr(ds, x, 0);
            IsChildAt(ds, k) && NrOf(ds, ds[k].name) == x
  {
    hide IsLog, Parse, FindNr;
    assert NodeOk(files, sh, x);
    var p := sh.parent[x];
    assert NodeOk(files, sh, p);
    var ds := Entries(files, p);
    var j :| IsChildAt(ds, j) && ds[j].nr == x;
    var k := FindNr(ds, x, 0);
    assert ds[0].nr != x && ds[1].nr != x;
    assert k >= 2 && IsChildAt(ds, k);
    FindIs(ds, ds[k].name, k);
  }

  /** Of all records in all directories exactly one names `x` as a child; none names the root. */
  lemma NamedOnce(files: Files, sh: Shape, x: nat, d: nat, k: int)
    requires TreeOk(files, sh) && x in files && IsDir(files, d)
    ensures NodeOk(files, sh, x) && sh.parent[x] in files
    ensures IsChildAt(Entries(files, d), k) && Entries(files, d)[k].nr == x
      <==> x != 0 && d == sh.parent[x] && k == FindNr(Entries(files, d), x, 0)
  {
    hide IsLog, Parse, FindNr;
    assert NodeOk(files, sh, x) && NodeOk(files, sh, d);
    if x != 0 {
      NamedFirst(files, sh, x);
    }
    if IsChildAt(Entries(files, d), k) && Entries(files, d)[k].nr == x {
      assert ChildOk(files, sh, d, x);
    }
  }

  /** Resolving the path of an inode from the root leads back to it. */
  lemma {:induction false} PathRoundTrip(files: Files, sh: Shape, x: nat)
    requires TreeOk(files, sh) && x in files
    ensures Resolve(files, 0, PathOf(files, sh, x)) == x
    decreases if x in sh.depth then sh.depth[x] else 0
  {
    hide IsLog, Parse, FindNr, NrOf, LogOk;
    assert NodeOk(files, sh, x);
    if x != 0 {
      var p := sh.parent[x];
      NamedFirst(files, sh, x);
      PathRoundTrip(files, sh, p);
      var ds := Entries(files, p);
      var names := PathOf(files, sh, x);
      assert names[..|names| - 1] == PathOf(files, sh, p);
      assert names[|names| - 1] == ds[FindNr(ds, x, 0)].name;
    }
  }

  /** `..` names the parent, and only the root is its own parent. */
  lemma DotDotIsParent(files: Files, sh: Shape, d: nat)
    requires TreeOk(files, sh) && IsDir(files, d)
    ensures NodeOk(files, sh, d) && IsLog(files[d].bytes) && NrOf(Entries(files, d), DOTDOT) == sh.parent[d]
    ensures IsDir(files, sh.parent[d]) && (sh.parent[d] == d <==> d == 0)
    ensures d in sh.depth && sh.parent[d] in sh.depth
    ensures d != 0 ==> sh.depth[sh.parent[d]] < sh.depth[d]
  {
    hide IsLog, Parse, NrOf;
    assert NodeOk(files, sh, d);
    FindIs(Entries(files, d), DOTDOT, 1);
  }
}
