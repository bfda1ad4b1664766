/** The two ways to write many files and save them: synchronously, and with all requests in flight at once. */
module Bench {
  import opened Bytes
  import opened Layout
  import opened Checksum
  import opened Volume
  import Bits = Bitmap
  import opened Reactors
  import opened Device
  import opened Super
  import opened Steps
  import opened Inodes
  import opened World
  import opened Table
  import opened Dirents
  import opened Tree
  import opened DirOps
  import opened FileOps
  import opened Contexts
  import opened Commands
  import Alternate
  import opened AltPath
  import opened Bulk
  import opened BulkAsync
  import opened Batch
  import opened WriteCommand

  // The names that are written

  /** The inode numbers of the names in directory `cur`. */
  ghost function Numbers(files: Files, cur: nat, names: seq<seq<byte>>): (nrs: seq<int>)
    requires cur in files
    ensures |nrs| == |names|
  {
    seq(|names|, i requires 0 <= i < |names| && cur in files => NrOf(Entries(files, cur), names[i]))
  }

  /** Each name is that of a plain file, and no name comes twice. */
  ghost predicate Targets(files: Files, cur: nat, names: seq<seq<byte>>)
    requires cur in files
  {
    && (forall i :: 0 <= i < |names| ==> IsTarget(files, NrOf(Entries(files, cur), names[i])))
    && (forall i, j :: 0 <= i < j < |names| ==> names[i] != names[j])
  }

  ghost predicate IsTarget(files: Files, nr: int) {
    nr >= 0 && nr in files && files[nr].typ == I_FILE
  }

  /** Different names of plain files belong to different inodes. */
  lemma TargetsDiffer(files: Files, sh: Shape, cur: nat, x: seq<byte>, y: seq<byte>)
    requires TreeOk(files, sh) && IsDir(files, cur) && x != y
    requires IsTarget(files, NrOf(Entries(files, cur), x)) && IsTarget(files, NrOf(Entries(files, cur), y))
    ensures NrOf(Entries(files, cur), x) != NrOf(Entries(files, cur), y)
  {
  }

  lemma NumbersPlain(w: World, sh: Shape, cur: nat, names: seq<seq<byte>>)
    requires BlocksConsistent(w) && TreeOk(FilesOf(w), sh) && IsDir(FilesOf(w), cur) && Targets(FilesOf(w), cur, names)
    ensures PlainFiles(w, Numbers(FilesOf(w), cur, names))
    ensures forall i :: 0 <= i < |names| ==> IsTarget(FilesOf(w), Numbers(FilesOf(w), cur, names)[i])
    ensures forall i :: 0 <= i < |names| ==> Numbers(FilesOf(w), cur, names)[i] >= 0
    ensures cur !in Numbers(FilesOf(w), cur, names)
  {
    hide BlocksConsistent, TreeOk, NrOf, Contents, Parse;
    var files := FilesOf(w);
    var nrs := Numbers(files, cur, names);
    forall i | 0 <= i < |nrs| ensures IsTarget(files, nrs[i]) && IsPlain(w, nrs[i]) && nrs[i] != cur {
      assert IsTarget(files, NrOf(Entries(files, cur), names[i]));
    }
    forall i, j | 0 <= i < j < |nrs| ensures nrs[i] != nrs[j] {
      TargetsDiffer(files, sh, cur, names[i], names[j]);
    }
  }

  // The inodes in memory

  /** The inodes of the numbers `nrs` are in memory, once each, and besides them only the current directory. */
  ghost predicate Open(c: Context, all: seq<Inode>, nrs: seq<nat>)
    reads c, c.table
  {
    OpenIn(c.table.view, c.curDir, c.sb, all, nrs)
  }

  ghost predicate OpenIn(view: map<nat, Inode>, cur: Inode, sb: SuperBlock, all: seq<Inode>, nrs: seq<nat>) {
    && |all| == |nrs| && (forall i :: 0 <= i < |all| ==> OpenAt(view, cur, sb, all[i], nrs[i]))
    && (forall i, j :: 0 <= i < j < |nrs| ==> nrs[i] != nrs[j])
    && (forall nr :: nr in view ==> nr == cur.nr || nr in nrs)
    && cur.nr in view && view[cur.nr] == cur
  }

  ghost predicate OpenAt(view: map<nat, Inode>, cur: Inode, sb: SuperBlock, in_: Inode, nr: nat) {
    in_.nr == nr && in_.sb == sb && nr in view && view[nr] == in_ && nr != cur.nr
  }

  lemma OpenMore(view: map<nat, Inode>, cur: Inode, sb: SuperBlock, all: seq<Inode>, nrs: seq<nat>, in_: Inode)
    requires OpenIn(view, cur, sb, all, nrs) && in_.nr !in nrs && in_.nr != cur.nr && in_.sb == sb
    ensures OpenIn(view[in_.nr := in_], cur, sb, all + [in_], nrs + [in_.nr])
  {
    var view', all', nrs' := view[in_.nr := in_], all + [in_], nrs + [in_.nr];
    forall i | 0 <= i < |all'| ensures OpenAt(view', cur, sb, all'[i], nrs'[i]) {
      if i < |all| {
        assert OpenAt(view, cur, sb, all[i], nrs[i]) && nrs[i] in nrs;
      }
    }
  }

  lemma OpenLess(view: map<nat, Inode>, cur: Inode, sb: SuperBlock, all: seq<Inode>, nrs: seq<nat>)
    requires OpenIn(view, cur, sb, all, nrs) && all != []
    ensures OpenAt(view, cur, sb, all[0], nrs[0]) && OpenIn(view - {nrs[0]}, cur, sb, all[1..], nrs[1..])
  {
    forall i | 0 <= i < |all| - 1 ensures OpenAt(view - {nrs[0]}, cur, sb, all[1..][i], nrs[1..][i]) {
      assert OpenAt(view, cur, sb, all[i + 1], nrs[i + 1]) && nrs[0] != nrs[i + 1];
    }
    assert OpenAt(view, cur, sb, all[0], nrs[0]);
  }

  lemma OpenIs(view: map<nat, Inode>, cur: Inode, sb: SuperBlock, all: seq<Inode>, nrs: seq<nat>)
    requires OpenIn(view, cur, sb, all, nrs)
    ensures |all| == |nrs| && forall i :: 0 <= i < |all| ==>
      all[i].nr == nrs[i] && nrs[i] in view && view[nrs[i]] == all[i] && all[i] != cur
  {
    forall i | 0 <= i < |all| ensures all[i].nr == nrs[i] && nrs[i] in view && view[nrs[i]] == all[i] && all[i] != cur {
      assert OpenAt(view, cur, sb, all[i], nrs[i]);
    }
  }

  /** Nobody else has got them. */
  ghost predicate Once(c: Context, all: seq<Inode>)
    reads c, c.curDir, all
  {
    c.curDir.count == 1 && forall i :: 0 <= i < |all| ==> all[i].count == 1
  }

  /** The inode is as it was read from the disk. */
  ghost predicate AsRead(in_: Inode, d: DInode)
    reads in_`din, in_`indirect, in_`indirectLoaded, in_`indirectDirty, in_`dirty
  {
    && in_.din == d && in_.indirect == seq(128, _ => 0)
    && !in_.indirectLoaded && !in_.indirectDirty && !in_.dirty
  }

  ghost predicate AllAsRead(all: seq<Inode>, w: World)
    reads SetOf(all)`din, SetOf(all)`indirect, SetOf(all)`indirectLoaded, SetOf(all)`indirectDirty, SetOf(all)`dirty
  {
    forall i :: 0 <= i < |all| ==> all[i].nr < NR_INODES && AsRead(all[i], w.inodes[all[i].nr])
  }

  lemma TargetAt(w: World, cur: nat, names: seq<seq<byte>>, i: nat)
    requires BlocksConsistent(w) && cur in FilesOf(w) && i < |names| && Targets(FilesOf(w), cur, names)
    ensures var nr := Numbers(FilesOf(w), cur, names)[i];
            nr == NrOf(Entries(FilesOf(w), cur), names[i]) && nr >= 0 && IsLive(w, nr)
  {
    hide BlocksConsistent, NrOf, Parse;
    assert IsTarget(FilesOf(w), NrOf(Entries(FilesOf(w), cur), names[i]));
  }

  /** Gets the inode of one name; it was not in memory. */
  method OpenOne(c: Context, name: seq<byte>, ghost all: seq<Inode>, ghost nrs: seq<nat>) returns (in_: Inode)
    requires c.Consistent() && Open(c, all, nrs) && Once(c, all) && AllAsRead(all, c.W())
    requires IsDir(c.Files(), c.curDir.nr) && IsLog(c.Files()[c.curDir.nr].bytes)
    requires var nr := NrOf(Entries(c.Files(), c.curDir.nr), name);
             nr != c.curDir.nr && nr >= 0 && nr !in nrs && IsLive(c.W(), nr)
    modifies c.table, c.table.view.Values`count, c.sb.dev
    ensures c.Consistent() && c.W() == old(c.W()) && Open(c, all + [in_], nrs + [in_.nr]) && Once(c, all + [in_])
    ensures in_.nr == NrOf(Entries(old(c.Files()), c.curDir.nr), name)
    ensures fresh(in_) && AllAsRead(all + [in_], c.W())
  {
    hide SuperBlock.Vol, SuperBlock.Valid, SuperBlock.InodesUsed, InodeTable.Valid, DiskInode, Sound, Contents;
    hide Context.Struct, Context.CachedLive, Context.MapsSaved, Context.W, Context.CacheOk, FilesOf, BlocksConsistent;
    hide NrOf, Parse, IsLog, Entries, Context.Current, OpenIn;
    ghost var view := c.table.view;
    OpenIs(view, c.curDir, c.sb, all, nrs);
    CurrentOpen(view, c.curDir, c.sb, all, nrs);
    var nr := LookUp(c, name);
    in_ := OpenFound(c, nr, all, nrs);
  }

  method OpenFound(c: Context, nr: nat, ghost all: seq<Inode>, ghost nrs: seq<nat>) returns (in_: Inode)
    requires c.Consistent() && Open(c, all, nrs) && Once(c, all) && AllAsRead(all, c.W())
    requires nr != c.curDir.nr && nr !in nrs && IsLive(c.W(), nr)
    modifies c.table, c.table.view.Values`count, c.sb.dev
    ensures c.Consistent() && c.W() == old(c.W()) && Open(c, all + [in_], nrs + [in_.nr]) && Once(c, all + [in_])
    ensures fresh(in_) && in_.nr == nr && AllAsRead(all + [in_], c.W())
  {
    hide SuperBlock.Vol, SuperBlock.Valid, SuperBlock.InodesUsed, InodeTable.Valid, DiskInode, Sound, Contents;
    hide Context.Struct, Context.CachedLive, Context.MapsSaved, Context.W, Context.CacheOk, FilesOf, BlocksConsistent;
    hide Context.Current;
    c.LiveIs();
    ghost var view := c.table.view;
    NotYetOpen(view, c.curDir, c.sb, all, nrs, nr);
    hide OpenIn, AllAsRead;
    OpenIs(view, c.curDir, c.sb, all, nrs);
    in_ := c.GetInode(nr);
    OpenMore(view, c.curDir, c.sb, all, nrs, in_);
    ReadMore(all, in_, c.W());
  }

  lemma ReadMore(all: seq<Inode>, in_: Inode, w: World)
    requires AllAsRead(all, w) && in_.nr < NR_INODES && AsRead(in_, w.inodes[in_.nr])
    ensures AllAsRead(all + [in_], w)
  {
    hide AsRead;
  }

  lemma CurrentOpen(view: map<nat, Inode>, cur: Inode, sb: SuperBlock, all: seq<Inode>, nrs: seq<nat>)
    requires OpenIn(view, cur, sb, all, nrs)
    ensures cur.nr in view && view[cur.nr] == cur
  {
  }

  lemma NotYetOpen(view: map<nat, Inode>, cur: Inode, sb: SuperBlock, all: seq<Inode>, nrs: seq<nat>, nr: int)
    requires OpenIn(view, cur, sb, all, nrs) && nr != cur.nr && nr !in nrs
    ensures nr !in view && cur.nr in view && view[cur.nr] == cur
  {
  }

  /** Looks a name up in the current directory, whatever else is in memory. */
  method LookUp(c: Context, name: seq<byte>) returns (nr: int)
    requires c.Consistent() && c.curDir.nr in c.table.view && c.table.view[c.curDir.nr] == c.curDir
    requires IsDir(c.Files(), c.curDir.nr) && IsLog(c.Files()[c.curDir.nr].bytes)
    modifies c.sb.dev
    ensures c.Consistent() && c.W() == old(c.W()) && nr == NrOf(Entries(c.Files(), c.curDir.nr), name)
  {
    hide SuperBlock.Vol, SuperBlock.Valid, SuperBlock.InodesUsed, InodeTable.Valid, DiskInode, Sound, Contents;
    hide Context.Struct, Context.CachedLive, Context.MapsSaved, Context.W, Context.CacheOk, FilesOf, BlocksConsistent;
    hide NrOf, Parse, IsLog, Entries, Context.Current;
    c.CachedDir(c.curDir);
    nr := DirNameToInodeNr(c.curDir, name, Entries(c.Files(), c.curDir.nr));
    c.OnlyRead();
  }

  lemma OpenValues(c: Context, all: seq<Inode>, nrs: seq<nat>)
    requires Open(c, all, nrs)
    ensures forall x :: x in c.table.view.Values ==> x == c.curDir || x in all
  {
    forall x | x in c.table.view.Values ensures x == c.curDir || x in all {
      var nr :| nr in c.table.view && c.table.view[nr] == x;
      if nr != c.curDir.nr {
        var i :| 0 <= i < |nrs| && nrs[i] == nr;
        assert OpenAt(c.table.view, c.curDir, c.sb, all[i], nrs[i]);
      }
    }
  }

  lemma OpenNone(c: Context)
    requires c.Valid()
    ensures Open(c, [], []) && Once(c, [])
  {
    hide BlocksConsistent, TreeOk, SuperBlock.Valid, Context.Struct;
  }

  /** Gets the inodes of all names. */
  method OpenAll(c: Context, names: seq<seq<byte>>) returns (a: array<Inode>)
    requires c.Valid() && Targets(c.Files(), c.curDir.nr, names)
    modifies c.table, c.table.view.Values`count, c.sb.dev
    ensures fresh(a) && c.Consistent() && c.W() == old(c.W()) && c.curDir.nr in c.Files()
    ensures forall i :: 0 <= i < |names| ==> Numbers(c.Files(), c.curDir.nr, names)[i] >= 0
    ensures Open(c, a[..], Numbers(c.Files(), c.curDir.nr, names)) && Once(c, a[..])
    ensures (forall x :: x in a[..] ==> fresh(x)) && AllAsRead(a[..], c.W())
  {
    hide SuperBlock.Vol, SuperBlock.Valid, SuperBlock.InodesUsed, InodeTable.Valid, DiskInode, Sound, Contents;
    hide Context.Struct, Context.CachedLive, Context.MapsSaved, Context.W, Context.CacheOk, TreeOk, FilesOf;
    hide BlocksConsistent;
    hide NrOf, Parse, IsLog, Entries, Context.Current, Open, Targets;
    hide AllAsRead, Once, IsTarget, IsDir, OpenAt;
    ghost var w, files, cur := c.W(), c.Files(), c.curDir.nr;
    OpenNone(c);
    InDirectory(c);
    NumbersPlain(w, c.shape, cur, names);
    ghost var nrs: seq<nat> := Numbers(files, cur, names);
    NamesLive(files, c.shape, cur, DOT);
    var none := c.curDir;
    a := new Inode[|names|](_ => none);
    ghost var all: seq<Inode> := [];
    NoneRead(w);
    var i := 0;
    while i < |names|
      invariant 0 <= i <= |names| && a.Length == |names| && a[..i] == all && forall x :: x in all ==> fresh(x)
      invariant c.Consistent() && c.W() == w && c.curDir.nr == cur
      invariant Open(c, all, nrs[..i]) && Once(c, all) && AllAsRead(all, w)
    {
      TargetAt(w, cur, names, i);
      OpenValues(c, all, nrs[..i]);
      assert nrs[i] !in nrs[..i];
      var in_ := OpenOne(c, names[i], all, nrs[..i]);
      a[i] := in_;
      all := all + [in_];
      assert nrs[..i + 1] == nrs[..i] + [nrs[i]];
      i := i + 1;
    }
    assert a[..] == all && nrs[..i] == nrs;
  }

  lemma NoneRead(w: World)
    ensures AllAsRead([], w)
  {
  }

  lemma InDirectory(c: Context)
    requires c.Valid()
    ensures IsDir(c.Files(), c.curDir.nr) && c.curDir.nr in c.Files() && TreeOk(c.Files(), c.shape)
  {
    hide BlocksConsistent, FilesOf, TreeOk, SuperBlock.Valid, Context.Struct;
  }

  // The inodes as a batch

  ghost function ItemOf(in_: Inode): Item
    requires |in_.indirect| == 128
    reads in_
  {
    ItemData.Item(in_.nr, in_.din, in_.indirect, in_.indirectLoaded, in_.indirectDirty, in_.dirty)
  }

  ghost predicate Tabled(s: seq<Inode>)
    reads s
  {
    forall i :: 0 <= i < |s| ==> |s[i].indirect| == 128
  }

  ghost function ItemsOf(s: seq<Inode>): (r: seq<Item>)
    requires Tabled(s)
    reads s
    ensures |r| == |s|
  {
    if s == [] then [] else ItemsOf(s[..|s| - 1]) + [ItemOf(s[|s| - 1])]
  }

  lemma {:induction false} ItemsAt(s: seq<Inode>, i: nat)
    requires Tabled(s) && i < |s|
    ensures ItemsOf(s)[i] == ItemOf(s[i])
  {
    if i < |s| - 1 {
      ItemsAt(s[..|s| - 1], i);
    }
  }

  lemma AllItems(s: seq<Inode>)
    requires Tabled(s)
    ensures forall i :: 0 <= i < |s| ==> ItemsOf(s)[i] == ItemOf(s[i])
  {
    hide ItemsOf;
    forall i | 0 <= i < |s| ensures ItemsOf(s)[i] == ItemOf(s[i]) {
      ItemsAt(s, i);
    }
  }

  ghost function BatchOf(sb: SuperBlock, s: seq<Inode>): Batch
    requires sb.Valid() && Tabled(s)
    reads sb, sb.dev, sb.inodeFreemap.v, sb.blockFreemap.v, s
  {
    BatchData.Batch(sb.Vol(), sb.csumDirty, ItemsOf(s))
  }

  lemma {:induction false} SameList(s: seq<Inode>, items: seq<Item>)
    requires Tabled(s) && items == ItemsOf(s)
    ensures ListOf(s) == seq(|items|,
      i requires 0 <= i < |items| => Unsaved(items[i].nr, items[i].d, items[i].tableDirty, items[i].table))
  {
    if s != [] {
      var n := |s| - 1;
      SameList(s[..n], items[..n]);
    }
  }

  lemma ListIsToSave(sb: SuperBlock, s: seq<Inode>)
    requires sb.Valid() && Tabled(s)
    ensures ListOf(s) == ToSave(BatchOf(sb, s))
  {
    hide ListOf, ItemsOf, SuperBlock.Valid, SuperBlock.Vol;
    SameList(s, ItemsOf(s));
  }

  /** These inodes all belong to this file system, and no two are the same. */
  ghost predicate Ours(sb: SuperBlock, s: seq<Inode>) {
    && (forall i :: 0 <= i < |s| ==> s[i].sb == sb)
    && (forall i, j :: 0 <= i < j < |s| ==> s[i] != s[j])
  }

  /** One item changed and the others did not. */
  lemma OneMoved(s: Batch, i: nat, a: Alternate.Alt, s': Batch)
    requires i < |s.items| == |s'.items| && s'.v == a.v && s'.csumDirty == a.csumDirty
    requires s'.items[i] == ItemData.Item(s.items[i].nr, a.d, a.table, a.loaded, a.tableDirty, a.dirty)
    requires forall j :: 0 <= j < |s.items| && j != i ==> s'.items[j] == s.items[j]
    ensures s' == WithAlt(s, i, a)
  {
  }

  /** An item can be written. */
  lemma MayWriteItem(w: World, s: Batch, i: nat, start: nat)
    requires BatchOk(w, s) && i < |s.items| && (start == 0 || StartsIn(s, i, start))
    ensures Fit(AltOf(s, i), start) && s.items[i].d.size >= 0
  {
    hide BatchOk, Sound, Alternate.VDisk, Alternate.Coherent, Contents, VWorld;
    ItemFit(w, s, i);
  }

  /** One synchronous write. */
  method WriteOne(sb: SuperBlock, ghost all: seq<Inode>, in_: Inode, ghost i: nat, start: nat, content: seq<byte>,
      ghost w: World)
  returns (r: Outcome)
    requires sb.Valid() && sb.Idle() && Ours(sb, all) && Tabled(all) && i < |all| && all[i] == in_
    requires BatchOk(w, BatchOf(sb, all))
    requires start == 0 || StartsIn(BatchOf(sb, all), i, start)
    modifies in_`din, in_`dirty, in_`indirect, in_`indirectLoaded, in_`indirectDirty
    modifies sb`csumTable, sb`csumDirty, sb.dev, sb.blockFreemap.v
    ensures sb.Valid() && sb.Idle() && Tabled(all) && start % BLOCK_SIZE == 0
    ensures r == Alternate.Write(AltOf(old(BatchOf(sb, all)), i), start, content).1
    ensures !r.Aborted? ==>
      BatchOf(sb, all) == WithAlt(old(BatchOf(sb, all)), i,
        Alternate.Write(AltOf(old(BatchOf(sb, all)), i), start, content).0)
  {
    hide SuperBlock.Vol, SuperBlock.Valid, Alternate.Write, Alternate.Coherent, BatchOk, ItemsOf, Alternate.VDisk;
    hide Sound, Fit;
    AllItems(all);
    MayWriteItem(w, BatchOf(sb, all), i, start);
    FitBound(AltOf(BatchOf(sb, all), i), start);
    ghost var s := BatchOf(sb, all);
    r := WriteDataAlternate(in_, start, content);
    AllItems(all);
    if !r.Aborted? {
      OneMoved(s, i, State(in_), BatchOf(sb, all));
    }
  }

  lemma WriteFirstNext(s: Batch, k: nat, buf: seq<byte>)
    requires k < |s.items| && WriteFirst(s, k, buf).1
    ensures var s1 := WriteFirst(s, k, buf).0;
            var (a, r) := Alternate.Write(AltOf(s1, k), 0, buf);
            && (r == Done || r == Failed(EFBIG) ==> WriteFirst(s, k + 1, buf) == (WithAlt(s1, k, a), true))
            && (r != Done && r != Failed(EFBIG) ==> !WriteFirst(s, k + 1, buf).1)
  {
    hide Alternate.Write;
  }

  lemma {:induction false} WriteFirstFails(s: Batch, k: nat, n: nat, buf: seq<byte>)
    requires k <= n <= |s.items| && !WriteFirst(s, k, buf).1
    ensures !WriteFirst(s, n, buf).1
  {
    hide Alternate.Write;
    if k < n {
      WriteFirstFails(s, k, n - 1, buf);
    }
  }

  lemma NoneWritten(s: Batch, buf: seq<byte>)
    ensures WriteFirst(s, 0, buf) == (s, true)
  {
  }

  /** Writes all files, up to the first for which there are not enough blocks. */
  method WriteAll(sb: SuperBlock, inodes: array<Inode>, content: seq<byte>, ghost w: World) returns (ok: bool)
    requires sb.Valid() && sb.Idle() && Ours(sb, inodes[..]) && Tabled(inodes[..])
    requires BatchOk(w, BatchOf(sb, inodes[..]))
    modifies SetOf(inodes[..])`din, SetOf(inodes[..])`dirty, SetOf(inodes[..])`indirect
    modifies SetOf(inodes[..])`indirectLoaded, SetOf(inodes[..])`indirectDirty
    modifies sb`csumTable, sb`csumDirty, sb.dev, sb.blockFreemap.v
    ensures sb.Valid() && Tabled(inodes[..]) && ok == WriteFirst(old(BatchOf(sb, inodes[..])), inodes.Length, content).1
    ensures ok ==>
      sb.Idle() && BatchOf(sb, inodes[..]) == WriteFirst(old(BatchOf(sb, inodes[..])), inodes.Length, content).0
  {
    hide SuperBlock.Vol, SuperBlock.Valid, Alternate.Write, BatchOk, ItemsOf, WriteFirst, WithAlt, VWorld, FilesOf;
    ghost var s, all := BatchOf(sb, inodes[..]), inodes[..];
    NoneWritten(s, content);
    var i := 0;
    ok := true;
    while i < inodes.Length
      invariant 0 <= i <= inodes.Length && sb.Valid() && sb.Idle() && Tabled(all) && inodes[..] == all && ok
      invariant WriteFirst(s, i, content) == (BatchOf(sb, all), true)
    {
      WriteFirstOk(w, s, i, content);
      WriteFirstNext(s, i, content);
      MayClean(all, i);
      var r := WriteOne(sb, all, inodes[i], i, 0, content, w);
      if r != Done && r != Failed(EFBIG) {
        WriteFirstFails(s, i + 1, inodes.Length, content);
        return false;
      }
      i := i + 1;
    }
  }

  lemma CommittedIs(s: Batch, v1: Vol, v2: Vol, v3: Vol)
    requires Wf(ToSave(s)) && v1 == WithDisk(s.v, SyncedOneByOne(s.v.disk, ToSave(s)))
    requires v2 == WithDisk(v1, WithFreemap(v1.disk, v1.used))
    requires v3 == WithDisk(v2, CsumFlushed(v2.disk, v2.csum, s.csumDirty, CSUM_TABLE_SIZE))
    ensures v3 == Committed(s)
  {
    hide SyncedOneByOne, CsumFlushed, Bits.FreemapBlock;
  }

  /** Saves the inodes, the block freemap and the checksum table. */
  method Commit(sb: SuperBlock, inodes: array<Inode>)
    requires sb.Valid() && sb.Idle() && Tabled(inodes[..])
    requires var us := ToSave(BatchOf(sb, inodes[..])); Wf(us) && Distinct(us)
    modifies inodes, SetOf(inodes[..])`dirty, SetOf(inodes[..])`indirectDirty, sb`csumDirty, sb.dev
    ensures sb.Valid() && sb.Idle() && sb.Vol() == Committed(old(BatchOf(sb, inodes[..])))
    ensures sb.csumDirty == seq(CSUM_TABLE_SIZE, _ => false)
    ensures multiset(inodes[..]) == multiset(old(inodes[..]))
    ensures forall in_ :: in_ in old(inodes[..]) ==> !in_.dirty && !in_.indirectDirty
  {
    hide SuperBlock.Valid, ItemsOf, SyncedOneByOne, EachOnce, CsumFlushed, Bits.FreemapBlock, ListOf, Distinct, Wf;
    hide Settled;
    ghost var s := BatchOf(sb, inodes[..]);
    ListIsToSave(sb, inodes[..]);
    ghost var all := inodes[..];
    ghost var written := BulkSync(sb, inodes);
    ghost var v1 := sb.Vol();
    sb.WriteWholeBlockFreemap();
    ghost var v2 := sb.Vol();
    sb.FlushCsum();
    CommittedIs(s, v1, v2, sb.Vol());
    AllClean(all, inodes[..]);
  }

  lemma AllClean(was: seq<Inode>, s: seq<Inode>)
    requires multiset(was) == multiset(s) && forall i :: 0 <= i < |s| ==> !s[i].dirty && !s[i].indirectDirty
    ensures forall in_ :: in_ in was ==> !in_.dirty && !in_.indirectDirty
  {
    forall in_ | in_ in was ensures in_ in s {
      assert in_ in multiset(was);
      assert in_ in multiset(s);
    }
  }

  // Seen from the whole file system

  /** In world `w` a number that is not in memory has the dinode that is on the device, and so has the inode freemap. */
  ghost predicate RestOnDevice(w: World, view: map<nat, Inode>) {
    NumbersSaved(w) && forall nr: nat :: nr < NR_INODES && nr !in view ==> w.inodes[nr] == DiskInode(w.vol.disk, nr)
  }

  /** The inode has not changed since world `w`, and is clean only if it is the same on disk. */
  ghost predicate Unchanged(in_: Inode, w: World)
    reads in_
  {
    && in_.nr < NR_INODES && in_.din == w.inodes[in_.nr] && |in_.indirect| == 128 && !in_.indirectDirty
    && (!in_.dirty ==> in_.din == DiskInode(w.vol.disk, in_.nr))
  }

  /** Inode `i` of the batch was saved. */
  ghost predicate SavedItem(in_: Inode, s: Batch, i: nat)
    requires i < |s.items|
    reads in_
  {
    in_.nr == s.items[i].nr && in_.din == s.items[i].d && !in_.dirty && !in_.indirectDirty && |in_.indirect| == 128
  }

  lemma CommittedContext(c: Context, all: seq<Inode>, nrs: seq<nat>, w: World, s: Batch)
    requires c.sb.Valid() && c.sb.Idle() && c.table.Valid() && c.curDir.sb == c.sb && Open(c, all, nrs) && Once(c, all)
    requires BatchOk(w, s) && FixedKept(w.vol.disk, s.v.disk) && |all| == |s.items|
    requires c.sb.Vol() == Committed(s) && c.sb.csumDirty == seq(CSUM_TABLE_SIZE, _ => false)
    requires c.sb.InodesUsed() == w.live
    requires forall i :: 0 <= i < |all| ==> SavedItem(all[i], s, i)
    requires Unchanged(c.curDir, w) && RestOnDevice(w, c.table.view) && c.curDir.nr < NR_INODES && w.live[c.curDir.nr]
    ensures c.Consistent() && SavedWorld(w, s, c.W()) && FilesOf(c.W()) == FilesOf(VWorld(w, s))
    ensures TableSaved(c.W().vol.disk, c.W().vol.csum) && FreemapSaved(c.W().vol.disk, c.W().vol.used)
  {
    hide TablesWritten, CsumFlushed, BlocksConsistent, FilesOf, SyncedOneByOne, TableBlock, Bits.FreemapBlock;
    hide DecodeDInode;
    hide Sound, VAll, Alternate.Coherent, OfInts, SuperBlock.Valid, InodeTable.Valid, DInodeOf;
    hide SuperBlock.InodesUsed, Settled;
    StepFacts(w, s);
    CommittedDisk(s);
    forall nr: nat | nr < NR_INODES
      ensures c.Current(nr) == DInodeOf(w.inodes, s, nr) && (nr in c.table.view ==> c.CacheOk(nr) && w.live[nr])
    {
      ItemInView(c, all, nrs, w, s, nr);
    }
    forall nr | nr in c.table.view ensures nr < NR_INODES {
      if nr != c.curDir.nr {
        var i :| 0 <= i < |nrs| && nrs[i] == nr;
        assert SavedItem(all[i], s, i) && OpenAt(c.table.view, c.curDir, c.sb, all[i], nrs[i]) && ItemOk(w, s, i);
      }
    }
    CommittedWorld(w, s, c.W());
  }

  lemma ItemInView(c: Context, all: seq<Inode>, nrs: seq<nat>, w: World, s: Batch, nr: nat)
    requires c.sb.Valid() && c.curDir.sb == c.sb && Open(c, all, nrs) && Once(c, all) && nr < NR_INODES
    requires BatchOk(w, s) && FixedKept(w.vol.disk, s.v.disk) && |all| == |s.items|
    requires c.sb.Vol().disk == Committed(s).disk
    requires forall i :: 0 <= i < |all| ==> SavedItem(all[i], s, i)
    requires Unchanged(c.curDir, w) && RestOnDevice(w, c.table.view) && c.curDir.nr < NR_INODES && w.live[c.curDir.nr]
    ensures c.Current(nr) == DInodeOf(w.inodes, s, nr) && (nr in c.table.view ==> c.CacheOk(nr) && w.live[nr])
  {
    hide TablesWritten, CsumFlushed, BlocksConsistent, SyncedOneByOne, TableBlock, Bits.FreemapBlock, DecodeDInode;
    hide Sound, VAll, Alternate.Coherent, OfInts, SuperBlock.Vol, SuperBlock.Valid, Committed, VWorld;
    CommittedDisk(s);
    if i: nat :| IsItem(s, i, nr) {
      assert SavedItem(all[i], s, i) && OpenAt(c.table.view, c.curDir, c.sb, all[i], nrs[i]) && ItemOk(w, s, i);
      DInodeOfItem(w.inodes, s, i);
    } else {
      forall i | 0 <= i < |nrs| ensures nrs[i] != nr {
        assert SavedItem(all[i], s, i) && OpenAt(c.table.view, c.curDir, c.sb, all[i], nrs[i]) && !IsItem(s, i, nr);
      }
      assert !IsSome(s, nr);
      assert w.vol.disk[INODE_START + nr / 16] == s.v.disk[INODE_START + nr / 16];
    }
  }

  // Putting the inodes back

  lemma NoneTwice<T>(was: seq<T>, s: seq<T>)
    requires multiset(was) == multiset(s) && forall i, j :: 0 <= i < j < |was| ==> was[i] != was[j]
    ensures forall i, j :: 0 <= i < j < |s| ==> s[i] != s[j]
  {
    hide Without;
    forall i, j | 0 <= i < j < |s| ensures s[i] != s[j] {
      if s[i] == s[j] {
        OnceMore(s, i, j);
        assert s[i] in multiset(was) && s[i] in was;
        var k: nat :| k < |was| && was[k] == s[i];
        TakenOut(was, k);
        WithoutLacks(was, k);
        assert false;
      }
    }
  }

  lemma OnceMore<T>(s: seq<T>, i: nat, j: nat)
    requires i < j < |s| && s[i] == s[j]
    ensures s[i] in multiset(s) - multiset{s[i]}
  {
    TakenOut(s, j);
    assert Without(s, j)[i] == s[i];
    assert s[i] in multiset(Without(s, j));
  }

  lemma WithoutLacks<T>(s: seq<T>, k: nat)
    requires k < |s| && forall i, j :: 0 <= i < j < |s| ==> s[i] != s[j]
    ensures s[k] !in Without(s, k) && s[k] !in multiset(Without(s, k))
  {
    forall l | 0 <= l < |Without(s, k)| ensures Without(s, k)[l] != s[k] {
      assert Without(s, k)[l] == s[if l < k then l else l + 1];
    }
    assert s[k] !in Without(s, k);
  }

  ghost function NrsOf(s: seq<Inode>): (nrs: seq<nat>)
    ensures |nrs| == |s| && forall i :: 0 <= i < |s| ==> nrs[i] == s[i].nr
  {
    seq(|s|, i requires 0 <= i < |s| => s[i].nr)
  }

  /** Sorting does not matter. */
  lemma StillOpen(c: Context, was: seq<Inode>, nrs: seq<nat>, s: seq<Inode>)
    requires Open(c, was, nrs) && Once(c, was) && multiset(was) == multiset(s)
    ensures Open(c, s, NrsOf(s)) && Once(c, s)
  {
    forall i, j | 0 <= i < j < |was| ensures was[i] != was[j] {
      assert OpenAt(c.table.view, c.curDir, c.sb, was[i], nrs[i])
        && OpenAt(c.table.view, c.curDir, c.sb, was[j], nrs[j]);
    }
    NoneTwice(was, s);
    forall i | 0 <= i < |s| ensures OpenAt(c.table.view, c.curDir, c.sb, s[i], NrsOf(s)[i]) {
      assert s[i] in multiset(s);
      assert s[i] in was;
      var k :| 0 <= k < |was| && was[k] == s[i];
      assert OpenAt(c.table.view, c.curDir, c.sb, was[k], nrs[k]);
    }
    forall nr | nr in c.table.view && nr != c.curDir.nr ensures nr in NrsOf(s) {
      var k :| 0 <= k < |nrs| && nrs[k] == nr;
      assert OpenAt(c.table.view, c.curDir, c.sb, was[k], nrs[k]) && was[k] in multiset(was);
      assert was[k] in multiset(s) && was[k] in s;
      var i :| 0 <= i < |s| && s[i] == was[k];
      assert NrsOf(s)[i] == nr;
    }
  }

  /** Puts the first inode back. */
  method CloseOne(c: Context, in_: Inode, ghost all: seq<Inode>, ghost nrs: seq<nat>)
    requires c.Consistent() && Open(c, all, nrs) && Once(c, all) && all != [] && in_ == all[0] && !in_.dirty
    modifies c.table, in_`count
    ensures c.Consistent() && c.W() == old(c.W()) && Open(c, all[1..], nrs[1..]) && Once(c, all[1..])
  {
    hide SuperBlock.Vol, SuperBlock.Valid, SuperBlock.InodesUsed, InodeTable.Valid, DiskInode;
    hide Context.Struct, Context.CachedLive, Context.MapsSaved, Context.W, Context.CacheOk, BlocksConsistent;
    hide Context.Current;
    hide OpenIn;
    OpenIs(c.table.view, c.curDir, c.sb, all, nrs);
    OpenLess(c.table.view, c.curDir, c.sb, all, nrs);
    OpenIs(c.table.view - {nrs[0]}, c.curDir, c.sb, all[1..], nrs[1..]);
    var clean := c.PutInode(in_);
    forall i | 0 <= i < |all| - 1 ensures all[1..][i] != in_ {
      assert nrs[1..][i] in c.table.view;
    }
  }

  lemma OpenNoMore(c: Context)
    requires Open(c, [], []) && Once(c, [])
    ensures c.table.view == map[c.curDir.nr := c.curDir] && c.curDir.count == 1
  {
  }

  /** Puts all inodes back, which are clean. */
  method CloseAll(c: Context, a: array<Inode>)
    requires c.Consistent() && Open(c, a[..], NrsOf(a[..])) && Once(c, a[..]) && forall i :: 0 <= i < a.Length ==>
      !a[i].dirty
    modifies c.table, SetOf(a[..])`count
    ensures c.Consistent() && c.W() == old(c.W()) && c.table.view == map[c.curDir.nr := c.curDir] && c.curDir.count == 1
  {
    hide SuperBlock.Vol, SuperBlock.Valid, SuperBlock.InodesUsed, InodeTable.Valid, DiskInode;
    hide Context.Struct, Context.CachedLive, Context.MapsSaved, Context.W, Context.CacheOk, BlocksConsistent;
    hide Context.Current, Open;
    ghost var all, nrs := a[..], NrsOf(a[..]);
    var i := 0;
    while i < a.Length
      invariant 0 <= i <= a.Length && c.Consistent() && c.W() == old(c.W()) && a[..] == all
      invariant Open(c, all[i..], nrs[i..]) && Once(c, all[i..]) && forall j :: 0 <= j < a.Length ==> !a[j].dirty
    {
      MayClean(all, i);
      CloseOne(c, a[i], all[i..], nrs[i..]);
      assert all[i + 1..] == all[i..][1..] && nrs[i + 1..] == nrs[i..][1..];
      i := i + 1;
    }
    OpenNoMore(c);
  }

  /** Overwriting plain files does not touch the tree. */
  lemma {:induction false} AllWrittenTree(files: Files, sh: Shape, nrs: seq<nat>, buf: seq<byte>)
    requires TreeOk(files, sh) && forall i :: 0 <= i < |nrs| ==> IsTarget(files, nrs[i])
    ensures TreeOk(AllWritten(files, nrs, buf), sh)
    ensures forall nr :: IsDir(files, nr) ==> IsDir(AllWritten(files, nrs, buf), nr)
    ensures forall nr :: IsTarget(files, nr) ==> IsTarget(AllWritten(files, nrs, buf), nr)
  {
    hide TreeOk, Overlay;
    if nrs != [] {
      var n := |nrs| - 1;
      AllWrittenTree(files, sh, nrs[..n], buf);
      var files1 := AllWritten(files, nrs[..n], buf);
      assert IsTarget(files, nrs[n]);
      assert IsTarget(files1, nrs[n]);
      if LastBlock(0, |buf|) < NR_MAPPED {
        WriteOk(files1, sh, nrs[n], Overlay(files1[nrs[n]].bytes, 0, buf));
      }
    }
  }

  // The two sequences

  /** All writes, from world `w` on. */
  function AllWrites(w: World, csumDirty: seq<bool>, nrs: seq<nat>, content: seq<byte>): (Batch, bool)
    requires |csumDirty| == CSUM_TABLE_SIZE && forall i :: 0 <= i < |nrs| ==> nrs[i] < NR_INODES
  {
    WriteFirst(StartBatch(w, csumDirty, nrs), |nrs|, content)
  }

  /**
   * What both sequences leave when there were blocks enough: exactly this volume and these dinodes, hence all
   * files overlaid with the content; freemap and checksum table are saved.
   */
  ghost predicate Benched(w: World, csumDirty: seq<bool>, nrs: seq<nat>, content: seq<byte>, w': World) {
    && |csumDirty| == CSUM_TABLE_SIZE && PlainFiles(w, nrs) && BlocksConsistent(w) && BlocksConsistent(w')
    && AllWrites(w, csumDirty, nrs, content).1
    && SavedWorld(w, AllWrites(w, csumDirty, nrs, content).0, w')
    && FilesOf(w') == AllWritten(FilesOf(w), nrs, content)
    && TableSaved(w'.vol.disk, w'.vol.csum) && FreemapSaved(w'.vol.disk, w'.vol.used)
  }

  /** The two sequences therefore end in the same world. */
  lemma BenchedSame(w: World, csumDirty: seq<bool>, nrs: seq<nat>, content: seq<byte>, w1: World, w2: World)
    requires Benched(w, csumDirty, nrs, content, w1) && Benched(w, csumDirty, nrs, content, w2)
    ensures w1 == w2
  {
    hide BlocksConsistent, FilesOf, WriteFirst, Committed, DInodeOf, TableSaved, FreemapSaved;
    assert w1.inodes == w2.inodes;
  }

  lemma Started(c: Context, all: seq<Inode>, nrs: seq<nat>, w: World)
    requires c.Consistent() && c.W() == w && Open(c, all, nrs) && Once(c, all) && PlainFiles(w, nrs)
    requires AllAsRead(all, w)
    ensures Tabled(all) && Ours(c.sb, all) && (forall i :: 0 <= i < |nrs| ==> nrs[i] < NR_INODES)
    ensures BatchOf(c.sb, all) == StartBatch(w, c.sb.csumDirty, nrs) && BatchOk(w, BatchOf(c.sb, all))
    ensures VWorld(w, BatchOf(c.sb, all)) == w
    ensures Unchanged(c.curDir, w) && c.curDir.sb == c.sb && RestOnDevice(w, c.table.view) && w.live[c.curDir.nr]
  {
    hide SuperBlock.Valid, BlocksConsistent, ItemsOf, DecodeDInode, Settled, BatchOk, VWorld, Sound, InodeTable.Valid;
    forall i | 0 <= i < |all| ensures OpenAt(c.table.view, c.curDir, c.sb, all[i], nrs[i]) && IsPlain(w, nrs[i]) {
    }
    AllItems(all);
    TableLengths(c.sb);
    StartOk(w, c.sb.csumDirty, nrs);
    assert ItemsOf(all) == StartBatch(w, c.sb.csumDirty, nrs).items;
    assert c.CacheOk(c.curDir.nr);
    assert w.inodes[c.curDir.nr] == c.curDir.din;
  }

  /** The numbers of the names, when they are plain files. */
  ghost function Nrs(files: Files, cur: nat, names: seq<seq<byte>>): (nrs: seq<nat>)
    requires cur in files && Targets(files, cur, names)
    ensures |nrs| == |names| && forall i :: 0 <= i < |nrs| ==> IsTarget(files, nrs[i])
  {
    var nrs := Numbers(files, cur, names);
    assert forall i :: 0 <= i < |names| ==> IsTarget(files, NrOf(Entries(files, cur), names[i]));
    nrs
  }

  /** After the commit: all is consistent, and the inodes are put back. */
  method Finish(c: Context, a: array<Inode>, ghost all: seq<Inode>, ghost nrs: seq<nat>, ghost w: World, ghost s: Batch)
    requires c.sb.Valid() && c.sb.Idle() && c.table.Valid() && c.curDir.sb == c.sb && Open(c, all, nrs) && Once(c, all)
    requires BatchOk(w, s) && FixedKept(w.vol.disk, s.v.disk) && |all| == |s.items| && multiset(all) == multiset(a[..])
    requires c.sb.Vol() == Committed(s) && c.sb.csumDirty == seq(CSUM_TABLE_SIZE, _ => false)
    requires c.sb.InodesUsed() == w.live
    requires forall i :: 0 <= i < |all| ==> SavedItem(all[i], s, i)
    requires Unchanged(c.curDir, w) && RestOnDevice(w, c.table.view) && c.curDir.nr < NR_INODES && w.live[c.curDir.nr]
    requires TreeOk(FilesOf(VWorld(w, s)), c.shape) && IsDir(FilesOf(VWorld(w, s)), c.curDir.nr)
    modifies c.table, SetOf(a[..])`count
    ensures c.Valid() && SavedWorld(w, s, c.W()) && FilesOf(c.W()) == FilesOf(VWorld(w, s))
    ensures TableSaved(c.W().vol.disk, c.W().vol.csum) && FreemapSaved(c.W().vol.disk, c.W().vol.used)
  {
    hide SuperBlock.Vol, SuperBlock.Valid, SuperBlock.InodesUsed, InodeTable.Valid, DiskInode, Committed, SavedWorld;
    hide Context.Struct, Context.CachedLive, Context.MapsSaved, Context.W, Context.CacheOk, BlocksConsistent;
    hide Context.Current, Open, FilesOf;
    hide TableSaved, FreemapSaved, BatchOk, VWorld, TreeOk, FixedKept, Unchanged, RestOnDevice;
    CommittedContext(c, all, nrs, w, s);
    StillOpen(c, all, nrs, a[..]);
    forall i | 0 <= i < a.Length ensures !a[i].dirty {
      assert a[..][i] in multiset(a[..]);
      assert a[i] in all;
      var k :| 0 <= k < |all| && all[k] == a[i];
      assert SavedItem(all[k], s, k);
    }
    CloseAll(c, a);
  }

  /** How the sequences end, and where. */
  ghost predicate BenchOutcome(w: World, csumDirty: seq<bool>, cur: nat, names: seq<seq<byte>>, content: seq<byte>,
      ok: bool, w': World) {
    && BlocksConsistent(w) && cur in FilesOf(w) && Targets(FilesOf(w), cur, names) && |csumDirty| == CSUM_TABLE_SIZE
    && var nrs := Nrs(FilesOf(w), cur, names);
       PlainFiles(w, nrs) && ok == AllWrites(w, csumDirty, nrs, content).1
         && (ok ==> Benched(w, csumDirty, nrs, content, w'))
  }

  /** After the writes: the batch is in order, and its files form the same tree. */
  lemma AllDone(w: World, csumDirty: seq<bool>, nrs: seq<nat>, content: seq<byte>, sh: Shape, cur: nat)
    requires BlocksConsistent(w) && PlainFiles(w, nrs) && |csumDirty| == CSUM_TABLE_SIZE
    requires CsumClean(w.vol.disk, w.vol.csum, csumDirty)
    requires TreeOk(FilesOf(w), sh) && IsDir(FilesOf(w), cur) && AllWrites(w, csumDirty, nrs, content).1
    ensures var s := AllWrites(w, csumDirty, nrs, content).0;
            && BatchOk(w, s) && FixedKept(w.vol.disk, s.v.disk) && |s.items| == |nrs|
            && FilesOf(VWorld(w, s)) == AllWritten(FilesOf(w), nrs, content)
            && TreeOk(FilesOf(VWorld(w, s)), sh) && IsDir(FilesOf(VWorld(w, s)), cur)
  {
    hide BlocksConsistent, BatchOk, VWorld, TreeOk, Contents, WriteFirst, AllWritten, CsumClean;
    StartOk(w, csumDirty, nrs);
    WriteFirstOk(w, StartBatch(w, csumDirty, nrs), |nrs|, content);
    forall i | 0 <= i < |nrs| ensures IsTarget(FilesOf(w), nrs[i]) {
      assert IsPlain(w, nrs[i]);
    }
    AllWrittenTree(FilesOf(w), sh, nrs, content);
  }

  /** The inodes are as the batch says when they were saved. */
  lemma ItemsSaved(all: seq<Inode>, s: Batch, items: seq<Item>)
    requires items == s.items && |all| == |items|
    requires forall i :: 0 <= i < |all| ==>
      all[i].nr == items[i].nr && all[i].din == items[i].d && |all[i].indirect| == 128
    requires forall i :: 0 <= i < |all| ==> !all[i].dirty && !all[i].indirectDirty
    ensures forall i :: 0 <= i < |all| ==> SavedItem(all[i], s, i)
  {
  }

  /** Around the inodes being written: only they have changed since world `w`. */
  ghost predicate Around(c: Context, all: seq<Inode>, nrs: seq<nat>, w: World)
    reads c, c.table, c.curDir, c.sb, c.sb.dev, c.sb.inodeFreemap.v, c.sb.blockFreemap.v, all
  {
    && c.sb.Valid() && c.table.Valid() && c.curDir.sb == c.sb && Open(c, all, nrs) && Once(c, all) && Ours(c.sb, all)
         && Tabled(all)
    && Unchanged(c.curDir, w) && RestOnDevice(w, c.table.view) && w.live[c.curDir.nr] && c.sb.InodesUsed() == w.live
  }

  /** The inodes are those of world `w`, not changed yet. */
  ghost predicate StartsAs(sb: SuperBlock, all: seq<Inode>, nrs: seq<nat>, w: World)
    reads sb, sb.dev, sb.inodeFreemap.v, sb.blockFreemap.v, all
  {
    && sb.Valid() && Tabled(all) && |sb.csumDirty| == CSUM_TABLE_SIZE && PlainFiles(w, nrs)
         && (forall i :: 0 <= i < |nrs| ==> nrs[i] < NR_INODES)
    && BatchOf(sb, all) == StartBatch(w, sb.csumDirty, nrs) && BatchOk(w, BatchOf(sb, all))
  }

  /** The inodes were all read, and nothing else happened. */
  method Prepare(c: Context, names: seq<seq<byte>>, ghost nrs: seq<nat>) returns (a: array<Inode>)
    requires c.Valid() && Targets(c.Files(), c.curDir.nr, names) && nrs == Nrs(c.Files(), c.curDir.nr, names)
    modifies c.table, c.table.view.Values`count, c.sb.dev
    ensures fresh(a) && forall x :: x in a[..] ==> fresh(x)
    ensures Primed(c, a[..], nrs, old(c.W())) && c.sb.csumDirty == old(c.sb.csumDirty)
  {
    hide SuperBlock.Vol, SuperBlock.Valid, SuperBlock.InodesUsed, InodeTable.Valid, DiskInode, CsumClean, ItemsOf;
    hide Context.CachedLive, Context.MapsSaved, Context.W, Context.CacheOk, BlocksConsistent, Context.Current;
    hide Open, FilesOf;
    hide BatchOk, VWorld, TreeOk, Targets, PlainFiles, Unchanged, RestOnDevice, StartBatch;
    ghost var w := c.W();
    NumbersPlain(w, c.shape, c.curDir.nr, names);
    TableIsClean(c);
    a := OpenAll(c, names);
    Started(c, a[..], nrs, w);
    c.LiveIs();
  }

  lemma CurApart(c: Context, all: seq<Inode>, nrs: seq<nat>)
    requires Open(c, all, nrs)
    ensures c.curDir !in SetOf(all) && |all| == |nrs|
  {
    OpenIs(c.table.view, c.curDir, c.sb, all, nrs);
  }

  /** All writes, with the rest of the context around them. */
  method WriteStage(c: Context, a: array<Inode>, content: seq<byte>, ghost nrs: seq<nat>, ghost w: World)
    returns (ok: bool)
    requires Around(c, a[..], nrs, w) && c.sb.Idle() && StartsAs(c.sb, a[..], nrs, w)
    modifies SetOf(a[..])`din, SetOf(a[..])`dirty, SetOf(a[..])`indirect, SetOf(a[..])`indirectLoaded,
      SetOf(a[..])`indirectDirty
    modifies c.sb`csumTable, c.sb`csumDirty, c.sb.dev, c.sb.blockFreemap.v
    ensures c.sb.Valid() && |old(c.sb.csumDirty)| == CSUM_TABLE_SIZE
      && (forall i :: 0 <= i < |nrs| ==> nrs[i] < NR_INODES)
    ensures ok == AllWrites(w, old(c.sb.csumDirty), nrs, content).1
    ensures ok ==>
      Around(c, a[..], nrs, w) && c.sb.Idle()
        && BatchOf(c.sb, a[..]) == AllWrites(w, old(c.sb.csumDirty), nrs, content).0
  {
    hide SuperBlock.Vol, SuperBlock.Valid, ItemsOf, BatchOk, WriteFirst, PlainFiles, StartBatch, DiskInode;
    hide InodeTable.Valid, RestOnDevice, BatchOf, Open, Ours;
    ghost var all := a[..];
    CurApart(c, all, nrs);
    FreemapsDiffer(c.sb);
    ok := WriteAll(c.sb, a, content, w);
    assert Once(c, all) && Unchanged(c.curDir, w);
  }

  /** Commits and puts the inodes back. */
  method Conclude(c: Context, a: array<Inode>, ghost nrs: seq<nat>, ghost w: World, ghost s: Batch)
    requires Around(c, a[..], nrs, w) && c.sb.Idle() && BatchOf(c.sb, a[..]) == s
    requires BatchOk(w, s) && FixedKept(w.vol.disk, s.v.disk)
    requires TreeOk(FilesOf(VWorld(w, s)), c.shape) && IsDir(FilesOf(VWorld(w, s)), c.curDir.nr)
    modifies a, SetOf(a[..])`dirty, SetOf(a[..])`indirectDirty, SetOf(a[..])`count, c.table, c.sb`csumDirty, c.sb.dev
    ensures c.Valid() && c.sb.csumDirty == seq(CSUM_TABLE_SIZE, _ => false)
    ensures SavedWorld(w, s, c.W()) && FilesOf(c.W()) == FilesOf(VWorld(w, s))
    ensures TableSaved(c.W().vol.disk, c.W().vol.csum) && FreemapSaved(c.W().vol.disk, c.W().vol.used)
  {
    hide SuperBlock.Vol, SuperBlock.Valid, InodeTable.Valid, DiskInode, Committed, SavedWorld, ItemsOf;
    hide Context.Struct, Context.CachedLive, Context.MapsSaved, Context.W, Context.CacheOk, BlocksConsistent;
    hide Context.Current, FilesOf;
    hide TableSaved, FreemapSaved, BatchOk, VWorld, TreeOk, FixedKept, RestOnDevice, Open, Ours;
    ghost var all := a[..];
    AllItems(all);
    StepFacts(w, s);
    CurApart(c, all, nrs);
    Commit(c.sb, a);
    SameMembers(all, a[..]);
    ItemsSaved(all, s, s.items);
    assert Once(c, all) && Unchanged(c.curDir, w);
    Finish(c, a, all, nrs, w, s);
  }

  /** Writes the content to all files through the synchronous path and saves them. */
  method BenchmarkSyncWrites(c: Context, names: seq<seq<byte>>, content: seq<byte>) returns (ok: bool)
    requires c.Valid() && Targets(c.Files(), c.curDir.nr, names)
    modifies c.curDir`count, c.table, c.sb`csumTable, c.sb`csumDirty, c.sb.dev, c.sb.blockFreemap.v
    ensures c.sb.Valid() && (ok ==> c.Valid() && c.sb.csumDirty == seq(CSUM_TABLE_SIZE, _ => false))
    ensures BenchOutcome(old(c.W()), old(c.sb.csumDirty), c.curDir.nr, names, content, ok, c.W())
  {
    hide SuperBlock.Vol, SuperBlock.Valid, InodeTable.Valid, DiskInode, Committed, SavedWorld, CsumClean, ItemsOf;
    hide Context.Struct, Context.CachedLive, Context.MapsSaved, Context.W, Context.CacheOk, BlocksConsistent;
    hide Context.Current, FilesOf;
    hide TableSaved, FreemapSaved, BatchOk, VWorld, TreeOk, FixedKept, RestOnDevice, WriteFirst, Targets;
    hide PlainFiles, AllWrites, StartBatch;
    ghost var w := c.W();
    TableIsClean(c);
    ghost var nrs := Nrs(c.Files(), c.curDir.nr, names);
    var a := Prepare(c, names, nrs);
    ok := RunSync(c, a, content, nrs, w);
  }

  /** All is ready for the writes, and the files are a tree. */
  ghost predicate Primed(c: Context, all: seq<Inode>, nrs: seq<nat>, w: World)
    reads c, c.table, c.curDir, c.sb, c.sb.dev, c.sb.inodeFreemap.v, c.sb.blockFreemap.v, all
  {
    && Around(c, all, nrs, w) && c.sb.Idle() && StartsAs(c.sb, all, nrs, w) && BlocksConsistent(w)
    && TreeOk(FilesOf(w), c.shape) && IsDir(FilesOf(w), c.curDir.nr)
    && CsumClean(w.vol.disk, w.vol.csum, c.sb.csumDirty)
  }

  method RunSync(c: Context, a: array<Inode>, content: seq<byte>, ghost nrs: seq<nat>, ghost w: World)
    returns (ok: bool)
    requires Primed(c, a[..], nrs, w)
    modifies a, SetOf(a[..]), c.table, c.sb`csumTable, c.sb`csumDirty, c.sb.dev, c.sb.blockFreemap.v
    ensures c.sb.Valid() && (ok ==> c.Valid() && c.sb.csumDirty == seq(CSUM_TABLE_SIZE, _ => false))
    ensures RunOutcome(w, old(c.sb.csumDirty), nrs, content, ok, c.W())
  {
    hide SuperBlock.Vol, SuperBlock.Valid, InodeTable.Valid, Committed, SavedWorld, CsumClean, ItemsOf, Context.W;
    hide BlocksConsistent, FilesOf;
    hide TableSaved, FreemapSaved, BatchOk, VWorld, TreeOk, FixedKept, RestOnDevice, WriteFirst, PlainFiles;
    hide AllWrites, StartBatch, Context.InTree, Around, BatchOf;
    ghost var dirty := c.sb.csumDirty;
    PrimedRun(c, a[..], nrs, w, content);
    ok := WriteStage(c, a, content, nrs, w);
    if ok {
      Conclude(c, a, nrs, w, AllWrites(w, dirty, nrs, content).0);
    }
  }

  /** How the writes end, and where. */
  ghost predicate RunOutcome(w: World, csumDirty: seq<bool>, nrs: seq<nat>, content: seq<byte>, ok: bool, w': World) {
    && |csumDirty| == CSUM_TABLE_SIZE && PlainFiles(w, nrs)
    && ok == AllWrites(w, csumDirty, nrs, content).1 && (ok ==> Benched(w, csumDirty, nrs, content, w'))
  }

  lemma PrimedRun(c: Context, all: seq<Inode>, nrs: seq<nat>, w: World, content: seq<byte>)
    requires Primed(c, all, nrs, w)
    ensures |c.sb.csumDirty| == CSUM_TABLE_SIZE && PlainFiles(w, nrs)
      && (forall i :: 0 <= i < |nrs| ==> nrs[i] < NR_INODES)
    ensures var (s, ok) := AllWrites(w, c.sb.csumDirty, nrs, content);
            ok ==> BatchOk(w, s) && FixedKept(w.vol.disk, s.v.disk) && |s.items| == |nrs| && Wf(ToSave(s))
                   && FilesOf(VWorld(w, s)) == AllWritten(FilesOf(w), nrs, content)
                   && TreeOk(FilesOf(VWorld(w, s)), c.shape) && IsDir(FilesOf(VWorld(w, s)), c.curDir.nr)
  {
    hide BatchOk, VWorld, TreeOk, FixedKept, BlocksConsistent, FilesOf, Around, BatchOf, CsumClean, AllWritten;
    hide AllWrites, PlainFiles, StartBatch, SuperBlock.Valid;
    RunIs(w, c.sb.csumDirty, nrs, content);
    if AllWrites(w, c.sb.csumDirty, nrs, content).1 {
      AllDone(w, c.sb.csumDirty, nrs, content, c.shape, c.curDir.nr);
      StepFacts(w, AllWrites(w, c.sb.csumDirty, nrs, content).0);
    }
  }

  lemma RunIs(w: World, csumDirty: seq<bool>, nrs: seq<nat>, content: seq<byte>)
    requires |csumDirty| == CSUM_TABLE_SIZE && PlainFiles(w, nrs)
    ensures forall i :: 0 <= i < |nrs| ==> nrs[i] < NR_INODES
    ensures AllWrites(w, csumDirty, nrs, content) == WriteFirst(StartBatch(w, csumDirty, nrs), |nrs|, content)
  {
  }

  lemma TableIsClean(c: Context)
    requires c.Valid()
    ensures |c.sb.csumDirty| == CSUM_TABLE_SIZE && CsumClean(c.W().vol.disk, c.W().vol.csum, c.sb.csumDirty)
    ensures IsDir(c.Files(), c.curDir.nr)
  {
    hide BlocksConsistent, TreeOk, CsumClean;
  }
}
