/** Paths as they are printed, and what can be told from them. */
module Paths {
  import opened Bytes
  import opened Layout
  import opened World
  import opened Dirents
  import opened Tree
  import opened Commands

  const SLASH: byte := 47

  /** Where the part behind the last slash starts. */
  function PartStart(text: seq<byte>): (k: nat)
    ensures k <= |text| && (forall i :: k <= i < |text| ==> text[i] != SLASH) && (k > 0 ==> text[k - 1] == SLASH)
  {
    if text == [] || text[|text| - 1] == SLASH then |text| else PartStart(text[..|text| - 1])
  }

  /** The names between the slashes of a text, each with its terminator. */
  function Split(text: seq<byte>): seq<seq<byte>>
    decreases |text|
  {
    if text == [] then []
    else
      var k := PartStart(text);
      if k == |text| then Split(text[..k - 1]) else Split(text[..k]) + [text[k..] + [0]]
  }

  /** A name that a path can hold: it is not empty, and has no slash. */
  predicate IsPlain(name: seq<byte>) {
    |name| > 1 && SLASH !in name
  }

  predicate AreNames(names: seq<seq<byte>>) {
    forall i :: 0 <= i < |names| ==> names[i] != [] && IsName(names[i])
  }

  lemma {:induction false} PartsArePlain(text: seq<byte>)
    ensures forall i :: 0 <= i < |Split(text)| ==> IsPlain(Split(text)[i])
    decreases |text|
  {
    if text != [] {
      var k := PartStart(text);
      PartsArePlain(text[..if k == |text| then k - 1 else k]);
    }
  }

  lemma PartBehind(text: seq<byte>, part: seq<byte>)
    requires part != [] && SLASH !in part
    ensures Split(text + [SLASH] + part) == Split(text) + [part + [0]]
  {
    var all := text + [SLASH] + part;
    var k := PartStart(all);
    assert all[|text|] == SLASH;
    forall i | |text| < i < |all| ensures all[i] != SLASH {
      assert all[i] == part[i - |text| - 1];
    }
    assert all[..k] == text + [SLASH] && all[k..] == part;
    assert (text + [SLASH])[..|text|] == text;
    assert PartStart(text + [SLASH]) == |text| + 1;
  }

  /** The text of a path tells its names exactly when all of them are plain. */
  lemma {:induction false} SplitPathText(names: seq<seq<byte>>)
    requires AreNames(names)
    ensures Split(PathText(names)) == names <==> forall i :: 0 <= i < |names| ==> IsPlain(names[i])
  {
    PartsArePlain(PathText(names));
    if forall i :: 0 <= i < |names| ==> IsPlain(names[i]) {
      PlainNamesBack(names);
    }
  }

  lemma {:induction false} PlainNamesBack(names: seq<seq<byte>>)
    requires AreNames(names) && forall i :: 0 <= i < |names| ==> IsPlain(names[i])
    ensures Split(PathText(names)) == names
  {
    hide Split, PathText;
    SplitRoot();
    TextStep(names);
    if names != [] {
      var n := |names| - 1;
      var part := names[n][..|names[n]| - 1];
      PlainNamesBack(names[..n]);
      assert part + [0] == names[n] && names == names[..n] + [names[n]];
      PartBehind(if n == 0 then [] else PathText(names[..n]), part);
      assert n == 0 ==> names[..n] == [];
    }
  }

  lemma TextStep(names: seq<seq<byte>>)
    requires AreNames(names)
    ensures names == [] ==> PathText(names) == [SLASH]
    ensures names != [] ==>
      var n := |names| - 1;
      PathText(names) == (if n == 0 then [] else PathText(names[..n])) + [SLASH] + names[n][..|names[n]| - 1]
  {
  }

  lemma SplitRoot()
    ensures Split([SLASH]) == [] && Split([]) == []
  {
    assert [SLASH][..0] == [];
  }

  /** Paths are made of names. */
  lemma {:induction false} NamesOnPath(files: Files, sh: Shape, x: nat)
    requires TreeOk(files, sh) && x in files
    ensures NodeOk(files, sh, x) && AreNames(PathOf(files, sh, x))
    decreases if x in sh.depth then sh.depth[x] else 0
  {
    hide Parse, FindNr, NrOf, Log, LogOk, IsLog, IsName, PathOf, PathText;
    assert NodeOk(files, sh, x);
    PathStep(files, sh, x);
    if x != 0 {
      var p := sh.parent[x];
      RecordNamed(files, sh, p);
      NamesOnPath(files, sh, p);
    }
  }

  lemma RecordNamed(files: Files, sh: Shape, d: nat)
    requires NodeOk(files, sh, d) && IsDir(files, d)
    ensures forall k :: 0 <= k < |Entries(files, d)| ==> IsName(Entries(files, d)[k].name)
  {
    hide Parse, Log, LogOk;
  }

  // New names

  /** A new child's path is that of its directory and its name, and all other paths are as they were. */
  lemma PathOfNew(files: Files, sh: Shape, d: nat, name: seq<byte>, c: nat, node: Node)
    requires TreeOk(files, sh) && IsDir(files, d) && NodeOk(files, sh, d)
    requires c !in files && c < 0x8000_0000 && d < 0x8000_0000 && IsName(name)
    requires NrOf(Entries(files, d), name) < 0
    requires node == Node(I_FILE, []) || node == Node(I_DIR, Log(EmptyDir(c, d)))
    ensures TreeOk(Created(files, d, name, c, node), ShapeWith(sh, d, c))
    ensures PathOf(Created(files, d, name, c, node), ShapeWith(sh, d, c), c) == PathOf(files, sh, d) + [name]
    ensures forall x: nat :: x in files ==>
      PathOf(Created(files, d, name, c, node), ShapeWith(sh, d, c), x) == PathOf(files, sh, x)
  {
    hide Parse, Log, FindFrom, AddFrom, NamesOf, NodeOk, LogOk, UniqueNames, NrOf, Added, FindNr, PathOf;
    CreateOk(files, sh, d, name, c, node);
    DirLog(files, sh, d);
    forall x: nat | x in files
      ensures PathOf(Created(files, d, name, c, node), ShapeWith(sh, d, c), x) == PathOf(files, sh, x)
    {
      PathKept(files, sh, d, name, c, node, x);
    }
    NewPath(files, sh, d, name, c, node);
  }

  lemma NewPath(files: Files, sh: Shape, d: nat, name: seq<byte>, c: nat, node: Node)
    requires NodeOk(files, sh, d) && IsDir(files, d) && c !in files && c < 0x8000_0000 && IsName(name)
    requires NrOf(Entries(files, d), name) < 0 && TreeOk(Created(files, d, name, c, node), ShapeWith(sh, d, c)) && c > 0
    ensures var files', sh' := Created(files, d, name, c, node), ShapeWith(sh, d, c);
            PathOf(files', sh', c) == PathOf(files', sh', d) + [name]
  {
    hide Parse, Log, FindFrom, AddFrom, NamesOf, UniqueNames, NrOf, Added, FindNr;
    var files', sh' := Created(files, d, name, c, node), ShapeWith(sh, d, c);
    var ds, k := Entries(files, d), AddFrom(Entries(files, d), name, 0);
    AddedWf(ds, name, c);
    ParseLog(Added(ds, name, c));
    AddedChild(ds, name, c);
    NamedOnce(files', sh', c, d, k);
  }

  lemma {:induction false} PathKept(files: Files, sh: Shape, d: nat, name: seq<byte>, c: nat, node: Node, x: nat)
    requires TreeOk(files, sh) && IsDir(files, d) && NodeOk(files, sh, d) && x in files
    requires c !in files && c < 0x8000_0000 && IsName(name) && NrOf(Entries(files, d), name) < 0
    requires TreeOk(Created(files, d, name, c, node), ShapeWith(sh, d, c))
    ensures PathOf(Created(files, d, name, c, node), ShapeWith(sh, d, c), x) == PathOf(files, sh, x)
    decreases if x in sh.depth then sh.depth[x] else 0
  {
    hide Parse, Log, FindFrom, AddFrom, NamesOf, UniqueNames, NrOf, Added, FindNr, LogOk, PathOf, PathText, TreeOk;
    hide Created;
    var files', sh' := Created(files, d, name, c, node), ShapeWith(sh, d, c);
    KeptFacts(files, sh, d, name, c, node, x);
    PathStep(files, sh, x);
    PathStep(files', sh', x);
    if x != 0 {
      var p := sh.parent[x];
      PathKept(files, sh, d, name, c, node, p);
      NamedFirst(files, sh, x);
      var k := FindNr(Entries(files, p), x, 0);
      ChildKept(files, sh, d, name, c, node, p, k);
      NamedOnce(files', sh', x, p, k);
    }
  }

  lemma KeptFacts(files: Files, sh: Shape, d: nat, name: seq<byte>, c: nat, node: Node, x: nat)
    requires TreeOk(files, sh) && IsDir(files, d) && NodeOk(files, sh, d) && x in files
    requires c !in files && c < 0x8000_0000 && IsName(name) && NrOf(Entries(files, d), name) < 0
    ensures NodeOk(files, sh, x) && IsLog(files[d].bytes) && x in Created(files, d, name, c, node) && c > 0
    ensures ShapeWith(sh, d, c).parent[x] == sh.parent[x] && sh.parent[x] in files
    ensures x != 0 ==> sh.depth[sh.parent[x]] < sh.depth[x] && IsDir(files, sh.parent[x])
  {
    hide Parse, Log, FindFrom, AddFrom, NamesOf, UniqueNames, NrOf, Added, LogOk;
    assert NodeOk(files, sh, x);
    assert NodeOk(files, sh, 0);
  }

  /** The record of a child is where it was. */
  lemma ChildKept(files: Files, sh: Shape, d: nat, name: seq<byte>, c: nat, node: Node, p: nat, k: nat)
    requires NodeOk(files, sh, d) && IsDir(files, d) && IsDir(files, p) && IsChildAt(Entries(files, p), k)
    requires c !in files && 0 < c < 0x8000_0000 && IsName(name) && NrOf(Entries(files, d), name) < 0
    ensures IsDir(Created(files, d, name, c, node), p)
    ensures IsChildAt(Entries(Created(files, d, name, c, node), p), k)
    ensures Entries(Created(files, d, name, c, node), p)[k] == Entries(files, p)[k]
  {
    hide Parse, Log, FindFrom, AddFrom, NamesOf, UniqueNames, NrOf, Added, FindNr;
    var ds := Entries(files, d);
    AddedWf(ds, name, c);
    ParseLog(Added(ds, name, c));
    AddedChild(ds, name, c);
  }

  // Two directories with one path

  const A: seq<byte> := [97, 0]
  const B: seq<byte> := [98, 0]
  const A_SLASH_B: seq<byte> := [97, 47, 98, 0]

  /** A directory of live records without this name gets the new record at its end. */
  ghost predicate Fresh(ds: seq<Dirent>, name: seq<byte>) {
    forall i :: 0 <= i < |ds| ==> Live(ds[i]) && ds[i].name != name
  }

  lemma MakeDir(files: Files, sh: Shape, d: nat, ds: seq<Dirent>, name: seq<byte>, c: nat)
    returns (files': Files, sh': Shape)
    requires TreeOk(files, sh) && IsDir(files, d) && Entries(files, d) == ds && Fresh(ds, name)
    requires c !in files && c < 0x8000_0000 && d < 0x8000_0000 && IsName(name)
    ensures TreeOk(files', sh') && files'.Keys == files.Keys + {c} && IsDir(files', c)
    ensures Entries(files', d) == ds + [Dirent(name, c)] && Entries(files', c) == EmptyDir(c, d)
    ensures PathOf(files', sh', c) == PathOf(files, sh, d) + [name]
    ensures forall x: nat :: x in files ==> IsDir(files', x) == IsDir(files, x)
    ensures forall x: nat :: x in files ==> PathOf(files', sh', x) == PathOf(files, sh, x)
  {
    hide Parse, Log, NodeOk, LogOk, UniqueNames, FindNr, PathOf;
    var node := Node(I_DIR, Log(EmptyDir(c, d)));
    assert NodeOk(files, sh, d);
    DirLog(files, sh, d);
    assert AddFrom(ds, name, 0) == |ds| && FindFrom(ds, name, 0) == |ds|;
    PathOfNew(files, sh, d, name, c, node);
    files', sh' := Created(files, d, name, c, node), ShapeWith(sh, d, c);
    ParseLog(EmptyDir(c, d));
    AddedWf(ds, name, c);
    ParseLog(Added(ds, name, c));
  }

  /** The path of `x` as it is printed. */
  ghost predicate PrintsAs(files: Files, sh: Shape, x: nat, text: seq<byte>) {
    TreeOk(files, sh) && x in files && AreNames(PathOf(files, sh, x)) && PathText(PathOf(files, sh, x)) == text
  }

  /** `mkdir a/b`, `mkdir a`, and `mkdir b` in `a`: two directories with the same printed path. */
  lemma SamePath() returns (files: Files, sh: Shape, text: seq<byte>)
    ensures IsDir(files, 1) && PrintsAs(files, sh, 1, text)
    ensures IsDir(files, 3) && PrintsAs(files, sh, 3, text) && Resolve(files, 0, Split(text)) == 3
  {
    hide Parse, Log, Resolve, PathOf, FindNr, NodeOk, TreeOk, Split, PathText;
    files, sh := map[0 := Node(I_DIR, Log(EmptyDir(0, 0)))], ROOT_SHAPE;
    RootOk();
    RootPath(files, sh);
    ParseLog(EmptyDir(0, 0));
    files, sh := MakeDir(files, sh, 0, EmptyDir(0, 0), A_SLASH_B, 1);
    files, sh := MakeDir(files, sh, 0, EmptyDir(0, 0) + [Dirent(A_SLASH_B, 1)], A, 2);
    files, sh := MakeDir(files, sh, 2, EmptyDir(2, 0), B, 3);
    text := [47, 97, 47, 98];
    assert [A] + [B] == [A, B] && [] + [A_SLASH_B] == [A_SLASH_B] && [] + [A] == [A];
    OneText();
    PathRoundTrip(files, sh, 3);
  }

  lemma OneText()
    ensures AreNames([A_SLASH_B]) && PathText([A_SLASH_B]) == [47, 97, 47, 98]
    ensures AreNames([A, B]) && PathText([A, B]) == [47, 97, 47, 98] && Split([47, 97, 47, 98]) == [A, B]
  {
    hide Split;
    assert AreNames([A]) && PathText([A]) == [47, 97] && [A, B][..1] == [A];
    SplitPathText([A, B]);
  }

  lemma RootPath(files: Files, sh: Shape)
    requires TreeOk(files, sh)
    ensures 0 in files && PathOf(files, sh, 0) == []
  {
    hide Parse, FindNr;
    assert NodeOk(files, sh, 0);
  }
}
