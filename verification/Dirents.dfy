/** Directories as a log of variable-length records inside a file. */
module Dirents {
  import opened Bytes
  import opened Layout

  /** A record: the stored name with its terminator, and an inode number, negative for a tombstone. */
  datatype Dirent = Dirent(name: seq<byte>, nr: int32)

  /** A C string with its terminating zero, short enough for `d_name_len`. */
  predicate IsName(s: seq<byte>) {
    0 < |s| < 0x8000_0000 && s[|s| - 1] == 0 && forall i :: 0 <= i < |s| - 1 ==> s[i] != 0
  }

  const DOT: seq<byte> := [46, 0]
  const DOTDOT: seq<byte> := [46, 46, 0]

  predicate Live(e: Dirent) {
    e.nr >= 0
  }

  /** The bytes of one record. */
  function Ser(e: Dirent): (s: seq<byte>)
    requires |e.name| < 0x8000_0000
    ensures |s| == 8 + |e.name|
  {
    EncodeInt(|e.name|) + EncodeInt(e.nr) + e.name
  }

  predicate WfLog(ds: seq<Dirent>) {
    forall i :: 0 <= i < |ds| ==> IsName(ds[i].name)
  }

  function Log(ds: seq<Dirent>): (s: seq<byte>)
    requires WfLog(ds)
  {
    if ds == [] then [] else Ser(ds[0]) + Log(ds[1..])
  }

  /** Reads records from the front as long as they fit. */
  function Parse(s: seq<byte>): seq<Dirent> {
    if |s| < 8 then []
    else
      var len := DecodeInt(s[..4]);
      if len <= 0 || 8 + len > |s| then []
      else [Dirent(s[8..8 + len], DecodeInt(s[4..8]))] + Parse(s[8 + len..])
  }

  /** The bytes are a whole number of records. */
  predicate IsLog(s: seq<byte>) {
    WfLog(Parse(s)) && Log(Parse(s)) == s
  }

  lemma {:induction false} ParseLog(ds: seq<Dirent>)
    requires WfLog(ds)
    ensures Parse(Log(ds)) == ds && IsLog(Log(ds))
  {
    if ds != [] {
      hide EncodeInt, DecodeInt;
      var e, rest := ds[0], Log(ds[1..]);
      var s := Ser(e) + rest;
      DecodeEncodeInt(|e.name|);
      DecodeEncodeInt(e.nr);
      assert s[..4] == EncodeInt(|e.name|) && s[4..8] == EncodeInt(e.nr);
      assert s[8..8 + |e.name|] == e.name && s[8 + |e.name|..] == rest;
      ParseLog(ds[1..]);
    }
  }

  lemma {:induction false} LogConcat(a: seq<Dirent>, b: seq<Dirent>)
    requires WfLog(a) && WfLog(b)
    ensures WfLog(a + b) && Log(a + b) == Log(a) + Log(b)
  {
    hide Ser;
    if a == [] {
      assert a + b == b;
    } else {
      assert (a + b)[0] == a[0] && (a + b)[1..] == a[1..] + b;
      LogConcat(a[1..], b);
      Associative(Ser(a[0]), Log(a[1..]), Log(b));
    }
  }

  lemma Associative(x: seq<byte>, y: seq<byte>, z: seq<byte>)
    ensures x + (y + z) == x + y + z
  {
  }

  /** Where record `k` starts. */
  function Offset(ds: seq<Dirent>, k: nat): (r: nat)
    requires WfLog(ds) && k <= |ds|
    ensures r <= |Log(ds)|
  {
    LogConcat(ds[..k], ds[k..]);
    assert ds[..k] + ds[k..] == ds;
    |Log(ds[..k])|
  }

  /** The log around record `k`. */
  lemma SplitAt(ds: seq<Dirent>, k: nat)
    requires WfLog(ds) && k < |ds|
    ensures Log(ds) == Log(ds[..k]) + (Ser(ds[k]) + Log(ds[k + 1..]))
    ensures Offset(ds, k + 1) == Offset(ds, k) + 8 + |ds[k].name| <= |Log(ds)|
  {
    hide Ser;
    LogConcat(ds[..k], ds[k..]);
    assert ds[..k] + ds[k..] == ds;
    assert ds[k..][1..] == ds[k + 1..];
    LogConcat(ds[..k], ds[k..k + 1]);
    assert ds[..k] + ds[k..k + 1] == ds[..k + 1];
    assert Log(ds[k..k + 1]) == Ser(ds[k]) + Log([]);
  }

  lemma OffsetOfEnd(ds: seq<Dirent>)
    requires WfLog(ds)
    ensures Offset(ds, |ds|) == |Log(ds)| && Offset(ds, 0) == 0
  {
    assert ds[..|ds|] == ds;
  }

  /** The two reads that `testfs_next_dirent` makes at record `k` see that record. */
  lemma RecordAt(ds: seq<Dirent>, k: nat)
    requires WfLog(ds) && k < |ds|
    ensures var s, at := Log(ds), Offset(ds, k);
            && at + 8 + |ds[k].name| <= |s|
            && DecodeInt(s[at..at + 8][..4]) == |ds[k].name| && DecodeInt(s[at..at + 8][4..]) == ds[k].nr
            && s[at + 8..at + 8 + |ds[k].name|] == ds[k].name
  {
    hide EncodeInt, DecodeInt, Log, Ser;
    SplitAt(ds, k);
    var a, e, b := Log(ds[..k]), ds[k], Log(ds[k + 1..]);
    SerParts(e);
    MiddleSlice(a, Ser(e), b, 0, 8);
    MiddleSlice(a, Ser(e), b, 8, 8 + |e.name|);
    DecodeEncodeInt(|e.name|);
    DecodeEncodeInt(e.nr);
  }

  lemma SerParts(e: Dirent)
    requires |e.name| < 0x8000_0000
    ensures Ser(e)[0..8][..4] == EncodeInt(|e.name|) && Ser(e)[0..8][4..] == EncodeInt(e.nr)
    ensures Ser(e)[8..8 + |e.name|] == e.name
  {
    hide EncodeInt;
  }

  lemma MiddleSlice(a: seq<byte>, x: seq<byte>, b: seq<byte>, i: nat, j: nat)
    requires i <= j <= |x|
    ensures (a + (x + b))[|a| + i..|a| + j] == x[i..j]
  {
  }

  lemma OverlayMiddle(a: seq<byte>, x: seq<byte>, b: seq<byte>, y: seq<byte>)
    requires |x| == |y|
    ensures Overlay(a + (x + b), |a|, y) == a + (y + b)
  {
    assert (a + (x + b))[..|a|] == a && (a + (x + b))[|a| + |y|..] == b;
    if b == [] {
      assert y + b == y;
    } else {
      assert a + y + b == a + (y + b);
    }
  }

  /** Overwriting record `k` with one of the same length. */
  lemma OverlaySlot(ds: seq<Dirent>, k: nat, e: Dirent)
    requires WfLog(ds) && k < |ds| && IsName(e.name) && |e.name| == |ds[k].name|
    ensures WfLog(ds[k := e]) && Overlay(Log(ds), Offset(ds, k), Ser(e)) == Log(ds[k := e])
    ensures |Log(ds[k := e])| == |Log(ds)| && Offset(ds, k) + |Ser(e)| <= |Log(ds)|
  {
    hide Log, Ser, Overlay;
    SplitAt(ds, k);
    var new_ := ds[k := e];
    SplitAt(new_, k);
    assert new_[..k] == ds[..k] && new_[k + 1..] == ds[k + 1..];
    OverlayMiddle(Log(ds[..k]), Ser(ds[k]), Log(ds[k + 1..]), Ser(e));
  }

  /** Writing a record at the end. */
  lemma OverlayEnd(ds: seq<Dirent>, e: Dirent)
    requires WfLog(ds) && IsName(e.name)
    ensures WfLog(ds + [e]) && Overlay(Log(ds), |Log(ds)|, Ser(e)) == Log(ds + [e])
  {
    LogConcat(ds, [e]);
    assert Log([e]) == Ser(e) + Log([]);
    assert Log(ds)[..|Log(ds)|] == Log(ds);
  }

  // Names

  /** First index from `i` on whose record is live and has this name. */
  function FindFrom(ds: seq<Dirent>, name: seq<byte>, i: nat): (k: nat)
    requires i <= |ds|
    ensures i <= k <= |ds|
    ensures k < |ds| ==> Live(ds[k]) && ds[k].name == name
    ensures forall j :: i <= j < k ==> !(Live(ds[j]) && ds[j].name == name)
    decreases |ds| - i
  {
    if i == |ds| || (Live(ds[i]) && ds[i].name == name) then i else FindFrom(ds, name, i + 1)
  }

  /** What `testfs_dir_name_to_inode_nr` answers. */
  function NrOf(ds: seq<Dirent>, name: seq<byte>): (nr: int)
    ensures nr >= 0 || nr == -ENOENT
  {
    var k := FindFrom(ds, name, 0);
    if k < |ds| then ds[k].nr else -ENOENT
  }

  ghost predicate UniqueNames(ds: seq<Dirent>) {
    forall i, j :: 0 <= i < j < |ds| && Live(ds[i]) && Live(ds[j]) ==> ds[i].name != ds[j].name
  }

  /** The directory as a finite map from names to inode numbers. */
  ghost function NamesOf(ds: seq<Dirent>): map<seq<byte>, int> {
    map name | name in (set i | 0 <= i < |ds| && Live(ds[i]) :: ds[i].name) :: NrOf(ds, name)
  }

  /** Where `testfs_add_dirent` stops: a live record of that name, or a tombstone of the same length. */
  function AddFrom(ds: seq<Dirent>, name: seq<byte>, i: nat): (k: nat)
    requires i <= |ds|
    ensures i <= k <= |ds|
    ensures k < |ds| ==> if Live(ds[k]) then ds[k].name == name else |ds[k].name| == |name|
    ensures forall j :: i <= j < k ==> !(if Live(ds[j]) then ds[j].name == name else |ds[j].name| == |name|)
    decreases |ds| - i
  {
    if i == |ds| || (if Live(ds[i]) then ds[i].name == name else |ds[i].name| == |name|) then i
    else AddFrom(ds, name, i + 1)
  }

  /** The log after the record was added where `testfs_add_dirent` puts it. */
  function Added(ds: seq<Dirent>, name: seq<byte>, nr: int32): seq<Dirent> {
    var k := AddFrom(ds, name, 0);
    if k < |ds| then ds[k := Dirent(name, nr)] else ds + [Dirent(name, nr)]
  }

  lemma FindIs(ds: seq<Dirent>, name: seq<byte>, k: nat)
    requires UniqueNames(ds) && k < |ds| && Live(ds[k]) && ds[k].name == name
    ensures FindFrom(ds, name, 0) == k && NrOf(ds, name) == ds[k].nr
  {
  }

  lemma FindNone(ds: seq<Dirent>, name: seq<byte>)
    ensures NrOf(ds, name) < 0 <==> forall k :: 0 <= k < |ds| && Live(ds[k]) ==> ds[k].name != name
  {
  }

  lemma PutInserts(ds: seq<Dirent>, k: nat, es: seq<Dirent>, name: seq<byte>, nr: int32)
    requires UniqueNames(ds) && nr >= 0 && k < |es| && |ds| <= |es| && es[k] == Dirent(name, nr)
    requires forall i :: 0 <= i < |ds| && Live(ds[i]) ==> ds[i].name != name && i != k
    requires forall i :: 0 <= i < |es| && i != k ==> i < |ds| && es[i] == ds[i]
    ensures UniqueNames(es) && NamesOf(es) == NamesOf(ds)[name := nr]
  {
    FindIs(es, name, k);
    forall x | x in NamesOf(es) && x != name ensures x in NamesOf(ds) && NrOf(es, x) == NrOf(ds, x) {
      var i :| 0 <= i < |es| && Live(es[i]) && es[i].name == x;
      FindIs(es, x, i);
      FindIs(ds, x, i);
    }
    forall x | x in NamesOf(ds) ensures x in NamesOf(es) {
      var i :| 0 <= i < |ds| && Live(ds[i]) && ds[i].name == x;
      assert es[i] == ds[i];
    }
    assert name in NamesOf(es);
  }

  /** Adding a name that is not there is insertion into the map. */
  lemma AddInserts(ds: seq<Dirent>, name: seq<byte>, nr: int32)
    requires UniqueNames(ds) && name !in NamesOf(ds) && nr >= 0
    ensures UniqueNames(Added(ds, name, nr)) && NamesOf(Added(ds, name, nr)) == NamesOf(ds)[name := nr]
    ensures |Added(ds, name, nr)| > |ds| <==> forall k :: 0 <= k < |ds| && !Live(ds[k]) ==> |ds[k].name| != |name|
  {
    hide FindFrom;
    var k := AddFrom(ds, name, 0);
    forall i | 0 <= i < |ds| && Live(ds[i]) ensures ds[i].name != name {
      assert ds[i].name in NamesOf(ds);
    }
    PutInserts(ds, k, Added(ds, name, nr), name, nr);
  }

  /** Turning a live record into a tombstone is deletion from the map. */
  lemma TombstoneDeletes(ds: seq<Dirent>, k: nat)
    requires UniqueNames(ds) && k < |ds| && Live(ds[k])
    ensures var es := ds[k := Dirent(ds[k].name, -1)];
            UniqueNames(es) && NamesOf(es) == NamesOf(ds) - {ds[k].name}
  {
    hide FindFrom, NrOf;
    var es := ds[k := Dirent(ds[k].name, -1)];
    forall x | x in NamesOf(es) ensures x in NamesOf(ds) && x != ds[k].name && NrOf(es, x) == NrOf(ds, x) {
      var i :| 0 <= i < |es| && Live(es[i]) && es[i].name == x;
      FindIs(es, x, i);
      FindIs(ds, x, i);
    }
    forall x | x in NamesOf(ds) && x != ds[k].name ensures x in NamesOf(es) {
      var i :| 0 <= i < |ds| && Live(ds[i]) && ds[i].name == x;
      assert es[i] == ds[i];
    }
  }
}
