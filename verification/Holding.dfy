/** Who holds inodes in memory: the count of an inode is the number of gets that no put has matched yet. */
module Holding {
  import opened Layout
  import opened Inodes
  import opened Super
  import opened Table
  import opened World
  import opened Contexts

  datatype Use = Get(nr: nat) | Put(nr: nat)

  /** How many more gets than puts there were of this number. */
  function Tally(uses: seq<Use>, nr: nat): int {
    if uses == [] then 0
    else Tally(uses[..|uses| - 1], nr) + match uses[|uses| - 1]
      case Get(i) => if i == nr then 1 else 0
      case Put(i) => if i == nr then -1 else 0
  }

  /** Numbers that have a place in the inode blocks are got, and only what is held is put. */
  predicate MayUse(uses: seq<Use>, i: nat)
    requires i < |uses|
  {
    match uses[i]
    case Get(nr) => nr < NR_INODES
    case Put(nr) => Tally(uses[..i], nr) > 0
  }

  /** In memory are exactly the inodes that are held, each counted as often as it is. */
  ghost predicate Counted(table: InodeTable, uses: seq<Use>)
    reads table, table.view.Values
  {
    forall nr: nat :: CountedAt(table, uses, nr)
  }

  ghost predicate CountedAt(table: InodeTable, uses: seq<Use>, nr: nat)
    reads table, table.view.Values
  {
    && (nr in table.view <==> Tally(uses, nr) > 0) && Tally(uses, nr) >= 0
    && (nr in table.view ==> table.view[nr].count == Tally(uses, nr) && !table.view[nr].dirty)
  }

  lemma TallyMore(uses: seq<Use>, i: nat, nr: nat)
    requires i < |uses|
    ensures Tally(uses[..i + 1], nr) == Tally(uses[..i], nr) + match uses[i]
      case Get(n) => if n == nr then 1 else 0
      case Put(n) => if n == nr then -1 else 0
  {
    assert uses[..i + 1][..i] == uses[..i];
  }

  /** The table is empty exactly when every get was matched by a put. */
  lemma EmptyWhen(table: InodeTable, uses: seq<Use>)
    requires Counted(table, uses)
    ensures table.view == map[] <==> forall nr: nat :: Tally(uses, nr) == 0
  {
    hide Tally;
    forall nr: nat ensures nr in table.view <==> Tally(uses, nr) != 0 {
      assert CountedAt(table, uses, nr);
    }
    if table.view == map[] {
      forall nr: nat ensures Tally(uses, nr) == 0 {
        assert nr !in table.view;
      }
    } else {
      var nr :| nr in table.view;
      assert Tally(uses, nr) != 0;
    }
  }

  /** Any gets and puts, from an empty table on. */
  method UseAll(c: Context, uses: seq<Use>)
    requires c.Struct() && c.table.view == map[] && forall i: nat :: i < |uses| ==> MayUse(uses, i)
    modifies c.table, c.sb.dev
    ensures c.Struct() && c.W() == old(c.W()) && Counted(c.table, uses)
    ensures c.table.view == map[] <==> forall nr: nat :: Tally(uses, nr) == 0
  {
    hide SuperBlock.Vol, SuperBlock.Valid, InodeTable.Valid, Context.W, Context.CacheOk, Context.Current, Tally, MayUse;
    var i := 0;
    NoUse(c.table, uses);
    while i < |uses|
      invariant 0 <= i <= |uses| && c.Struct() && c.W() == old(c.W()) && Counted(c.table, uses[..i])
      invariant forall x :: x in c.table.view.Values ==> fresh(x)
    {
      UseOne(c, uses, i);
      i := i + 1;
    }
    assert uses[..i] == uses;
    EmptyWhen(c.table, uses);
  }

  lemma NoUse(table: InodeTable, uses: seq<Use>)
    requires table.view == map[]
    ensures Counted(table, uses[..0])
  {
  }

  method UseOne(c: Context, uses: seq<Use>, i: nat)
    requires c.Struct() && i < |uses| && MayUse(uses, i) && Counted(c.table, uses[..i])
    modifies c.table, c.table.view.Values`count, c.sb.dev
    ensures c.Struct() && c.W() == old(c.W()) && Counted(c.table, uses[..i + 1])
    ensures forall x :: x in c.table.view.Values ==> x in old(c.table.view.Values) || fresh(x)
  {
    hide SuperBlock.Vol, SuperBlock.Valid, InodeTable.Valid, Context.W, Context.CacheOk, Context.Current, Tally;
    hide Counted, CountedAt;
    match uses[i]
    case Get(nr) => GetOne(c, uses, i, nr);
    case Put(nr) => PutOne(c, uses, i, nr);
  }

  method GetOne(c: Context, ghost uses: seq<Use>, ghost i: nat, nr: nat)
    requires c.Struct() && i < |uses| && uses[i] == Get(nr) && nr < NR_INODES && Counted(c.table, uses[..i])
    modifies c.table, c.table.view.Values`count, c.sb.dev
    ensures c.Struct() && c.W() == old(c.W()) && Counted(c.table, uses[..i + 1])
    ensures forall x :: x in c.table.view.Values ==> x in old(c.table.view.Values) || fresh(x)
  {
    hide SuperBlock.Vol, SuperBlock.Valid, InodeTable.Valid, Context.W, Context.CacheOk, Context.Current;
    hide Context.Struct, Tally;
    var in_ := c.GetInode(nr);
    ghost var now := uses[..i + 1];
    forall n: nat ensures CountedAt(c.table, now, n) {
      assert old(CountedAt(c.table, uses[..i], n));
      TallyMore(uses, i, n);
    }
  }

  method PutOne(c: Context, ghost uses: seq<Use>, ghost i: nat, nr: nat)
    requires c.Struct() && i < |uses| && uses[i] == Put(nr) && Tally(uses[..i], nr) > 0 && Counted(c.table, uses[..i])
    modifies c.table, c.table.view.Values`count, c.sb.dev
    ensures c.Struct() && c.W() == old(c.W()) && Counted(c.table, uses[..i + 1])
    ensures forall x :: x in c.table.view.Values ==> x in old(c.table.view.Values) || fresh(x)
  {
    hide SuperBlock.Vol, SuperBlock.Valid, InodeTable.Valid, Context.W, Context.CacheOk, Context.Current;
    hide Context.Struct, Tally;
    assert CountedAt(c.table, uses[..i], nr);
    c.NumberIs(nr);
    forall n: nat | n in c.table.view && n != nr ensures c.table.view[n] != c.table.view[nr] {
      c.NumberIs(n);
    }
    var in_ := c.table.Find(nr);
    var clean := c.PutInode(in_);
    ghost var now := uses[..i + 1];
    forall n: nat ensures CountedAt(c.table, now, n) {
      assert old(CountedAt(c.table, uses[..i], n));
      TallyMore(uses, i, n);
    }
  }
}
