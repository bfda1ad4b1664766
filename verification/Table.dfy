/** The hash table of in-memory inodes. */
module Table {
  import opened Inodes

  /** Number of buckets: the hash keeps eight bits. */
  const NR_BUCKETS: int := 256
  const GOLDEN_RATIO_PRIME_32: int := 0x9e370001

  /** `hash_int(nr, 8)`: multiply modulo 2^32 and keep the top eight bits. */
  function Hash(nr: nat): (h: nat)
    ensures h < NR_BUCKETS
  {
    nr * GOLDEN_RATIO_PRIME_32 % 0x1_0000_0000 / 0x100_0000
  }

  /** The inodes of every bucket, in the order of its list. */
  type Buckets = s: seq<seq<Inode>> | |s| == 256 witness seq(256, _ => [])

  /** Every inode sits once in the bucket of its number, and no number has two inodes. */
  ghost predicate WfBuckets(buckets: Buckets, view: map<nat, Inode>) {
    && (forall nr :: nr in view ==> view[nr].nr == nr && view[nr] in buckets[Hash(nr)])
    && (forall b, k :: 0 <= b < NR_BUCKETS && 0 <= k < |buckets[b]| ==> Placed(view, b, buckets[b][k]))
    && (forall b, j, k :: 0 <= b < NR_BUCKETS && 0 <= j < k < |buckets[b]| ==> buckets[b][j] != buckets[b][k])
  }

  ghost predicate Placed(view: map<nat, Inode>, b: int, in_: Inode) {
    in_.nr in view && view[in_.nr] == in_ && Hash(in_.nr) == b
  }

  /** The first inode of a bucket that has the number. */
  function FirstWith(bucket: seq<Inode>, nr: nat): (found: Inode?)
    ensures found != null ==> found in bucket && found.nr == nr
    ensures found == null ==> forall k :: 0 <= k < |bucket| ==> bucket[k].nr != nr
  {
    if bucket == [] then null else if bucket[0].nr == nr then bucket[0] else FirstWith(bucket[1..], nr)
  }

  /** The first such inode does not come before place `k`. */
  lemma {:induction false} FirstWithFrom(bucket: seq<Inode>, nr: nat, k: nat)
    requires k <= |bucket| && forall j :: 0 <= j < k ==> bucket[j].nr != nr
    ensures FirstWith(bucket, nr) == FirstWith(bucket[k..], nr)
  {
    if k > 0 {
      FirstWithFrom(bucket[1..], nr, k - 1);
      assert bucket[1..][k - 1..] == bucket[k..];
    } else {
      assert bucket[0..] == bucket;
    }
  }

  /** An inode put at the head of its bucket. */
  function Inserted(buckets: Buckets, in_: Inode): Buckets {
    buckets[Hash(in_.nr) := [in_] + buckets[Hash(in_.nr)]]
  }

  /** The list without the first occurrence of an inode. */
  function Minus(s: seq<Inode>, x: Inode): seq<Inode> {
    if s == [] then [] else if s[0] == x then s[1..] else [s[0]] + Minus(s[1..], x)
  }

  /** An inode taken out of its bucket. */
  function Dropped(buckets: Buckets, in_: Inode): Buckets {
    buckets[Hash(in_.nr) := Minus(buckets[Hash(in_.nr)], in_)]
  }

  lemma {:induction false} MinusIs(s: seq<Inode>, k: nat)
    requires k < |s| && forall j :: 0 <= j < k ==> s[j] != s[k]
    ensures Minus(s, s[k]) == s[..k] + s[k + 1..]
  {
    if k > 0 {
      MinusIs(s[1..], k - 1);
      assert s[..k] == [s[0]] + s[1..][..k - 1] && s[1..][k..] == s[k + 1..];
    } else {
      assert s[..0] + s[1..] == s[1..];
    }
  }

  /** In its bucket, and nowhere else, the number is found. */
  lemma FoundInBucket(buckets: Buckets, view: map<nat, Inode>, nr: nat)
    requires WfBuckets(buckets, view)
    ensures FirstWith(buckets[Hash(nr)], nr) == if nr in view then view[nr] else null
  {
    var found := FirstWith(buckets[Hash(nr)], nr);
    if found != null {
      var k :| 0 <= k < |buckets[Hash(nr)]| && buckets[Hash(nr)][k] == found;
      assert Placed(view, Hash(nr), buckets[Hash(nr)][k]);
    }
  }

  lemma InsertedOk(buckets: Buckets, view: map<nat, Inode>, in_: Inode)
    requires WfBuckets(buckets, view) && in_.nr !in view
    ensures WfBuckets(Inserted(buckets, in_), view[in_.nr := in_])
  {
    hide Hash;
    var h, now, view' := Hash(in_.nr), Inserted(buckets, in_), view[in_.nr := in_];
    forall b, k | 0 <= b < NR_BUCKETS && 0 <= k < |now[b]| ensures Placed(view', b, now[b][k]) {
      if b == h && k > 0 {
        assert Placed(view, b, buckets[b][k - 1]);
      } else if b != h {
        assert Placed(view, b, buckets[b][k]);
      }
    }
    forall b, j, k | 0 <= b < NR_BUCKETS && 0 <= j < k < |now[b]| ensures now[b][j] != now[b][k] {
      if b == h && j == 0 {
        assert Placed(view, b, buckets[b][k - 1]);
      } else if b == h {
        assert buckets[b][j - 1] != buckets[b][k - 1];
      }
    }
    forall nr | nr in view' ensures view'[nr].nr == nr && view'[nr] in now[Hash(nr)] {
      if nr != in_.nr {
        assert view[nr] in buckets[Hash(nr)];
      } else {
        assert now[h][0] == in_;
      }
    }
  }

  /** Bucket `h` lost its entry `k`. */
  predicate CutAt(buckets: Buckets, h: nat, k: nat, now: Buckets) {
    && h < NR_BUCKETS && k < |buckets[h]|
    && now == buckets[h := buckets[h][..k] + buckets[h][k + 1..]]
  }

  /** Where entry `j` of bucket `b` was before. */
  function PlaceBefore(b: int, j: nat, h: nat, k: nat): nat {
    if b == h && j >= k then j + 1 else j
  }

  lemma CutEntry(buckets: Buckets, h: nat, k: nat, now: Buckets, b: nat, j: nat)
    requires CutAt(buckets, h, k, now) && b < NR_BUCKETS && j < |now[b]|
    ensures PlaceBefore(b, j, h, k) < |buckets[b]| && now[b][j] == buckets[b][PlaceBefore(b, j, h, k)]
    ensures b == h ==> PlaceBefore(b, j, h, k) != k
  {
  }

  lemma CutDistinct(buckets: Buckets, view: map<nat, Inode>, h: nat, k: nat, now: Buckets)
    requires WfBuckets(buckets, view) && CutAt(buckets, h, k, now)
    ensures forall b, i, j :: 0 <= b < NR_BUCKETS && 0 <= i < j < |now[b]| ==> now[b][i] != now[b][j]
  {
    hide CutAt;
    forall b, i, j | 0 <= b < NR_BUCKETS && 0 <= i < j < |now[b]| ensures now[b][i] != now[b][j] {
      CutEntry(buckets, h, k, now, b, i);
      CutEntry(buckets, h, k, now, b, j);
    }
  }

  lemma CutKeeps(buckets: Buckets, h: nat, k: nat, now: Buckets, b: nat, x: Inode)
    requires CutAt(buckets, h, k, now) && b < NR_BUCKETS && x in buckets[b] && x != buckets[h][k]
    ensures x in now[b]
  {
    var i :| 0 <= i < |buckets[b]| && buckets[b][i] == x;
    if b == h {
      assert now[b][if i < k then i else i - 1] == x;
    }
  }

  lemma DroppedOk(buckets: Buckets, view: map<nat, Inode>, in_: Inode)
    requires WfBuckets(buckets, view) && in_.nr in view && view[in_.nr] == in_
    ensures WfBuckets(Dropped(buckets, in_), view - {in_.nr})
  {
    hide Hash, Minus;
    var h, now, view' := Hash(in_.nr), Dropped(buckets, in_), view - {in_.nr};
    var k: nat :| k < |buckets[h]| && buckets[h][k] == in_;
    MinusIs(buckets[h], k);
    assert CutAt(buckets, h, k, now);
    CutDistinct(buckets, view, h, k, now);
    hide CutAt, Dropped;
    forall b, j | 0 <= b < NR_BUCKETS && 0 <= j < |now[b]| ensures Placed(view', b, now[b][j]) {
      CutEntry(buckets, h, k, now, b, j);
      assert Placed(view, b, buckets[b][PlaceBefore(b, j, h, k)]);
    }
    forall nr | nr in view' ensures view'[nr].nr == nr && view'[nr] in now[Hash(nr)] {
      CutKeeps(buckets, h, k, now, Hash(nr), view[nr]);
    }
  }

  lemma EmptyBuckets(buckets: Buckets, view: map<nat, Inode>)
    requires WfBuckets(buckets, view)
    ensures view == map[] <==> forall b :: 0 <= b < NR_BUCKETS ==> buckets[b] == []
  {
    forall b | 0 <= b < NR_BUCKETS && buckets[b] != [] ensures buckets[b][0].nr in view {
      assert Placed(view, b, buckets[b][0]);
    }
    forall nr | nr in view ensures buckets[Hash(nr)] != [] {
      assert view[nr] in buckets[Hash(nr)];
    }
    if forall b :: 0 <= b < NR_BUCKETS ==> buckets[b] == [] {
      assert forall nr :: nr !in view;
    }
  }

  class InodeTable {
    var buckets: Buckets
    ghost var view: map<nat, Inode>

    ghost predicate Valid()
      reads this
    {
      WfBuckets(buckets, view)
    }

    constructor ()
      ensures Valid() && view == map[]
    {
      buckets := seq(256, _ => []);
      view := map[];
    }

    /** Walks the bucket of `nr`. */
    method Find(nr: nat) returns (found: Inode?)
      requires Valid()
      ensures found == FirstWith(buckets[Hash(nr)], nr)
      ensures found == null <==> nr !in view
      ensures found != null ==> found == view[nr]
    {
      hide WfBuckets, Hash;
      FoundInBucket(buckets, view, nr);
      var bucket := buckets[Hash(nr)];
      var k := 0;
      while k < |bucket|
        invariant 0 <= k <= |bucket|
        invariant forall j :: 0 <= j < k ==> bucket[j].nr != nr
      {
        FirstWithFrom(bucket, nr, k);
        if bucket[k].nr == nr {
          return bucket[k];
        }
        k := k + 1;
      }
      FirstWithFrom(bucket, nr, k);
      found := null;
    }

    /** Puts an inode at the head of its bucket. */
    method Insert(in_: Inode)
      requires Valid() && in_.nr !in view
      modifies this
      ensures Valid() && view == old(view)[in_.nr := in_] && buckets == Inserted(old(buckets), in_)
    {
      hide WfBuckets, Hash;
      InsertedOk(buckets, view, in_);
      var h := Hash(in_.nr);
      buckets := buckets[h := [in_] + buckets[h]];
      view := view[in_.nr := in_];
    }

    /** Unlinks an inode from its bucket. */
    method Remove(in_: Inode)
      requires Valid() && in_.nr in view && view[in_.nr] == in_
      modifies this
      ensures Valid() && view == old(view) - {in_.nr} && buckets == Dropped(old(buckets), in_)
    {
      hide Hash, Minus;
      DroppedOk(buckets, view, in_);
      var h := Hash(in_.nr);
      var k := 0;
      while buckets[h][k] != in_
        invariant 0 <= k < |buckets[h]| && in_ in buckets[h][k..] && forall j :: 0 <= j < k ==> buckets[h][j] != in_
        decreases |buckets[h]| - k
      {
        k := k + 1;
      }
      MinusIs(buckets[h], k);
      buckets := buckets[h := buckets[h][..k] + buckets[h][k + 1..]];
      view := view - {in_.nr};
    }

    /** The assertion made when the table is destroyed: all buckets are empty. */
    method IsEmpty() returns (r: bool)
      requires Valid()
      ensures r <==> view == map[]
    {
      hide WfBuckets;
      EmptyBuckets(buckets, view);
      var b := 0;
      while b < NR_BUCKETS
        invariant 0 <= b <= NR_BUCKETS
        invariant forall i :: 0 <= i < b ==> buckets[i] == []
      {
        if buckets[b] != [] {
          return false;
        }
        b := b + 1;
      }
      r := true;
    }
  }
}
