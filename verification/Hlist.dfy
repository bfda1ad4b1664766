/** The linked lists behind the hash buckets, and the hash table of in-memory inodes made of them. */
module Hlist {
  import opened Inodes
  import opened Table

  /** The pointer that leads to a node: that of a list head, or the `next` of the node before. */
  datatype Slot = Nowhere | First(head: Head) | NextOf(node: Node)

  /** The list node that is part of an inode. */
  class Node {
    const owner: Inode
    var next: Node?
    var pprev: Slot

    /** Not in any list. */
    constructor (owner: Inode)
      ensures this.owner == owner && next == null && pprev == Nowhere
    {
      this.owner := owner;
      next := null;
      pprev := Nowhere;
    }
  }

  class Head {
    var first: Node?
    ghost var nodes: seq<Node>

    constructor ()
      ensures Valid() && nodes == []
    {
      first := null;
      nodes := [];
    }

    ghost function At(i: nat): Node?
      reads this
    {
      if i < |nodes| then nodes[i] else null
    }

    ghost predicate Linked(i: nat)
      requires i < |nodes|
      reads this, nodes
    {
      nodes[i].next == At(i + 1) && nodes[i].pprev == if i == 0 then First(this) else NextOf(nodes[i - 1])
    }

    /** The pointers run through the nodes in order, each node once, and back. */
    ghost predicate Valid()
      reads this, nodes
    {
      && (forall i, j :: 0 <= i < j < |nodes| ==> nodes[i] != nodes[j])
      && first == At(0)
      && (forall i: nat :: i < |nodes| ==> Linked(i))
    }

    method IsEmpty() returns (r: bool)
      requires Valid()
      ensures r <==> nodes == []
    {
      r := first == null;
    }

    method AddHead(n: Node)
      requires Valid() && n !in nodes
      modifies this, n, nodes
      ensures Valid() && nodes == [n] + old(nodes)
    {
      var was := first;
      n.next := was;
      if was != null {
        was.pprev := NextOf(n);
      }
      first := n;
      n.pprev := First(this);
      nodes := [n] + nodes;
      forall i: nat | i < |nodes| ensures Linked(i) {
        if i > 0 {
          assert old(Linked(i - 1)) && nodes[i] == old(nodes)[i - 1];
        }
      }
    }

    /** Walks the list, as `hlist_for_each_entry` does, up to the first inode with the number. */
    method FindOwner(nr: nat) returns (found: Inode?)
      requires Valid()
      ensures found == FirstWith(Owners(nodes), nr)
    {
      var at := first;
      ghost var i: nat := 0;
      while at != null
        invariant i <= |nodes| && at == At(i) && forall j :: 0 <= j < i ==> nodes[j].owner.nr != nr
        decreases |nodes| - i
      {
        FirstWithFrom(Owners(nodes), nr, i);
        if at.owner.nr == nr {
          return at.owner;
        }
        assert Linked(i);
        at := at.next;
        i := i + 1;
      }
      FirstWithFrom(Owners(nodes), nr, i);
      found := null;
    }
  }

  /** The inodes whose nodes these are. */
  function Owners(nodes: seq<Node>): (s: seq<Inode>)
    ensures |s| == |nodes|
  {
    seq(|nodes|, i requires 0 <= i < |nodes| => nodes[i].owner)
  }

  /** The list without its node `k`. */
  function WithoutAt(nodes: seq<Node>, k: nat): seq<Node>
    requires k < |nodes|
  {
    nodes[..k] + nodes[k + 1..]
  }

  lemma CutHas(nodes: seq<Node>, k: nat)
    requires k < |nodes|
    ensures forall x :: x in nodes && x != nodes[k] ==> x in WithoutAt(nodes, k)
    ensures forall x :: x in WithoutAt(nodes, k) ==> x in nodes
  {
    forall x | x in nodes && x != nodes[k] ensures x in WithoutAt(nodes, k) {
      var i :| 0 <= i < |nodes| && nodes[i] == x;
      assert WithoutAt(nodes, k)[if i < k then i else i - 1] == x;
    }
  }

  /** Unlinks a node from whatever list it is in, without knowing the list. */
  method Del(n: Node, ghost h: Head, ghost k: nat)
    requires h.Valid() && k < |h.nodes| && h.nodes[k] == n
    modifies h, h.nodes
    ensures h.Valid() && n.next == null && n.pprev == Nowhere && n !in h.nodes && h.nodes == WithoutAt(old(h.nodes), k)
  {
    assert h.Linked(k);
    ghost var was := h.nodes;
    var next, pprev := n.next, n.pprev;
    if k > 0 {
      assert h.Linked(k - 1);
    }
    if k + 1 < |was| {
      assert h.Linked(k + 1);
    }
    match pprev {
      case First(head) => head.first := next;
      case NextOf(node) => node.next := next;
      case Nowhere =>
    }
    if next != null {
      next.pprev := pprev;
    }
    n.next := null;
    n.pprev := Nowhere;
    h.nodes := WithoutAt(was, k);
    forall i: nat | i < |h.nodes| ensures h.Linked(i) {
      var j := if i < k then i else i + 1;
      assert old(h.Linked(j)) && h.nodes[i] == was[j];
    }
    forall i | 0 <= i < |h.nodes| ensures h.nodes[i] != n {
      assert h.nodes[i] == was[if i < k then i else i + 1];
    }
  }

  /** The inode hash table as an array of list heads. Its contracts are those of `InodeTable`. */
  class LinkedTable {
    const heads: seq<Head>
    ghost var view: map<nat, Inode>
    /** All nodes that are in some list. */
    ghost var cells: set<Node>

    /** The lists have no node in common. */
    ghost predicate ListsApart()
      reads this, heads
    {
      && |heads| == NR_BUCKETS && (forall a, b :: 0 <= a < b < NR_BUCKETS ==> heads[a] != heads[b])
      && (forall b, x :: 0 <= b < NR_BUCKETS && x in heads[b].nodes ==> x in cells)
      && (forall x :: x in cells ==> x in heads[Hash(x.owner.nr)].nodes)
      && (forall a, b, x :: 0 <= a < b < NR_BUCKETS && x in heads[a].nodes ==> x !in heads[b].nodes)
    }

    /** The inodes of every list. */
    ghost function Lists(): Buckets
      requires |heads| == NR_BUCKETS
      reads heads
    {
      seq(256, b requires 0 <= b < |heads| reads heads => Owners(heads[b].nodes))
    }

    ghost predicate Valid()
      reads this, heads, cells
    {
      ListsApart() && (forall b :: 0 <= b < NR_BUCKETS ==> heads[b].Valid()) && WfBuckets(Lists(), view)
    }

    constructor ()
      ensures Valid() && view == map[] && cells == {} && fresh(heads)
    {
      var hs: seq<Head> := [];
      view, cells := map[], {};
      var b := 0;
      while b < NR_BUCKETS
        invariant 0 <= b <= NR_BUCKETS && |hs| == b && fresh(hs)
        invariant forall i, j :: 0 <= i < j < b ==> hs[i] != hs[j]
        invariant forall i :: 0 <= i < b ==> hs[i].Valid() && hs[i].nodes == []
      {
        var h := new Head();
        hs := hs + [h];
        b := b + 1;
      }
      heads := hs;
    }

    method Find(nr: nat) returns (found: Inode?)
      requires Valid()
      ensures found == FirstWith(Lists()[Hash(nr)], nr)
      ensures found == null <==> nr !in view
      ensures found != null ==> found == view[nr]
    {
      hide WfBuckets, Hash, FirstWith;
      FoundInBucket(Lists(), view, nr);
      found := heads[Hash(nr)].FindOwner(nr);
    }

    /** `hlist_add_head` into the bucket of the inode's number. */
    method Insert(n: Node)
      requires Valid() && n !in cells && n.owner.nr !in view
      modifies this, n, heads, cells
      ensures Valid() && view == old(view)[n.owner.nr := n.owner] && Lists() == Inserted(old(Lists()), n.owner)
      ensures cells == old(cells) + {n}
    {
      hide WfBuckets, Hash, Owners, Head.Valid;
      var h := Hash(n.owner.nr);
      InsertedOk(Lists(), view, n.owner);
      assert n !in heads[h].nodes;
      heads[h].AddHead(n);
      view, cells := view[n.owner.nr := n.owner], cells + {n};
      OwnersMore(n, old(heads[h].nodes));
      OtherLists(h, n);
      assert Lists() == Inserted(old(Lists()), n.owner);
    }

    /** Changing one list and one node leaves the other lists as they were. */
    twostate lemma OtherLists(new h: nat, new n: Node)
      requires h < NR_BUCKETS && old(ListsApart()) && old(forall b :: 0 <= b < NR_BUCKETS ==> heads[b].Valid())
      requires forall b :: 0 <= b < NR_BUCKETS && b != h ==> n !in old(heads[b].nodes)
      requires forall b :: 0 <= b < NR_BUCKETS && b != h ==> unchanged(heads[b])
      requires forall b, x ::
        0 <= b < NR_BUCKETS && x in old(heads[b].nodes) && x !in old(heads[h].nodes) && x != n ==> unchanged(x)
      ensures forall b :: 0 <= b < NR_BUCKETS && b != h ==> heads[b].nodes == old(heads[b].nodes) && heads[b].Valid()
    {
      forall b | 0 <= b < NR_BUCKETS && b != h ensures heads[b].nodes == old(heads[b].nodes) && heads[b].Valid() {
        forall x | x in old(heads[b].nodes) ensures unchanged(x) {
          assert x in old(heads[b].nodes) && x !in old(heads[h].nodes) && x != n;
        }
        SameHead(heads[b]);
      }
    }

    /** `hlist_del`: no bucket is looked up. */
    method Remove(n: Node)
      requires Valid() && n in cells
      modifies this, heads, cells
      ensures Valid() && view == old(view) - {n.owner.nr} && Lists() == Dropped(old(Lists()), n.owner)
      ensures cells == old(cells) - {n}
    {
      hide WfBuckets, Hash, Owners, Minus, Head.Valid, WithoutAt;
      ghost var h := Hash(n.owner.nr);
      ghost var k: nat :| k < |heads[h].nodes| && heads[h].nodes[k] == n;
      assert Lists()[h] == Owners(heads[h].nodes);
      OwnerPlaced(Lists(), view, heads[h].nodes, h, k);
      DroppedOk(Lists(), view, n.owner);
      CutHas(heads[h].nodes, k);
      Del(n, heads[h], k);
      view, cells := view - {n.owner.nr}, cells - {n};
      OtherLists(h, n);
      assert Lists() == Dropped(old(Lists()), n.owner);
    }

    method IsEmpty() returns (r: bool)
      requires Valid()
      ensures r <==> view == map[]
    {
      hide WfBuckets;
      EmptyBuckets(Lists(), view);
      var b := 0;
      while b < NR_BUCKETS
        invariant 0 <= b <= NR_BUCKETS
        invariant forall i :: 0 <= i < b ==> Lists()[i] == []
      {
        var empty := heads[b].IsEmpty();
        assert Lists()[b] == Owners(heads[b].nodes);
        if !empty {
          return false;
        }
        b := b + 1;
      }
      r := true;
    }
  }

  lemma OwnerPlaced(buckets: Buckets, view: map<nat, Inode>, nodes: seq<Node>, h: nat, k: nat)
    requires WfBuckets(buckets, view) && h < NR_BUCKETS && buckets[h] == Owners(nodes) && k < |nodes|
    ensures var x := nodes[k].owner;
            && x.nr in view && view[x.nr] == x && Hash(x.nr) == h && Minus(buckets[h], x) == Owners(WithoutAt(nodes, k))
  {
    hide Hash, Minus;
    var s := buckets[h];
    assert Placed(view, h, s[k]);
    MinusIs(s, k);
    assert s[..k] + s[k + 1..] == Owners(WithoutAt(nodes, k));
  }

  twostate lemma SameHead(h: Head)
    requires old(h.Valid()) && unchanged(h) && forall x :: x in old(h.nodes) ==> unchanged(x)
    ensures h.Valid()
  {
    forall i: nat | i < |h.nodes| ensures h.Linked(i) {
      assert old(h.Linked(i)) && h.nodes[i] in old(h.nodes);
    }
  }

  lemma OwnersMore(n: Node, nodes: seq<Node>)
    ensures Owners([n] + nodes) == [n.owner] + Owners(nodes)
  {
  }
}
