/** The headers of a memheap: one holds the links of the circular block list and those of the free list. */
module MemheapLinks {
  import opened Sequences
  import opened HeapChain
  import opened HeapSteps
  import opened MemheapChain

  /** struct rt_memheap_item. */
  datatype Item = Item(used: bool, next: nat, prev: nat, nextFree: int, prevFree: int)

  /** The headers found in memory, by offset. */
  type Items = map<int, Item>

  /** The address of the free-list header, and RT_NULL. */
  const FREE_LIST := -1
  const NULL := -2

  /** A header is written at `p`: whatever header it overlaps is destroyed. */
  function Put(S: nat, items: Items, p: int, x: Item): Items {
    (map k | k in items && (k + S <= p || p + S <= k) :: items[k])[p := x]
  }

  /** The header of block `k`: the block list is circular, through the tail header. */
  ghost predicate HeadAt(g: Geometry, items: Items, bs: seq<Block>, k: nat) {
    && k < |bs| && bs[k].off in items
    && items[bs[k].off].used == bs[k].used && items[bs[k].off].next == bs[k].next
    && items[bs[k].off].prev == if k == 0 then g.End() else bs[k - 1].off
  }

  /** The tail header, which counts as used. */
  ghost predicate TailAt(g: Geometry, items: Items, bs: seq<Block>) {
    bs != [] && g.End() in items && items[g.End()].used && items[g.End()].next == 0
    && items[g.End()].prev == bs[|bs| - 1].off
  }

  /** The block list spells out the chain. */
  ghost predicate BlockLinks(g: Geometry, items: Items, bs: seq<Block>) {
    Chain(g, bs) && TailAt(g, items, bs) && forall k :: 0 <= k < |bs| ==> HeadAt(g, items, bs, k)
  }

  /** The free list: its header and the links in the free blocks. */
  datatype Ring = Ring(items: Items, first: int, last: int) {
    ghost predicate Links(fl: seq<nat>) {
      && first == At(fl, 0, FREE_LIST) && last == At(fl, |fl| - 1, FREE_LIST)
      && (forall k :: 0 <= k < |fl| ==> fl[k] in items)
      && (forall k {:trigger items[fl[k]]} :: 0 <= k < |fl| ==>
        items[fl[k]].nextFree == At(fl, k + 1, FREE_LIST) && items[fl[k]].prevFree == At(fl, k - 1, FREE_LIST))
    }

    function SetNextFree(p: int, v: int): Ring
      requires p == FREE_LIST || p in items
    {
      if p == FREE_LIST then this.(first := v) else this.(items := items[p := items[p].(nextFree := v)])
    }

    function SetPrevFree(p: int, v: int): Ring
      requires p == FREE_LIST || p in items
    {
      if p == FREE_LIST then this.(last := v) else this.(items := items[p := items[p].(prevFree := v)])
    }
  }

  /** The same headers as far as the block list is concerned. */
  ghost predicate SameBlocks(a: Items, b: Items) {
    a.Keys == b.Keys && forall p :: p in a ==>
      a[p].used == b[p].used && a[p].next == b[p].next && a[p].prev == b[p].prev
  }

  /** The same headers as far as the free list `fl` is concerned. */
  ghost predicate SameFree(a: Items, b: Items, fl: seq<nat>) {
    forall p :: p in fl && p in a ==> p in b && a[p].nextFree == b[p].nextFree && a[p].prevFree == b[p].prevFree
  }

  lemma BlockLinksKept(g: Geometry, a: Items, b: Items, bs: seq<Block>)
    requires BlockLinks(g, a, bs) && SameBlocks(a, b)
    ensures BlockLinks(g, b, bs)
  {
    forall k | 0 <= k < |bs| ensures HeadAt(g, b, bs, k) {
      assert HeadAt(g, a, bs, k);
    }
  }

  lemma FreeLinksKept(r: Ring, items: Items, fl: seq<nat>)
    requires r.Links(fl) && SameFree(r.items, items, fl)
    ensures r.(items := items).Links(fl)
  {
    forall k | 0 <= k < |fl| ensures fl[k] in items && items[fl[k]].nextFree == At(fl, k + 1, FREE_LIST)
        && items[fl[k]].prevFree == At(fl, k - 1, FREE_LIST) {
      assert r.items[fl[k]].nextFree == At(fl, k + 1, FREE_LIST);
    }
  }

  // ------------------------------------------------------------------------------------------
  // Changes of the free list
  // ------------------------------------------------------------------------------------------

  /** The list is left by its `j`-th block. */
  ghost function Unlink(r: Ring, fl: seq<nat>, j: nat): Ring
    requires r.Links(fl) && j < |fl|
  {
    var n, q := At(fl, j + 1, FREE_LIST), At(fl, j - 1, FREE_LIST);
    r.SetPrevFree(n, q).SetNextFree(q, n)
  }

  /** Only the two neighbours on the list notice. */
  lemma UnlinkAt(r: Ring, fl: seq<nat>, j: nat, k: nat)
    requires r.Links(fl) && j < |fl| && Distinct(fl) && k < |fl| && k != j
    ensures fl[k] in Unlink(r, fl, j).items
    ensures var x := Unlink(r, fl, j).items[fl[k]];
      && x.nextFree == (if k + 1 == j then At(fl, j + 1, FREE_LIST) else At(fl, k + 1, FREE_LIST))
      && x.prevFree == (if k == j + 1 then At(fl, j - 1, FREE_LIST) else At(fl, k - 1, FREE_LIST))
  {
    assert r.items[fl[k]].nextFree == At(fl, k + 1, FREE_LIST) && r.items[fl[k]].prevFree == At(fl, k - 1, FREE_LIST);
  }

  lemma UnlinkEnds(r: Ring, fl: seq<nat>, j: nat)
    requires r.Links(fl) && j < |fl|
    ensures var u := Unlink(r, fl, j);
      && u.first == (if j == 0 then At(fl, 1, FREE_LIST) else r.first)
      && u.last == (if j == |fl| - 1 then At(fl, j - 1, FREE_LIST) else r.last)
      && SameBlocks(r.items, u.items)
  {
    hide At;
    var n, q := At(fl, j + 1, FREE_LIST), At(fl, j - 1, FREE_LIST);
    AtEnds(r, fl, j);
    RelinkedSame(r, n, q);
    RelinkedSame(r.SetPrevFree(n, q), q, n);
    hide Ring.Links, SameBlocks;
  }

  lemma AtEnds(r: Ring, fl: seq<nat>, j: nat)
    requires r.Links(fl) && j < |fl|
    ensures At(fl, j - 1, FREE_LIST) == FREE_LIST || At(fl, j - 1, FREE_LIST) in r.items
    ensures At(fl, j + 1, FREE_LIST) == FREE_LIST || At(fl, j + 1, FREE_LIST) in r.items
    ensures At(fl, j - 1, FREE_LIST) == FREE_LIST <==> j == 0
    ensures At(fl, j + 1, FREE_LIST) == FREE_LIST <==> j == |fl| - 1
    ensures j == 0 ==> At(fl, 1, FREE_LIST) == At(fl, j + 1, FREE_LIST)
  {}

  lemma RelinkedSame(r: Ring, p: int, v: int)
    requires p == FREE_LIST || p in r.items
    ensures SameBlocks(r.items, r.SetPrevFree(p, v).items) && SameBlocks(r.items, r.SetNextFree(p, v).items)
  {}

  lemma AtWithout(fl: seq<nat>, j: nat, k: int)
    requires j < |fl|
    ensures |Without(fl, j)| == |fl| - 1
    ensures At(Without(fl, j), k, FREE_LIST) == if k < j then At(fl, k, FREE_LIST) else At(fl, k + 1, FREE_LIST)
  {}

  lemma UnlinkLinks(r: Ring, fl: seq<nat>, j: nat)
    requires r.Links(fl) && j < |fl| && Distinct(fl)
    ensures Unlink(r, fl, j).Links(Without(fl, j)) && SameBlocks(r.items, Unlink(r, fl, j).items)
  {
    assert r.first == At(fl, 0, FREE_LIST) && r.last == At(fl, |fl| - 1, FREE_LIST);
    var f := Without(fl, j);
    LinksIf(Unlink(r, fl, j), f) by {
      hide Unlink, SameBlocks, Without, At, Distinct, Ring.Links;
      UnlinkEnds(r, fl, j);
      AtWithout(fl, j, 0);
      AtWithout(fl, j, |f| - 1);
      forall k | 0 <= k < |f| ensures LinkedAt(Unlink(r, fl, j), f, k) {
        UnlinkedAt(r, fl, j, k);
      }
    }
    UnlinkEnds(r, fl, j);
    hide Unlink, Without, Ring.Links;
  }

  ghost predicate LinkedAt(u: Ring, f: seq<nat>, k: nat) {
    k < |f| && f[k] in u.items && u.items[f[k]].nextFree == At(f, k + 1, FREE_LIST)
    && u.items[f[k]].prevFree == At(f, k - 1, FREE_LIST)
  }

  lemma LinksIf(u: Ring, f: seq<nat>)
    requires u.first == At(f, 0, FREE_LIST) && u.last == At(f, |f| - 1, FREE_LIST)
    requires forall k :: 0 <= k < |f| ==> LinkedAt(u, f, k)
    ensures u.Links(f)
  {
    forall k | 0 <= k < |f| ensures f[k] in u.items && u.items[f[k]].nextFree == At(f, k + 1, FREE_LIST)
        && u.items[f[k]].prevFree == At(f, k - 1, FREE_LIST) {
      assert LinkedAt(u, f, k);
    }
  }

  lemma UnlinkedAt(r: Ring, fl: seq<nat>, j: nat, k: nat)
    requires r.Links(fl) && j < |fl| && Distinct(fl) && k < |Without(fl, j)|
    ensures LinkedAt(Unlink(r, fl, j), Without(fl, j), k)
  {
    var k' := if k < j then k else k + 1;
    AtWithout(fl, j, k);
    AtWithout(fl, j, k + 1);
    AtWithout(fl, j, k - 1);
    UnlinkAt(r, fl, j, k');
    hide Unlink, Without, Ring.Links, Distinct;
  }

  /** Block `p`, which has a header but is not on the list, becomes its first. */
  ghost function PushFront(r: Ring, fl: seq<nat>, p: nat): Ring
    requires r.Links(fl) && p in r.items
  {
    var a := r.(items := r.items[p := r.items[p].(nextFree := r.first, prevFree := FREE_LIST)]);
    a.SetPrevFree(r.first, p).SetNextFree(FREE_LIST, p)
  }

  lemma PushLinks(r: Ring, fl: seq<nat>, p: nat)
    requires r.Links(fl) && p in r.items && p !in fl && Distinct(fl)
    ensures PushFront(r, fl, p).Links([p] + fl) && SameBlocks(r.items, PushFront(r, fl, p).items)
  {
    var u, f := PushFront(r, fl, p), [p] + fl;
    assert u.first == p && u.last == if fl == [] then p else r.last;
    assert r.first == At(fl, 0, FREE_LIST) && r.last == At(fl, |fl| - 1, FREE_LIST);
    LinksIf(u, f) by {
      AtPushed(fl, p, |f| - 1);
      forall k | 0 <= k < |f| ensures LinkedAt(u, f, k) {
        PushedAt(r, fl, p, k);
      }
    }
    hide Ring.Links;
  }

  lemma AtPushed(fl: seq<nat>, p: nat, k: int)
    ensures At([p] + fl, k, FREE_LIST) == if k == 0 then p else At(fl, k - 1, FREE_LIST)
  {}

  lemma PushedAt(r: Ring, fl: seq<nat>, p: nat, k: nat)
    requires r.Links(fl) && p in r.items && p !in fl && Distinct(fl) && k <= |fl|
    ensures LinkedAt(PushFront(r, fl, p), [p] + fl, k)
  {
    AtPushed(fl, p, k + 1);
    AtPushed(fl, p, k - 1);
    if k > 0 {
      assert r.items[fl[k - 1]].nextFree == At(fl, k, FREE_LIST);
      assert r.items[fl[k - 1]].prevFree == At(fl, k - 2, FREE_LIST);
      assert ([p] + fl)[k] == fl[k - 1] && fl[k - 1] in fl;
      assert k > 1 ==> fl[0] != fl[k - 1];
    }
  }

  // ------------------------------------------------------------------------------------------
  // Changes of the block list
  // ------------------------------------------------------------------------------------------

  /** What is read of a block and its neighbours. */
  lemma ReadAround(g: Geometry, items: Items, bs: seq<Block>, i: nat)
    requires BlockLinks(g, items, bs) && i < |bs| && g.S > 0
    ensures bs[i].off in items && items[bs[i].off].used == bs[i].used && items[bs[i].off].next == bs[i].next
    ensures items[bs[i].off].prev == (if i == 0 then g.End() else bs[i - 1].off) && items[bs[i].off].prev in items
    ensures items[items[bs[i].off].prev].used == (i == 0 || bs[i - 1].used)
    ensures bs[i].next in items && items[bs[i].next].prev == bs[i].off
    ensures items[bs[i].next].used == (i + 1 == |bs| || bs[i + 1].used)
    ensures i + 1 < |bs| ==>
      bs[i].next == bs[i + 1].off && items[bs[i].next].next == bs[i + 1].next && bs[i + 1].next in items
    ensures i + 1 == |bs| <==> bs[i].next == g.End()
    ensures bs[i].off + g.S <= bs[i].next <= g.End()
  {
    assert HeadAt(g, items, bs, i);
    if i > 0 {
      assert HeadAt(g, items, bs, i - 1);
    }
    if i + 1 < |bs| {
      assert bs[i].next == bs[i + 1].off && HeadAt(g, items, bs, i + 1);
      if i + 2 < |bs| {
        assert bs[i + 1].next == bs[i + 2].off && HeadAt(g, items, bs, i + 2);
      }
    }
  }

  lemma MarkLinks(g: Geometry, items: Items, bs: seq<Block>, i: nat, u: bool)
    requires BlockLinks(g, items, bs) && i < |bs| && bs[i].off in items && g.S > 0
    ensures BlockLinks(g, items[bs[i].off := items[bs[i].off].(used := u)], Mark(bs, i, u))
  {
    var r, c := Mark(bs, i, u), items[bs[i].off := items[bs[i].off].(used := u)];
    MarkChain(g, bs, i, u);
    assert bs[i].off + g.S <= bs[i].next <= g.End();
    forall k | 0 <= k < |r| ensures HeadAt(g, c, r, k) {
      assert HeadAt(g, items, bs, k);
      if k != i { OffsDiffer(g, bs, i, k); }
    }
  }

  /** The block at `p` is cut at `p2`. */
  function Cut(S: nat, items: Items, p: nat, p2: nat, x: Item): (r: Items)
    requires p in items && items[p].next in items && p + S <= p2 && p2 + S <= items[p].next
  {
    var n := items[p].next;
    var a := Put(S, items, p2, x.(next := n, prev := p));
    var b := a[n := a[n].(prev := p2)];
    b[p := b[p].(next := p2)]
  }

  /** The headers after the cut. */
  lemma CutHeaders(S: nat, items: Items, p: nat, p2: nat, x: Item, k: int)
    requires p in items && items[p].next in items && p + S <= p2 && p2 + S <= items[p].next && S > 0
    ensures var r, n := Cut(S, items, p, p2, x), items[p].next;
      && p2 in r && r[p2] == x.(next := n, prev := p)
      && n in r && r[n] == items[n].(prev := p2)
      && p in r && r[p] == items[p].(next := p2)
      && (k in items && (k + S <= p2 || p2 + S <= k) && k != p && k != n ==> k in r && r[k] == items[k])
  {}

  lemma CutLinksAt(g: Geometry, items: Items, bs: seq<Block>, i: nat, p2: nat, x: Item, k: nat)
    requires BlockLinks(g, items, bs) && i < |bs| && bs[i].off + g.S <= p2 && p2 + g.S <= bs[i].next && g.S > 0
      && !x.used
    requires bs[i].off in items && items[bs[i].off].next == bs[i].next && bs[i].next in items && k <= |bs|
    ensures HeadAt(g, Cut(g.S, items, bs[i].off, p2, x), Split(bs, i, p2), k)
  {
    SplitAt(bs, i, p2);
    var r := Split(bs, i, p2);
    ReadAround(g, items, bs, i);
    hide Split, Cut;
    if k == i || k == i + 1 {
      CutHeaders(g.S, items, bs[i].off, p2, x, 0);
    } else {
      var k0 := if k < i then k else k - 1;
      CutHeaders(g.S, items, bs[i].off, p2, x, bs[k0].off);
      ReadAround(g, items, bs, k0);
      if k0 < i {
        ChainOrdered(g, bs, k0, i);
      } else {
        ChainOrdered(g, bs, i, k0);
        if k0 > i + 1 {
          ChainOrdered(g, bs, i + 1, k0);
        }
      }
    }
  }

  lemma CutLinks(g: Geometry, items: Items, bs: seq<Block>, i: nat, p2: nat, x: Item)
    requires BlockLinks(g, items, bs) && i < |bs| && bs[i].off + g.S <= p2 && p2 + g.S <= bs[i].next && g.S > 0
      && !x.used
    requires bs[i].off in items && items[bs[i].off].next == bs[i].next && bs[i].next in items
    ensures BlockLinks(g, Cut(g.S, items, bs[i].off, p2, x), Split(bs, i, p2))
  {
    var c, r := Cut(g.S, items, bs[i].off, p2, x), Split(bs, i, p2);
    SplitChain(g, bs, i, p2);
    SplitAt(bs, i, p2);
    hide Split, Cut, HeadAt, TailAt, Chain;
    CutTail(g, items, bs, i, p2, x);
    forall k | 0 <= k < |r| ensures HeadAt(g, c, r, k) {
      CutLinksAt(g, items, bs, i, p2, x, k);
    }
  }

  lemma CutTail(g: Geometry, items: Items, bs: seq<Block>, i: nat, p2: nat, x: Item)
    requires BlockLinks(g, items, bs) && i < |bs| && bs[i].off + g.S <= p2 && p2 + g.S <= bs[i].next && g.S > 0
    requires bs[i].off in items && items[bs[i].off].next == bs[i].next && bs[i].next in items
    ensures TailAt(g, Cut(g.S, items, bs[i].off, p2, x), Split(bs, i, p2))
  {
    SplitAt(bs, i, p2);
    ReadAround(g, items, bs, i);
    CutHeaders(g.S, items, bs[i].off, p2, x, g.End());
    hide Split, Cut;
    if i + 1 < |bs| {
      ReadAround(g, items, bs, |bs| - 1);
    }
  }

  /** The block at `p` takes in its successor; its header stays where it is, but counts no more. */
  function Merge(items: Items, p: nat): Items
    requires p in items && items[p].next in items && items[items[p].next].next in items
  {
    var n := items[p].next;
    var m := items[n].next;
    var a := items[m := items[m].(prev := p)];
    a[p := a[p].(next := m)]
  }

  lemma MergeAt(items: Items, p: nat, k: int)
    requires p in items && items[p].next in items && items[items[p].next].next in items
    ensures var r, m := Merge(items, p), items[items[p].next].next;
      && (k in items ==> k in r && r[k].used == items[k].used)
      && (k in items ==> r[k].next == if k == p then m else items[k].next)
      && (k in items ==> r[k].prev == if k == m then p else items[k].prev)
      && (k in items ==> r[k].nextFree == items[k].nextFree && r[k].prevFree == items[k].prevFree)
  {}

  lemma MergeLinksAt(g: Geometry, items: Items, bs: seq<Block>, i: nat, k: nat)
    requires BlockLinks(g, items, bs) && i + 1 < |bs| && g.S > 0 && k < |bs| - 1
    requires bs[i].off in items && items[bs[i].off].next in items && items[items[bs[i].off].next].next in items
    ensures HeadAt(g, Merge(items, bs[i].off), Join(bs, i), k)
  {
    assert Chain(g, bs);
    hide BlockLinks, Chain, Join, Merge;
    JoinAt(bs, i);
    ReadAround(g, items, bs, i);
    ReadAround(g, items, bs, i + 1);
    var k0 := if k <= i then k else k + 1;
    ReadAround(g, items, bs, k0);
    MergeAt(items, bs[i].off, bs[k0].off);
    if k0 != i {
      OffsApart(g, bs, i, k0);
    }
  }

  lemma OffsApart(g: Geometry, bs: seq<Block>, i: nat, k: nat)
    requires Chain(g, bs) && i + 1 < |bs| && g.S > 0 && k < |bs| && k != i && k != i + 1
    ensures bs[k].off != bs[i].off && (bs[k].off == bs[i + 1].next <==> k == i + 2)
  {
    if k < i {
      ChainOrdered(g, bs, k, i);
      ChainOrdered(g, bs, k, i + 1);
    } else {
      ChainOrdered(g, bs, i, k);
      if k > i + 2 {
        ChainOrdered(g, bs, i + 2, k);
      }
    }
  }

  lemma MergeLinks(g: Geometry, items: Items, bs: seq<Block>, i: nat)
    requires BlockLinks(g, items, bs) && i + 1 < |bs| && g.S > 0
    requires bs[i].off in items && items[bs[i].off].next in items && items[items[bs[i].off].next].next in items
    ensures BlockLinks(g, Merge(items, bs[i].off), Join(bs, i))
  {
    var c, r := Merge(items, bs[i].off), Join(bs, i);
    JoinChain(g, bs, i);
    JoinAt(bs, i);
    hide Join, Merge, HeadAt, TailAt, Chain;
    MergeTail(g, items, bs, i);
    forall k | 0 <= k < |r| ensures HeadAt(g, c, r, k) {
      MergeLinksAt(g, items, bs, i, k);
    }
  }

  lemma MergeTail(g: Geometry, items: Items, bs: seq<Block>, i: nat)
    requires BlockLinks(g, items, bs) && i + 1 < |bs| && g.S > 0
    requires bs[i].off in items && items[bs[i].off].next in items && items[items[bs[i].off].next].next in items
    ensures TailAt(g, Merge(items, bs[i].off), Join(bs, i))
  {
    JoinAt(bs, i);
    ReadAround(g, items, bs, i);
    ReadAround(g, items, bs, i + 1);
    if i + 2 < |bs| {
      ReadAround(g, items, bs, |bs| - 1);
      ChainOrdered(g, bs, i + 1, |bs| - 1);
    }
  }

  // ------------------------------------------------------------------------------------------
  // The free list while the block list changes
  // ------------------------------------------------------------------------------------------

  /** The entries of the free list are blocks. */
  ghost predicate AtBlocks(bs: seq<Block>, fl: seq<nat>) {
    forall x :: x in fl ==> exists k :: 0 <= k < |bs| && bs[k].off == x
  }

  /** A header written into the inside of a block destroys no header on the free list. */
  lemma CutSameFree(g: Geometry, items: Items, bs: seq<Block>, i: nat, p2: nat, x: Item, fl: seq<nat>)
    requires BlockLinks(g, items, bs) && i < |bs| && bs[i].off + g.S <= p2 && p2 + g.S <= bs[i].next && g.S > 0
    requires bs[i].off in items && items[bs[i].off].next == bs[i].next && bs[i].next in items && AtBlocks(bs, fl)
    ensures SameFree(items, Cut(g.S, items, bs[i].off, p2, x), fl)
  {
    var c := Cut(g.S, items, bs[i].off, p2, x);
    forall y | y in fl && y in items
      ensures y in c && items[y].nextFree == c[y].nextFree && items[y].prevFree == c[y].prevFree
    {
      var k :| 0 <= k < |bs| && bs[k].off == y;
      if k < i {
        ChainOrdered(g, bs, k, i);
      } else if k > i {
        ChainOrdered(g, bs, i, k);
      }
      CutHeaders(g.S, items, bs[i].off, p2, x, y);
    }
  }

  lemma MergeSameFree(items: Items, p: nat, fl: seq<nat>)
    requires p in items && items[p].next in items && items[items[p].next].next in items
    ensures SameFree(items, Merge(items, p), fl)
  {
    forall y | y in fl && y in items
      ensures y in Merge(items, p) && items[y].nextFree == Merge(items, p)[y].nextFree
        && items[y].prevFree == Merge(items, p)[y].prevFree
    {
      MergeAt(items, p, y);
    }
  }

  lemma JoinAtBlocks(bs: seq<Block>, i: nat, fl: seq<nat>)
    requires i + 1 < |bs| && AtBlocks(bs, fl) && bs[i + 1].off !in fl
    ensures AtBlocks(Join(bs, i), fl)
  {
    var r := Join(bs, i);
    JoinAt(bs, i);
    hide Join;
    forall x | x in fl ensures exists k :: 0 <= k < |r| && r[k].off == x {
      var k :| 0 <= k < |bs| && bs[k].off == x;
      assert r[if k <= i then k else k - 1].off == x;
    }
  }

  lemma ListsAtBlocks(bs: seq<Block>, fl: seq<nat>)
    requires ListsFree(bs, fl)
    ensures AtBlocks(bs, fl)
  {
    forall x | x in fl ensures exists k :: 0 <= k < |bs| && bs[k].off == x {
      assert IsFreeBlock(bs, x);
    }
  }

  /** The block before the first of the list is its header. */
  lemma BeforeFirst(r: Ring, fl: seq<nat>)
    requires r.Links(fl)
    ensures r.first != FREE_LIST ==> r.first in r.items && r.items[r.first].prevFree == FREE_LIST
    ensures r.first == FREE_LIST <==> fl == []
    ensures r.last == FREE_LIST <==> fl == []
  {
    if fl != [] {
      assert r.items[fl[0]].prevFree == At(fl, -1, FREE_LIST);
    }
  }
}
