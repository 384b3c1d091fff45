/** The memory heap of memheap.c: a circular list of all blocks and a list of the free ones, linked
    through the same headers.

    Offsets are counted from start_addr; the header of the free list, which lies outside the pool, has
    the address FREE_LIST.  Offset 0 is where the first block starts, so 0 can stand for RT_NULL as the
    result of an allocation. */
module MemoryHeap {
  import opened Sequences
  import opened HeapChain
  import opened HeapSteps
  import opened MemheapChain
  import opened MemheapSteps
  import opened MemheapLinks
  import opened MemheapBytes

  class Memheap {
    const g: Geometry
    const poolSize: nat
    const data: array<Byte>
    var items: Items
    /** free_header.next_free and free_header.prev_free. */
    var first: int
    var last: int
    var available: int
    var maxUsed: int
    /** The chain the block list spells out, and the blocks on the free list. */
    ghost var bs: seq<Block>
    ghost var fl: seq<nat>

    ghost predicate Free()
      reads `items, `first, `last, `fl
    {
      Ring(items, first, last).Links(fl) && Distinct(fl)
    }

    ghost predicate Linked()
      reads `items, `first, `last, `bs, `fl
    {
      g.S > 0 && BlockLinks(g, items, bs) && Free()
    }

    ghost predicate Valid()
      reads this
    {
      && g.Valid() && poolSize == data.Length == g.M + 2 * g.S
      && Linked() && Good(g, bs, fl, available)
      && poolSize - available <= maxUsed
    }

    /** rt_memheap_init: one free block and the tail. */
    constructor (g: Geometry)
      requires g.Valid()
      ensures Valid() && this.g == g && bs == [Block(0, g.End(), false)] && fl == [0]
      ensures available == g.M && maxUsed == 2 * g.S && fresh(data)
    {
      this.g := g;
      poolSize := g.M + 2 * g.S;
      data := new Byte[g.M + 2 * g.S];
      available, maxUsed := g.M, 2 * g.S;
      var tail := g.M + g.S;
      items := map[0 := Item(false, tail, tail, FREE_LIST, FREE_LIST), tail := Item(true, 0, 0, NULL, NULL)];
      first, last := 0, 0;
      bs, fl := [Block(0, g.End(), false)], [0];
      new;
      FreeOne(g, bs[0]);
      assert bs[0].off == 0;
      assert IsFreeBlock(bs, 0);
    }

    // ----------------------------------------------------------------------------------------
    // The bytes
    // ----------------------------------------------------------------------------------------

    /** A header at `p` was written: the bytes there are whatever its fields make them. */
    method Imprint(p: nat, ghost keep: set<int>)
      requires Spares(g.S, data.Length, keep, p)
      modifies data
      ensures SameOn(keep, old(data[..]), data[..])
    {
      for k := 0 to g.S
        invariant SameOn(keep, old(data[..]), data[..])
      {
        data[p + k] := *;
      }
    }

    /** No payload byte in use changed, save those from `lo` up to `hi`. */
    twostate predicate Intact(lo: int, hi: int)
      reads this, data
    {
      SameOn(Live(g, old(bs), data.Length, lo, hi), old(data[..]), data[..])
    }

    // ----------------------------------------------------------------------------------------
    // The free list
    // ----------------------------------------------------------------------------------------

    method SetNextFree(p: int, v: int, ghost keep: set<int>)
      requires p == FREE_LIST || (p in items && Spares(g.S, data.Length, keep, p))
      modifies this`items, this`first, data
      ensures Ring(items, first, last) == Ring(old(items), old(first), last).SetNextFree(p, v)
      ensures SameOn(keep, old(data[..]), data[..])
    {
      if p == FREE_LIST {
        first := v;
      } else {
        items := items[p := items[p].(nextFree := v)];
        Imprint(p, keep);
      }
    }

    method SetPrevFree(p: int, v: int, ghost keep: set<int>)
      requires p == FREE_LIST || (p in items && Spares(g.S, data.Length, keep, p))
      modifies this`items, this`last, data
      ensures Ring(items, first, last) == Ring(old(items), first, old(last)).SetPrevFree(p, v)
      ensures SameOn(keep, old(data[..]), data[..])
    {
      if p == FREE_LIST {
        last := v;
      } else {
        items := items[p := items[p].(prevFree := v)];
        Imprint(p, keep);
      }
    }

    /** Block `p` leaves the free list. */
    method UnlinkFree(p: nat, ghost keep: set<int>)
      requires Linked() && p in fl && AllSpare(g, data.Length, keep, bs, fl)
      modifies this`items, this`first, this`last, this`fl, data
      ensures Linked() && items.Keys == old(items).Keys && fl == Removed(old(fl), p)
        && forall x :: x in fl <==> x in old(fl) && x != p
      ensures AllSpare(g, data.Length, keep, bs, fl) && SameOn(keep, old(data[..]), data[..])
    {
      hide BlockLinks, Removed, Distinct, Ring.Links, SameBlocks, Spares;
      ghost var r := Ring(items, first, last);
      ghost var j := UnlinkMeans(g, r, bs, fl, p);
      EntrySpares(g, data.Length, keep, bs, fl, j + 1);
      EntrySpares(g, data.Length, keep, bs, fl, j as int - 1);
      var n, q := items[p].nextFree, items[p].prevFree;
      SetPrevFree(n, q, keep);
      SetNextFree(q, n, keep);
      assert Ring(items, first, last) == Unlink(r, fl, j);
      fl := Removed(fl, p);
    }

    /** Block `p` becomes the first of the free list. */
    method PushFree(p: nat, ghost keep: set<int>)
      requires Linked() && p in items && p !in fl && AllSpare(g, data.Length, keep, bs, fl)
        && Spares(g.S, data.Length, keep, p)
      modifies this`items, this`first, this`last, this`fl, data
      ensures Linked() && fl == [p] + old(fl)
      ensures AllSpare(g, data.Length, keep, bs, fl) && SameOn(keep, old(data[..]), data[..])
    {
      hide BlockLinks, Distinct, Ring.Links, SameBlocks, Spares;
      ghost var r := Ring(items, first, last);
      PushMeans(g, r, bs, fl, p);
      FreeHead();
      EntrySpares(g, data.Length, keep, bs, fl, 0);
      var n := first;
      items := items[p := items[p].(nextFree := n, prevFree := FREE_LIST)];
      Imprint(p, keep);
      SetPrevFree(n, p, keep);
      SetNextFree(FREE_LIST, p, keep);
      assert Ring(items, first, last) == PushFront(r, fl, p);
      fl := [p] + fl;
    }

    /** Block `p` is inserted in front of the first free block, the way rt_memheap_free does it. */
    method InsertFree(p: nat, ghost keep: set<int>)
      requires Linked() && p in items && p !in fl && AllSpare(g, data.Length, keep, bs, fl)
        && Spares(g.S, data.Length, keep, p)
      modifies this`items, this`first, this`last, this`fl, data
      ensures Linked() && fl == [p] + old(fl)
      ensures AllSpare(g, data.Length, keep, bs, fl) && SameOn(keep, old(data[..]), data[..])
    {
      hide BlockLinks, Distinct, Ring.Links, SameBlocks, Spares;
      ghost var r := Ring(items, first, last);
      PushMeans(g, r, bs, fl, p);
      BeforeFirst(r, fl);
      FreeHead();
      EntrySpares(g, data.Length, keep, bs, fl, 0);
      var n := first;
      var q := if n == FREE_LIST then last else items[n].prevFree;
      items := items[p := items[p].(nextFree := n, prevFree := q)];
      Imprint(p, keep);
      SetNextFree(q, p, keep);
      SetPrevFree(n, p, keep);
      assert Ring(items, first, last) == PushFront(r, fl, p);
      fl := [p] + fl;
    }

    // ----------------------------------------------------------------------------------------
    // The block list
    // ----------------------------------------------------------------------------------------

    /** A free block is cut out of block `i`; its header destroys any it overlaps. */
    method CutBlock(p: nat, p2: nat, ghost i: nat, ghost keep: set<int>)
      requires Linked() && AtBlocks(bs, fl) && i < |bs| && bs[i].off == p && p + g.S <= p2 && p2 + g.S <= bs[i].next
      requires AllSpare(g, data.Length, keep, bs, fl) && Spares(g.S, data.Length, keep, p2)
      modifies this`items, this`bs, data
      ensures Linked() && bs == Split(old(bs), i, p2) && p2 in items && p in items
      ensures AllSpare(g, data.Length, keep, bs, fl) && SameOn(keep, old(data[..]), data[..])
    {
      hide BlockLinks, Distinct, Ring.Links, Split, SameFree, AtBlocks, Spares, AllSpare;
      CutMeans(g, Ring(items, first, last), bs, fl, i, p2);
      SparesAround(i, keep);
      SplitSpares(g, data.Length, keep, bs, fl, i, p2);
      ghost var c := items;
      var n := items[p].next;
      items := Put(g.S, items, p2, Item(false, n, p, NULL, NULL));
      Imprint(p2, keep);
      items := items[n := items[n].(prev := p2)];
      Imprint(n, keep);
      items := items[p := items[p].(next := p2)];
      Imprint(p, keep);
      assert items == Cut(g.S, c, p, p2, Item(false, 0, 0, NULL, NULL));
      bs := Split(bs, i, p2);
    }

    lemma SparesAround(i: nat, keep: set<int>)
      requires Linked() && i < |bs| && AllSpare(g, data.Length, keep, bs, fl)
      ensures Spares(g.S, data.Length, keep, bs[i].off) && Spares(g.S, data.Length, keep, bs[i].next)
      ensures i + 1 < |bs| ==> bs[i].next == bs[i + 1].off && Spares(g.S, data.Length, keep, bs[i + 1].next)
    {
      BlockSpares(g, data.Length, keep, bs, fl, i);
      if i + 1 < |bs| {
        BlockSpares(g, data.Length, keep, bs, fl, i + 1);
      }
    }

    /** Block `i` takes in its successor, as far as the block list is concerned. */
    method MergeNext(p: nat, ghost i: nat, ghost keep: set<int>)
      requires Linked() && i + 1 < |bs| && bs[i].off == p && AllSpare(g, data.Length, keep, bs, fl)
      modifies this`items, this`bs, data
      ensures Linked() && bs == Join(old(bs), i) && p in items
      ensures AllSpare(g, data.Length, keep, bs, fl) && SameOn(keep, old(data[..]), data[..])
    {
      hide BlockLinks, Distinct, Ring.Links, Join, SameFree, Spares, AllSpare;
      ReadSuccessor(i);
      MergeMeans(g, Ring(items, first, last), bs, fl, i);
      SparesAround(i, keep);
      JoinSpares(g, data.Length, keep, bs, fl, i);
      ghost var c := items;
      var n := items[p].next;
      var m := items[n].next;
      items := items[m := items[m].(prev := p)];
      Imprint(m, keep);
      items := items[p := items[p].(next := m)];
      Imprint(p, keep);
      assert items == Merge(c, p);
      bs := Join(bs, i);
    }

    lemma ReadSuccessor(i: nat)
      requires Linked() && i + 1 < |bs|
      ensures bs[i].off in items && items[bs[i].off].next == bs[i].next
      ensures bs[i].next in items && items[bs[i].next].next == bs[i + 1].next
    {
      ReadAround(g, items, bs, i);
    }

    method MarkBlock(p: nat, u: bool, ghost i: nat, ghost keep: set<int>)
      requires Linked() && i < |bs| && bs[i].off == p && AllSpare(g, data.Length, keep, bs, fl)
      modifies this`items, this`bs, data
      ensures Linked() && bs == Mark(old(bs), i, u)
      ensures AllSpare(g, data.Length, keep, bs, fl) && SameOn(keep, old(data[..]), data[..])
    {
      hide BlockLinks, Distinct, Ring.Links, SameFree, Spares;
      MarkMeans(g, Ring(items, first, last), bs, fl, i, u);
      items := items[p := items[p].(used := u)];
      Imprint(p, keep);
      bs := Mark(bs, i, u);
    }

    // ----------------------------------------------------------------------------------------
    // rt_memheap_alloc
    // ----------------------------------------------------------------------------------------

    /** The search of rt_memheap_alloc along the free list. */
    method Search(n: nat) returns (p: int, size: int, ghost i: nat)
      requires Linked() && ListsFree(bs, fl) && n > 0
      ensures size >= n ==>
        i < |bs| && p == bs[i].off && Fits(g, bs[i], n) && size == Room(g, bs[i]) && FirstOnList(g, bs, fl, i, n)
      ensures size < n ==> forall k :: 0 <= k < |bs| ==> !Fits(g, bs[k], n)
    {
      hide Linked, ListsFree;
      FreeHead();
      size := 0;
      p := first;
      i := 0;
      ghost var j := 0;
      while p != FREE_LIST && size < n
        invariant j <= |fl| && p == At(fl, j, FREE_LIST)
        invariant size < n ==> forall k :: 0 <= k < j ==> TooSmall(g, bs, fl[k], n)
        invariant size >= n ==>
          i < |bs| && p == bs[i].off && Fits(g, bs[i], n) && size == Room(g, bs[i]) && FirstOnList(g, bs, fl, i, n)
        decreases |fl| - j, n - size
      {
        i := ReadFree(j);
        size := items[p].next - p - g.S;
        if size < n {
          p := items[p].nextFree;
          j := j + 1;
        }
      }
      if size < n {
        NoneFits(g, bs, fl, n);
      }
    }

    lemma FreeHead()
      requires Linked()
      ensures first == At(fl, 0, FREE_LIST)
    {}

    /** What is read of the `j`-th block on the free list. */
    lemma ReadFree(j: nat) returns (i: nat)
      requires Linked() && ListsFree(bs, fl) && j < |fl|
      ensures i < |bs| && bs[i].off == fl[j] && !bs[i].used && fl[j] in items && items[fl[j]].next == bs[i].next
      ensures items[fl[j]].nextFree == At(fl, j + 1, FREE_LIST)
      ensures forall k :: 0 <= k < |bs| && bs[k].off == fl[j] ==> k == i
    {
      assert fl[j] in fl;
      assert IsFreeBlock(bs, fl[j]);
      i :| 0 <= i < |bs| && bs[i].off == fl[j] && !bs[i].used;
      ReadAround(g, items, bs, i);
      assert items[fl[j]].nextFree == At(fl, j + 1, FREE_LIST);
      forall k | 0 <= k < |bs| && k != i ensures bs[k].off != fl[j] {
        OffsDiffer(g, bs, k, i);
      }
    }

    twostate predicate Unchanged()
      reads this, data
    {
      && data[..] == old(data[..]) && items == old(items) && bs == old(bs) && fl == old(fl) && first == old(first)
      && last == old(last)
      && available == old(available) && maxUsed == old(maxUsed)
    }

    /** Block `i` was allocated for `n` bytes. */
    twostate predicate Allocated(i: nat, n: nat)
      requires i < |old(bs)|
      reads this, data
    {
      && bs == AllocAt(g, old(bs), i, n) && fl == AllocList(g, old(bs), old(fl), i, n)
      && available == old(available) - (if Splits(g, old(bs)[i], n) then n + g.S else Room(g, old(bs)[i]))
      && maxUsed == Larger(old(maxUsed), poolSize - available) && Intact(0, 0)
    }

    /** The lists change as block `i` is allocated. */
    method TakeBlock(p: nat, size: nat, n: nat, ghost i: nat)
      requires Linked() && Chain(g, bs) && ListsFree(bs, fl) && g.Valid() && data.Length == g.M + 2 * g.S
      requires i < |bs| && bs[i].off == p && Fits(g, bs[i], n) && size == Room(g, bs[i])
      modifies this, data
      ensures Linked() && Allocated(i, n)
    {
      hide Linked, ListsFree, Splits, Room, IsFreeBlock, CutAt, Chain, Geometry.Valid, Geometry.Min, Fits, Split,
        AtBlocks, AllSpare, Spares, Live;
      TakeMeans(g, bs, fl, i, n);
      ghost var keep := Live(g, bs, data.Length, 0, 0);
      HeadersSpare(g, bs, fl, data.Length, 0, 0);
      if size >= n + g.S + g.Min() {
        var p2 := p + n + g.S;
        TakeSpares(g, bs, data.Length, i, n);
        CutBlock(p, p2, i, keep);
        UnlinkFree(p, keep);
        PushFree(p2, keep);
        available := available - n - g.S;
      } else {
        available := available - size;
        UnlinkFree(p, keep);
      }
      if poolSize - available > maxUsed {
        maxUsed := poolSize - available;
      }
      MarkBlock(p, true, i, keep);
    }

    /** What a request for `n` bytes returns and does; `j` is the block taken. */
    twostate predicate AllocDone(n: nat, p: nat, j: nat)
      reads this, data
    {
      if p == 0 then
        Unchanged() && (n < old(available) ==> forall k :: 0 <= k < |bs| ==> !Fits(g, bs[k], n))
      else
        && n < old(available) && j < |old(bs)| && p == old(bs)[j].off + g.S
        && FirstOnList(g, old(bs), old(fl), j, n) && Allocated(j, n)
    }

    /** rt_memheap_alloc: the first block on the free list that fits is taken.  RT_NULL means that none
        fits, or that the request would use up everything that is left. */
    method Alloc(size: nat) returns (p: nat, ghost i: nat)
      requires Valid()
      modifies this, data
      ensures Valid() && AllocDone(Need(g, size), p, i)
      ensures p != 0 <==> CanTake(g, old(bs), size, old(available))
      ensures p == 0 ==> Unchanged()
      ensures p != 0 ==> i < |old(bs)| && p == old(bs)[i].off + g.S && exists k: nat ::
        FirstListed(g, old(bs), old(fl), size, i, k) && TakenAt(g, old(bs), i, k, bs)
    {
      TakenIffServed(g, bs, size, available);
      hide Linked, Fits, FirstOnList, Room, Splits, Need, Aligned, Good, Chain, CanTake, FirstListed, TakenAt,
        AllocAt, AllocList;
      var n := Need(g, size);
      i := 0;
      if n < available {
        GoodLists(g, bs, fl, available);
        var q, free;
        q, free, i := Search(n);
        if free >= n {
          AllocGood(g, bs, fl, available, i, n);
          ListedFirst(g, bs, fl, size, i);
          AllocTakes(g, bs, i, n);
          TakeBlock(q, free, n, i);
          return q + g.S, i;
        }
      }
      p := 0;
    }

    // ----------------------------------------------------------------------------------------
    // rt_memheap_free
    // ----------------------------------------------------------------------------------------

    /** `ptr` is what an allocation returned for block `i`, which is still in use. */
    ghost predicate Owns(ptr: nat, i: nat)
      reads `bs
    {
      i < |bs| && bs[i].used && ptr == bs[i].off + g.S
    }

    /** The used block `i` was freed. */
    twostate predicate Freed(i: nat)
      requires i < |old(bs)|
      reads this, data
    {
      && bs == FreeAt(old(bs), i) && fl == FreeList(old(bs), old(fl), i) && maxUsed == old(maxUsed)
      && available == old(available) + (old(bs)[i].next - old(bs)[i].off - g.S)
        + (if LeftFree(old(bs), i) then g.S else 0) + (if RightFree(old(bs), i) then g.S else 0)
      && Intact(old(bs)[i].off + g.S, old(bs)[i].next)
    }

    /** The merge with a free left neighbour, which keeps its place on the free list: the block, its
        index and whether it is still to be inserted there. */
    method MergeLeft(p: nat, ghost i: nat, ghost keep: set<int>) returns (h: nat, insert: bool, ghost k: nat)
      requires Linked() && i < |bs| && bs[i].off == p && AllSpare(g, data.Length, keep, bs, fl)
      modifies this`items, this`bs, this`available, data
      ensures Linked() && insert == !LeftFree(old(bs), i) && bs == (if insert then old(bs) else Join(old(bs), i - 1))
      ensures k == (if insert then i else i - 1) && k < |bs| && bs[k].off == h && h in items && (insert ==> h == p)
      ensures available == old(available) + if insert then 0 else g.S
      ensures AllSpare(g, data.Length, keep, bs, fl) && SameOn(keep, old(data[..]), data[..])
    {
      hide BlockLinks, Distinct, Ring.Links, Join, AllSpare;
      ReadAround(g, items, bs, i);
      var q := items[p].prev;
      if !items[q].used {
        available := available + g.S;
        JoinAt(bs, i - 1);
        MergeNext(q, i - 1, keep);
        h, insert, k := q, false, i - 1;
      } else {
        h, insert, k := p, true, i;
      }
    }

    /** The merge with a free right neighbour, which leaves the free list. */
    method MergeRight(h: nat, ghost k: nat, ghost keep: set<int>)
      requires Linked() && k < |bs| && bs[k].off == h && (RightFree(bs, k) ==> bs[k + 1].off in fl)
      requires AllSpare(g, data.Length, keep, bs, fl)
      modifies this`items, this`first, this`last, this`bs, this`fl, this`available, data
      ensures Linked() && h in items && bs == if RightFree(old(bs), k) then Join(old(bs), k) else old(bs)
      ensures RightFree(old(bs), k) ==> fl == Removed(old(fl), old(bs)[k + 1].off)
      ensures !RightFree(old(bs), k) ==> fl == old(fl)
      ensures forall x :: x in fl ==> x in old(fl)
      ensures available == old(available) + if RightFree(old(bs), k) then g.S else 0
      ensures AllSpare(g, data.Length, keep, bs, fl) && SameOn(keep, old(data[..]), data[..])
    {
      hide BlockLinks, Distinct, Ring.Links, Join, Removed, AllSpare;
      ReadAround(g, items, bs, k);
      var q := items[h].next;
      if !items[q].used {
        available := available + g.S;
        MergeNext(h, k, keep);
        UnlinkFree(q, keep);
      }
    }

    method FreeBlock(p: nat, ghost i: nat)
      requires Valid() && i < |bs| && bs[i].used && bs[i].off == p
      modifies this, data
      ensures Valid() && Freed(i)
    {
      hide BlockLinks, Distinct, Ring.Links, Good, ListsFree, Join, Removed, FreeAt, FreeLeftFirst, LeftFree,
        RightFree, Mark, AllSpare, Spares, Live;
      TakesSpace(g);
      FreeGood(g, bs, fl, available, i);
      FreeLeftFirstIs(bs, i);
      ReleaseMeans(g, bs, fl, available, i);
      hide Geometry.Valid;
      ghost var keep := Live(g, bs, data.Length, p + g.S, bs[i].next);
      GoodSpares(p + g.S, bs[i].next, keep);
      SparesAround(i, keep);
      MarkBlock(p, false, i, keep);
      ReadNext(p, i);
      available := available + (items[p].next - p - g.S);
      var h, insert;
      ghost var k;
      h, insert, k := MergeLeft(p, i, keep);
      MergeRight(h, k, keep);
      if insert {
        InsertFree(h, keep);
      }
    }

    lemma GoodSpares(lo: int, hi: int, keep: set<int>)
      requires Valid() && keep == Live(g, bs, data.Length, lo, hi)
      ensures AllSpare(g, data.Length, keep, bs, fl)
    {
      ListsAtBlocks(bs, fl);
      HeadersSpare(g, bs, fl, data.Length, lo, hi);
    }

    lemma NewSpares(i: nat, p2: int)
      requires Valid() && i + 1 < |bs| && !bs[i + 1].used && bs[i].next <= p2 && p2 + g.S <= bs[i + 1].next
      ensures Spares(g.S, data.Length, Live(g, bs, data.Length, 0, 0), p2)
    {
      GrowSpares(g, bs, data.Length, i, p2);
    }

    lemma RestSpares(i: nat, p2: nat)
      requires Valid() && i < |bs| && p2 + g.S <= bs[i].next
      ensures Spares(g.S, data.Length, Live(g, bs, data.Length, p2, bs[i].next), p2)
    {
      ShrinkSpares(g, bs, data.Length, i, p2);
    }

    lemma ReadNext(p: nat, i: nat)
      requires Linked() && i < |bs| && bs[i].off == p
      ensures p in items && items[p].next == bs[i].next && bs[i].next in items
    {
      ReadAround(g, items, bs, i);
    }

    /** rt_memheap_free, of RT_NULL or of a block in use. */
    method FreePtr(ptr: nat, ghost i: nat)
      requires Valid() && (ptr != 0 ==> Owns(ptr, i))
      modifies this, data
      ensures Valid()
      ensures if ptr == 0 then Unchanged() else Freed(i) && FreedAt(old(bs), i, bs)
    {
      hide Memheap.Valid, FreedAt, FreeAt, FreeList, LeftFree, RightFree;
      if ptr != 0 {
        FreeJoins(bs, i);
        FreeBlock(ptr - g.S, i);
      }
    }

    // ----------------------------------------------------------------------------------------
    // rt_memheap_realloc
    // ----------------------------------------------------------------------------------------

    /** The used block `i` grew to `n` bytes, at the cost of its free successor. */
    twostate predicate Grown(i: nat, n: nat)
      requires i + 1 < |old(bs)|
      reads this, data
    {
      var cut := old(bs)[i].off + g.S + n;
      && bs == Shift(old(bs), i, cut) && fl == [cut] + Removed(old(fl), old(bs)[i + 1].off)
      && available == old(available) - (cut - old(bs)[i].next)
      && maxUsed == Larger(old(maxUsed), poolSize - available) && Intact(0, 0)
    }

    /** Growing in place.  The new header may overlap the one of the free block it replaces: from then on
        the old one cannot be read any more. */
    method GrowBlock(p: nat, n: nat, ghost i: nat)
      requires Valid() && i + 1 < |bs| && bs[i].used && bs[i].off == p && !bs[i + 1].used && Aligned(n)
      requires bs[i].next <= p + g.S + n && p + g.S + n + g.S <= bs[i + 1].next
      modifies this, data
      ensures Valid() && Grown(i, n) && GrownAt(g, old(bs), i, n, bs)
    {
      hide GrownAt, BlockLinks, Distinct, Ring.Links, Good, ListsFree, Join, Removed, Shift, Split, Aligned, AtBlocks,
        AllSpare, Spares, Live;
      GrowGood(g, bs, fl, available, i, n);
      ShiftGrows(g, bs, i, n);
      GrowMeans(g, bs, fl, available, i, n);
      ghost var keep := Live(g, bs, data.Length, 0, 0);
      GoodSpares(0, 0, keep);
      NewSpares(i, p + g.S + n);
      hide Geometry.Valid;
      ReadNext(p, i);
      ghost var fl0 := fl;
      var q := items[p].next;
      available := available - (n - (q - p - g.S));
      if poolSize - available > maxUsed {
        maxUsed := poolSize - available;
      }
      UnlinkFree(q, keep);
      MergeNext(p, i, keep);
      var p2 := p + g.S + n;
      CutBlock(p, p2, i, keep);
      PushFree(p2, keep);
    }

    /** The used block `i` was cut down to `n` bytes. */
    twostate predicate Shrunk(i: nat, n: nat)
      requires i < |old(bs)|
      reads this, data
    {
      var cut, merged := old(bs)[i].off + g.S + n, RightFree(old(bs), i);
      && bs == ShrinkAt(g, old(bs), i, n)
      && fl == [cut] + (if merged then Removed(old(fl), old(bs)[i + 1].off) else old(fl))
      && available == old(available) + (old(bs)[i].next - cut - g.S) + (if merged then g.S else 0)
      && maxUsed == old(maxUsed) && Intact(cut, old(bs)[i].next)
    }

    method ShrinkBlock(p: nat, n: nat, ghost i: nat)
      requires Valid() && i < |bs| && bs[i].used && bs[i].off == p && Aligned(n) && p + g.S + n + g.S <= bs[i].next
      modifies this, data
      ensures Valid() && Shrunk(i, n) && ShrunkAt(g, old(bs), i, n, bs)
    {
      hide ShrunkAt, BlockLinks, Distinct, Ring.Links, Good, ListsFree, Join, Removed, Split, Aligned, AtBlocks,
        ShrinkAt, RightFree, AllSpare, Spares, Live;
      ShrinkGood(g, bs, fl, available, i, n);
      ShrinkReturns(g, bs, i, n);
      ShrinkMeans(g, bs, fl, available, i, n);
      var p2 := p + n + g.S;
      ghost var keep := Live(g, bs, data.Length, p2, bs[i].next);
      GoodSpares(p2, bs[i].next, keep);
      RestSpares(i, p2);
      hide Geometry.Valid;
      CutBlock(p, p2, i, keep);
      ReadRight(p2, i + 1);
      var free := items[p2].next;
      if !items[free].used {
        available := available - (items[free].next - free - g.S);
        MergeNext(p2, i + 1, keep);
        UnlinkFree(free, keep);
      }
      ReadRight(p2, i + 1);
      PushFree(p2, keep);
      ReadRight(p2, i + 1);
      available := available + (items[p2].next - p2 - g.S);
    }

    lemma ReadRight(p: nat, i: nat)
      requires Linked() && i < |bs| && bs[i].off == p
      ensures p in items && items[p].next == bs[i].next && bs[i].next in items
        && items[bs[i].next].used == !RightFree(bs, i)
      ensures RightFree(bs, i) ==>
        i + 1 < |bs| && bs[i].next == bs[i + 1].off && items[bs[i].next].next == bs[i + 1].next
    {
      ReadAround(g, items, bs, i);
    }

    /** Block `i` moved to block `j`, newly allocated for `n` bytes, with its first `len` bytes. */
    twostate predicate Moved(i: nat, n: nat, len: int, p: nat, j: nat)
      requires i < |old(bs)|
      reads this, data
    {
      && n < old(available) && j < |old(bs)| && p == old(bs)[j].off + g.S && FirstOnList(g, old(bs), old(fl), j, n)
      && (var grown, f, k := AllocAt(g, old(bs), j, n), AllocList(g, old(bs), old(fl), j, n),
          Shifted(g, old(bs), j, n, i);
        && k < |grown| && bs == FreeAt(grown, k) && fl == FreeList(grown, f, k)
        && maxUsed == Larger(old(maxUsed), poolSize - FreeBytes(g, grown)))
      && var ptr := old(bs)[i].off + g.S;
        && Intact(ptr, old(bs)[i].next)
        && 0 <= len && p + len <= data.Length && ptr + len <= data.Length
        && data[p..p + len] == old(data[ptr..ptr + len])
    }

    /** rt_memcpy, of bytes that do not overlap their destination. */
    method CopyBytes(dst: nat, src: nat, len: nat)
      requires dst + len <= data.Length && src + len <= data.Length && (src + len <= dst || dst + len <= src)
      modifies data
      ensures Copied(old(data[..]), data[..], dst, src, len)
    {
      for k := 0 to len
        invariant forall x :: dst <= x < dst + k ==> data[x] == old(data[src + (x - dst)])
        invariant forall x :: 0 <= x < dst || dst + k <= x < data.Length ==> data[x] == old(data[x])
      {
        data[dst + k] := data[src + k];
      }
    }

    /** Bytes are copied into the payload of block `j`. */
    method CopyInto(dst: nat, src: nat, len: nat, ghost j: nat)
      requires Valid() && Owns(dst, j) && dst + len <= bs[j].next && src + len <= data.Length
        && (src + len <= dst || dst + len <= src)
      modifies this`items, data
      ensures Valid() && Copied(old(data[..]), data[..], dst, src, len)
    {
      PayloadWritable(dst, dst + len, j);
      hide BlockLinks, Ring.Links, Distinct, Good, Copied;
      CopyBytes(dst, src, len);
      items := Erased(g.S, items, dst, dst + len);
    }

    lemma PayloadWritable(lo: nat, hi: nat, j: nat)
      requires Valid() && j < |bs| && bs[j].off + g.S <= lo <= hi <= bs[j].next
      ensures hi <= data.Length
      ensures var c := Erased(g.S, items, lo, hi); BlockLinks(g, c, bs) && Ring(c, first, last).Links(fl)
    {
      ListsAtBlocks(bs, fl);
      PayloadKeepsLinks(g, Ring(items, first, last), bs, fl, j, lo, hi);
    }

    /** The owner of a block writes into its payload. */
    method Store(ptr: nat, k: nat, b: Byte, ghost i: nat)
      requires Valid() && Owns(ptr, i) && ptr + k < bs[i].next
      modifies this`items, data
      ensures Valid() && ptr + k < data.Length && data[..] == old(data[..])[ptr + k := b]
    {
      PayloadWritable(ptr + k, ptr + k + 1, i);
      hide BlockLinks, Ring.Links, Distinct, Good;
      data[ptr + k] := b;
      items := Erased(g.S, items, ptr + k, ptr + k + 1);
    }

    /** Block `i` of the chain `bs0`, when the bytes were `a`, moves to block `j` just allocated. */
    method MoveTo(p: nat, ptr: nat, len: nat, n: nat, ghost bs0: seq<Block>, ghost a: seq<Byte>, ghost i: nat,
                  ghost j: nat)
      requires Valid() && |a| == data.Length && Moving(g, bs0, i, j, n, len) && bs == AllocAt(g, bs0, j, n)
      requires ptr == bs0[i].off + g.S && p == bs0[j].off + g.S && SameOn(Live(g, bs0, |a|, 0, 0), a, data[..])
      modifies this, data
      ensures Valid() && maxUsed == old(maxUsed)
      ensures var k := Shifted(g, bs0, j, n, i);
        k < |old(bs)| && bs == FreeAt(old(bs), k) && fl == FreeList(old(bs), old(fl), k)
      ensures SameOn(Live(g, bs0, |a|, ptr, bs0[i].next), a, data[..])
      ensures p + len <= data.Length && ptr + len <= |a| && data[p..p + len] == a[ptr..ptr + len]
    {
      hide Memheap.Valid, AllocAt, FreeAt, FreeList, Shifted, Live, SameOn, Moving, LeftFree, RightFree, Fits,
        FreeBytes, Chain, Copied;
      MovingMeans(g, bs0, i, j, n, len);
      GoodChain();
      ghost var b := data[..];
      CopyInto(p, ptr, len, j);
      ghost var c := data[..];
      ghost var k := Shifted(g, bs0, j, n, i);
      FreePtr(ptr, k);
      assert Steps(g, bs0, i, j, n, len, a, b, c, data[..]);
      hide Steps;
      BytesMoved(g, bs0, i, j, n, len, a, b, c, data[..]);
    }

    /** The block of `oldsize` bytes is moved, if a new one can be had. */
    method MoveBlock(ptr: nat, oldsize: nat, n: nat, ghost i: nat) returns (p: nat, ghost j: nat)
      requires Valid() && Owns(ptr, i) && Need(g, n) == n && oldsize == bs[i].next - ptr
      modifies this, data
      ensures Valid()
      ensures if p == 0 then AllocDone(n, p, j) else Moved(i, n, if oldsize < n then oldsize else n, p, j)
      ensures p != 0 <==> CanTake(g, old(bs), n, old(available))
      ensures if p == 0 then Unchanged() else MovesOn(g, old(bs), old(fl), n, i, bs, p)
    {
      hide Memheap.Valid, FirstOnList, AllocList, AllocAt, FreeAt, FreeList, Shifted, Need, Larger, Live, SameOn, Fits,
        FreeBytes, CanTake, MovesOn;
      ghost var bs0, fl0 := bs, fl;
      TakenIffServed(g, bs, n, available);
      p, j := MoveOver(ptr, oldsize, n, i);
      if p != 0 {
        ListedMoves(g, bs0, fl0, n, i, j);
      }
    }

    method MoveOver(ptr: nat, oldsize: nat, n: nat, ghost i: nat) returns (p: nat, ghost j: nat)
      requires Valid() && Owns(ptr, i) && Need(g, n) == n && oldsize == bs[i].next - ptr
      modifies this, data
      ensures Valid()
      ensures if p == 0 then AllocDone(n, p, j) else Moved(i, n, if oldsize < n then oldsize else n, p, j)
    {
      hide Memheap.Valid, FirstOnList, AllocList, AllocAt, FreeAt, FreeList, Shifted, Need, Fits, Room, Splits, Larger,
        Live, SameOn, Moving, Chain, FreeBytes, CanTake, FirstListed, TakenAt;
      ghost var bs0, fl0, a := bs, fl, data[..];
      ReadBoth(i);
      GoodChain();
      p, j := Alloc(n);
      if p != 0 {
        GoodChain();
        var len := if oldsize < n then oldsize else n;
        CanMove(g, bs0, fl0, i, j, n, len);
        MoveTo(p, ptr, len, n, bs0, a, i, j);
      }
    }

    lemma GoodChain()
      requires Valid()
      ensures Chain(g, bs) && data.Length == g.M + 2 * g.S && g.S > 0 && available == FreeBytes(g, bs)
    {
      GoodFree(g, bs, fl, available);
    }

    /** What rt_memheap_realloc of the block `i` at `ptr` to `n` bytes returns and does. */
    twostate predicate Resized(ptr: nat, i: nat, n: nat, p: nat, j: nat)
      requires i < |old(bs)|
      reads this, data
    {
      var oldsize := old(bs)[i].next - ptr;
      if n > oldsize && RightFree(old(bs), i) && Room(g, old(bs)[i + 1]) + oldsize > n + g.Min() then
        p == ptr && Grown(i, n)
      else if n > oldsize then
        if p == 0 then AllocDone(n, p, j) else Moved(i, n, oldsize, p, j)
      else if n + g.S + g.Min() >= oldsize then
        p == ptr && Unchanged()
      else
        p == ptr && Shrunk(i, n)
    }

    /** However a block is resized, the bytes up to the smaller of the two sizes come along, and no
        payload byte of another block changes. */
    twostate lemma ResizeKeepsBytes(ptr: nat, i: nat, n: nat, p: nat, j: nat)
      requires old(Valid()) && old(Owns(ptr, i)) && Resized(ptr, i, n, p, j)
      ensures Intact(ptr, old(bs)[i].next)
      ensures var size := old(bs)[i].next - ptr; var len := if size < n then size else n;
        p != 0 ==>
          0 <= len && p + len <= data.Length && ptr + len <= data.Length
          && data[p..p + len] == old(data[ptr..ptr + len])
    {
      hide Linked, Good, AllocAt, FreeAt, FreeList, AllocList, FirstOnList, Shift, ShrinkAt, Room, FreeBytes, Chain,
        Shifted, RightFree, Removed, Live, SameOn, Larger, Geometry.Min, Allocated, Fits, Geometry.Valid, Splits;
      Span(g, old(bs), old(fl), old(available), i);
      if p == ptr && Intact(0, 0) {
        BytesStay(g, old(bs), i, n, 0, 0, old(data[..]), data[..]);
      } else if p == ptr && Intact(ptr + n, old(bs)[i].next) {
        BytesStay(g, old(bs), i, n, ptr + n, old(bs)[i].next, old(data[..]), data[..]);
      }
      AllSame(Live(g, old(bs), data.Length, ptr, old(bs)[i].next), old(data[..]), data[..]);
    }

    /** A block that is too small grows in place, if its free successor is large enough, or moves; one that is
        much too large is cut; any other stays. */
    twostate predicate Refitted(ptr: nat, i: nat, n: nat, p: nat)
      requires i < |old(bs)|
      reads this, data
    {
      var room, least := old(bs)[i].next - ptr, AlignUp(g.RAW);
      var grows := i + 1 < |old(bs)| && !old(bs)[i + 1].used
        && old(bs)[i + 1].next - old(bs)[i + 1].off - g.S + room > n + least;
      && (n <= room <= n + g.S + least ==> p == ptr && Unchanged())
      && (room > n + g.S + least ==> p == ptr && ShrunkAt(g, old(bs), i, n, bs))
      && (n > room && grows ==> p == ptr && GrownAt(g, old(bs), i, n, bs))
      && (n > room && !grows ==>
            && (p != 0 <==> CanTake(g, old(bs), n, old(available)))
            && if p == 0 then Unchanged() else MovesOn(g, old(bs), old(fl), n, i, bs, p))
    }

    method Resize(ptr: nat, n: nat, ghost i: nat) returns (p: nat, ghost j: nat)
      requires Valid() && Owns(ptr, i) && Need(g, n) == n && Aligned(n)
      modifies this, data
      ensures Valid() && Resized(ptr, i, n, p, j) && Refitted(ptr, i, n, p)
    {
      hide Memheap.Valid, FirstOnList, Need, Grown, Moved, Shrunk, AllocDone, Aligned, CanTake, MovesOn,
        ShrunkAt, GrownAt;
      ReadBoth(i);
      j := 0;
      var h := ptr - g.S;
      var oldsize := items[h].next - h - g.S;
      if n > oldsize {
        var q := items[h].next;
        if !items[q].used {
          if items[q].next - q - g.S + oldsize > n + g.Min() {
            GrowBlock(h, n, i);
            return ptr, j;
          }
        }
        p, j := MoveBlock(ptr, oldsize, n, i);
        return;
      }
      if n + g.S + g.Min() >= oldsize {
        return ptr, j;
      }
      ShrinkBlock(h, n, i);
      p := ptr;
    }

    lemma ReadBoth(i: nat)
      requires Valid() && i < |bs|
      ensures bs[i].off in items && items[bs[i].off].next == bs[i].next && bs[i].off + g.S <= bs[i].next
      ensures bs[i].next in items && items[bs[i].next].used == !RightFree(bs, i)
      ensures RightFree(bs, i) ==> bs[i].next == bs[i + 1].off && items[bs[i].next].next == bs[i + 1].next
    {
      ReadAround(g, items, bs, i);
    }

    /** rt_memheap_realloc. */
    method Realloc(ptr: nat, newsize: nat, ghost i: nat) returns (p: nat, ghost j: nat)
      requires Valid() && (ptr != 0 ==> Owns(ptr, i))
      modifies this, data
      ensures Valid()
      ensures newsize == 0 ==> p == 0 && if ptr == 0 then Unchanged() else Freed(i)
      ensures newsize != 0 && ptr == 0 ==> AllocDone(Need(g, newsize), p, j)
      ensures newsize != 0 && ptr != 0 ==> Resized(ptr, i, Need(g, newsize), p, j)
      ensures newsize == 0 && ptr != 0 ==> FreedAt(old(bs), i, bs)
      ensures newsize != 0 && ptr == 0 ==>
        forall n: nat :: IsLeastSize(g, newsize, n) ==> (p != 0 <==> CanTake(g, old(bs), n, old(available)))
      ensures newsize != 0 && ptr != 0 ==>
        forall n: nat :: IsLeastSize(g, newsize, n) ==> Refitted(ptr, i, n, p)
    {
      hide Memheap.Valid, Freed, Need, Resized, AllocDone, Aligned, IsLeastSize, FreedAt, CanTake, Memheap.Refitted,
        FirstListed, TakenAt;
      forall n: nat | IsLeastSize(g, newsize, n) ensures n == Need(g, newsize) {
        LeastIsUnique(g, newsize, n);
      }
      j := 0;
      if newsize == 0 {
        FreePtr(ptr, i);
        return 0, j;
      }
      var n := Need(g, newsize);
      NeedTwice(g, newsize);
      if ptr == 0 {
        p, j := Alloc(n);
      } else {
        p, j := Resize(ptr, n, i);
      }
    }
  }

  lemma UnlinkMeans(g: Geometry, r: Ring, bs: seq<Block>, fl: seq<nat>, p: nat) returns (j: nat)
    requires BlockLinks(g, r.items, bs) && r.Links(fl) && Distinct(fl) && p in fl
    ensures j < |fl| && fl[j] == p && p in r.items
    ensures r.items[p].nextFree == At(fl, j + 1, FREE_LIST) && r.items[p].prevFree == At(fl, j - 1, FREE_LIST)
    ensures At(fl, j + 1, FREE_LIST) == FREE_LIST || At(fl, j + 1, FREE_LIST) in r.items
    ensures At(fl, j - 1, FREE_LIST) == FREE_LIST || At(fl, j - 1, FREE_LIST) in r.items
    ensures Unlink(r, fl, j).Links(Removed(fl, p)) && Distinct(Removed(fl, p))
    ensures BlockLinks(g, Unlink(r, fl, j).items, bs) && Unlink(r, fl, j).items.Keys == r.items.Keys
    ensures forall x :: x in Removed(fl, p) <==> x in fl && x != p
  {
    j :| 0 <= j < |fl| && fl[j] == p;
    assert r.items[fl[j]].nextFree == At(fl, j + 1, FREE_LIST) && r.items[fl[j]].prevFree == At(fl, j - 1, FREE_LIST);
    hide BlockLinks, Unlink;
    UnlinkLinks(r, fl, j);
    RemovedIs(fl, j);
    WithoutIs(fl, j);
    BlockLinksKept(g, r.items, Unlink(r, fl, j).items, bs);
  }

  lemma PushMeans(g: Geometry, r: Ring, bs: seq<Block>, fl: seq<nat>, p: nat)
    requires BlockLinks(g, r.items, bs) && r.Links(fl) && Distinct(fl) && p in r.items && p !in fl
    ensures r.first == FREE_LIST || r.first in r.items
    ensures PushFront(r, fl, p).Links([p] + fl) && Distinct([p] + fl)
    ensures BlockLinks(g, PushFront(r, fl, p).items, bs)
  {
    PushLinks(r, fl, p);
    FrontIs(fl, p);
    BlockLinksKept(g, r.items, PushFront(r, fl, p).items, bs);
    hide BlockLinks, SameBlocks, PushFront;
  }

  lemma CutMeans(g: Geometry, r: Ring, bs: seq<Block>, fl: seq<nat>, i: nat, p2: nat)
    requires g.S > 0 && BlockLinks(g, r.items, bs) && r.Links(fl) && AtBlocks(bs, fl)
    requires i < |bs| && bs[i].off + g.S <= p2 && p2 + g.S <= bs[i].next
    ensures bs[i].off in r.items && r.items[bs[i].off].next == bs[i].next && bs[i].next in r.items
    ensures var c := Cut(g.S, r.items, bs[i].off, p2, Item(false, 0, 0, NULL, NULL));
      BlockLinks(g, c, Split(bs, i, p2)) && r.(items := c).Links(fl)
  {
    ReadAround(g, r.items, bs, i);
    var x := Item(false, 0, 0, NULL, NULL);
    CutLinks(g, r.items, bs, i, p2, x);
    CutSameFree(g, r.items, bs, i, p2, x, fl);
    hide BlockLinks, Cut, Split, SameFree, Ring.Links;
    FreeLinksKept(r, Cut(g.S, r.items, bs[i].off, p2, x), fl);
  }

  lemma MergeMeans(g: Geometry, r: Ring, bs: seq<Block>, fl: seq<nat>, i: nat)
    requires g.S > 0 && BlockLinks(g, r.items, bs) && r.Links(fl) && i + 1 < |bs|
    ensures bs[i].off in r.items && r.items[bs[i].off].next in r.items
      && r.items[r.items[bs[i].off].next].next in r.items
    ensures BlockLinks(g, Merge(r.items, bs[i].off), Join(bs, i)) && r.(items := Merge(r.items, bs[i].off)).Links(fl)
  {
    ReadAround(g, r.items, bs, i);
    MergeLinks(g, r.items, bs, i);
    MergeSameFree(r.items, bs[i].off, fl);
    hide BlockLinks, Merge, Join, SameFree, Ring.Links;
    FreeLinksKept(r, Merge(r.items, bs[i].off), fl);
  }

  lemma MarkMeans(g: Geometry, r: Ring, bs: seq<Block>, fl: seq<nat>, i: nat, u: bool)
    requires g.S > 0 && BlockLinks(g, r.items, bs) && r.Links(fl) && i < |bs|
    ensures bs[i].off in r.items
    ensures var c := r.items[bs[i].off := r.items[bs[i].off].(used := u)];
      BlockLinks(g, c, Mark(bs, i, u)) && r.(items := c).Links(fl)
  {
    ReadAround(g, r.items, bs, i);
    MarkLinks(g, r.items, bs, i, u);
    hide BlockLinks, Mark, Ring.Links;
    FreeLinksKept(r, r.items[bs[i].off := r.items[bs[i].off].(used := u)], fl);
  }

  /** No block at `p` has room for `n` bytes. */
  ghost predicate TooSmall(g: Geometry, bs: seq<Block>, p: nat, n: nat) {
    forall k :: 0 <= k < |bs| && bs[k].off == p ==> !Fits(g, bs[k], n)
  }

  /** Block `i` is the first on the list that has room for `n` bytes. */
  ghost predicate FirstOnList(g: Geometry, bs: seq<Block>, fl: seq<nat>, i: nat, n: nat) {
    && i < |bs| && Fits(g, bs[i], n)
    && exists j :: 0 <= j < |fl| && fl[j] == bs[i].off && forall k :: 0 <= k < j ==> TooSmall(g, bs, fl[k], n)
  }

  lemma ListedFirst(g: Geometry, bs: seq<Block>, fl: seq<nat>, size: nat, i: nat)
    requires FirstOnList(g, bs, fl, i, Need(g, size))
    ensures FirstListed(g, bs, fl, size, i, Need(g, size)) && Fits(g, bs[i], Need(g, size))
  {
    hide Need, IsLeastSize;
    NeedIsLeast(g, size);
    var n := Need(g, size);
    var j :| 0 <= j < |fl| && fl[j] == bs[i].off && forall k :: 0 <= k < j ==> TooSmall(g, bs, fl[k], n);
    forall b | b in bs && b.off in fl[..j] ensures b.used || b.next < b.off + g.S + n {
      var k :| 0 <= k < j && fl[k] == b.off;
      assert TooSmall(g, bs, fl[k], n);
    }
  }

  lemma ListedMoves(g: Geometry, bs: seq<Block>, fl: seq<nat>, n: nat, i: nat, j: nat)
    requires Need(g, n) == n && FirstOnList(g, bs, fl, j, n) && i < |bs| && bs[i].used
    ensures j < |bs| && Fits(g, bs[j], n)
    ensures var mid, i' := AllocAt(g, bs, j, n), Shifted(g, bs, j, n, i);
      i' < |mid| && MovesOn(g, bs, fl, n, i, FreeAt(mid, i'), bs[j].off + g.S)
  {
    ListedFirst(g, bs, fl, n, j);
    MoveOnTakes(g, bs, fl, n, i, j);
  }

  lemma NoneFits(g: Geometry, bs: seq<Block>, fl: seq<nat>, n: nat)
    requires ListsFree(bs, fl) && forall k :: 0 <= k < |fl| ==> TooSmall(g, bs, fl[k], n)
    ensures forall k :: 0 <= k < |bs| ==> !Fits(g, bs[k], n)
  {
    forall k | 0 <= k < |bs| ensures !Fits(g, bs[k], n) {
      if !bs[k].used {
        assert IsFreeBlock(bs, bs[k].off);
        assert bs[k].off in fl;
        var j :| 0 <= j < |fl| && fl[j] == bs[k].off;
        assert TooSmall(g, bs, fl[j], n);
      }
    }
  }

  lemma GoodLists(g: Geometry, bs: seq<Block>, fl: seq<nat>, available: int)
    requires Good(g, bs, fl, available)
    ensures ListsFree(bs, fl) && Chain(g, bs)
  {}

  lemma TakeMeans(g: Geometry, bs: seq<Block>, fl: seq<nat>, i: nat, n: nat)
    requires Chain(g, bs) && ListsFree(bs, fl) && g.Valid() && i < |bs| && Fits(g, bs[i], n)
    ensures g.S > 0 && AtBlocks(bs, fl) && bs[i].off in fl && Room(g, bs[i]) == bs[i].next - bs[i].off - g.S
    ensures Splits(g, bs[i], n) <==> Room(g, bs[i]) >= n + g.S + g.Min()
    ensures var cut := bs[i].off + g.S + n;
      Splits(g, bs[i], n) ==> cut !in fl && bs[i].off + g.S <= cut && cut + g.S <= bs[i].next
    ensures CutAt(g, bs, i, n) == if Splits(g, bs[i], n) then Split(bs, i, bs[i].off + g.S + n) else bs
  {
    hide Geometry.Valid, Geometry.Min, IsFreeBlock, AtBlocks, Split, Chain;
    TakesSpace(g);
    ListsAtBlocks(bs, fl);
    FreeIs(bs, i);
    if Splits(g, bs[i], n) {
      NoneInside(g, bs, i, bs[i].off + g.S + n);
    }
  }

  /** The intermediate chains of a release. */
  lemma ReleaseMeans(g: Geometry, bs: seq<Block>, fl: seq<nat>, available: int, i: nat)
    requires Good(g, bs, fl, available) && i < |bs| && bs[i].used && g.S > 0
    ensures bs[i].off !in fl && bs[i].off + g.S <= bs[i].next
    ensures (RightFree(bs, i) ==> i + 1 < |bs|) && (LeftFree(bs, i) ==> i > 0)
    ensures var m := Mark(bs, i, false);
      && |m| == |bs| && m[i] == bs[i].(used := false) && LeftFree(m, i) == LeftFree(bs, i)
      && RightFree(m, i) == RightFree(bs, i)
      && (RightFree(bs, i) ==> bs[i + 1].off in fl && m[i + 1] == bs[i + 1])
      && (LeftFree(bs, i) ==> var l := Join(m, i - 1);
        |l| == |bs| - 1 && RightFree(l, i - 1) == RightFree(bs, i) && (RightFree(bs, i) ==> l[i] == bs[i + 1]))
    ensures FreeLeftFirst(bs, i) ==
      var m := Mark(bs, i, false);
      var l := if LeftFree(bs, i) then Join(m, i - 1) else m;
      var h := if LeftFree(bs, i) then i - 1 else i;
      if RightFree(bs, i) && h + 1 < |l| then Join(l, h) else l
    ensures FreeList(bs, fl, i) ==
      var f := if RightFree(bs, i) then Removed(fl, bs[i + 1].off) else fl;
      if LeftFree(bs, i) then f else [bs[i].off] + f
  {
    NotFree(g, bs, i);
    if RightFree(bs, i) {
      FreeIs(bs, i + 1);
    }
    hide IsFreeBlock, Chain, Coalesced, AllAligned;
    var m := Mark(bs, i, false);
    if LeftFree(bs, i) {
      JoinAt(m, i - 1);
    }
    hide Join;
  }

  /** The intermediate chains of growing in place. */
  lemma GrowMeans(g: Geometry, bs: seq<Block>, fl: seq<nat>, available: int, i: nat, n: nat)
    requires Good(g, bs, fl, available) && g.Valid() && i + 1 < |bs| && bs[i].used && !bs[i + 1].used
    requires bs[i].off + g.S + n + g.S <= bs[i + 1].next
    ensures bs[i].next == bs[i + 1].off && bs[i + 1].off in fl
    ensures var cut, f := bs[i].off + g.S + n, Removed(fl, bs[i + 1].off);
      && |Join(bs, i)| == |bs| - 1 && Join(bs, i)[i] == bs[i].(next := bs[i + 1].next)
      && AtBlocks(Join(bs, i), f) && Split(Join(bs, i), i, cut) == Shift(bs, i, cut)
      && (cut == bs[i + 1].off || cut !in fl)
      && cut !in f
  {
    var cut, q := bs[i].off + g.S + n, bs[i + 1].off;
    assert bs[i].next == q;
    TakesSpace(g);
    FreeIs(bs, i + 1);
    OnlyAt(g, bs, i, cut);
    ListsAtBlocks(bs, fl);
    RemovedHas(fl, q);
    hide Removed, IsFreeBlock, Chain, Coalesced, AllAligned;
    JoinAt(bs, i);
    LessAtBlocks(bs, fl, Removed(fl, q));
    JoinAtBlocks(bs, i, Removed(fl, q));
    SplitAt(Join(bs, i), i, cut);
    hide Join, Split, AtBlocks;
    var x, y := Split(Join(bs, i), i, cut), Shift(bs, i, cut);
    assert |x| == |y| && forall k :: 0 <= k < |x| ==> x[k] == y[k];
  }

  lemma LessAtBlocks(bs: seq<Block>, fl: seq<nat>, fl': seq<nat>)
    requires AtBlocks(bs, fl) && forall x :: x in fl' ==> x in fl
    ensures AtBlocks(bs, fl')
  {}

  /** The intermediate chains of shrinking. */
  lemma ShrinkMeans(g: Geometry, bs: seq<Block>, fl: seq<nat>, available: int, i: nat, n: nat)
    requires Good(g, bs, fl, available) && g.Valid() && i < |bs| && bs[i].used
      && bs[i].off + g.S + n + g.S <= bs[i].next
    ensures AtBlocks(bs, fl)
    ensures var cut := bs[i].off + g.S + n; var r := Split(bs, i, cut);
      && |r| == |bs| + 1 && r[i + 1] == Block(cut, bs[i].next, false) && cut !in fl
      && RightFree(r, i + 1) == RightFree(bs, i)
      && (RightFree(bs, i) ==>
          i + 1 < |bs| && bs[i].next == bs[i + 1].off && bs[i + 1].off in fl && r[i + 2] == bs[i + 1])
      && (RightFree(bs, i) ==> |Join(r, i + 1)| == |bs| && Join(r, i + 1)[i + 1] == Block(cut, bs[i + 1].next, false))
      && ShrinkAt(g, bs, i, n) == if RightFree(bs, i) then Join(r, i + 1) else r
  {
    var cut := bs[i].off + g.S + n;
    TakesSpace(g);
    NoneInside(g, bs, i, cut);
    ListsAtBlocks(bs, fl);
    if RightFree(bs, i) {
      FreeIs(bs, i + 1);
      assert bs[i].next == bs[i + 1].off;
    }
    hide IsFreeBlock, Chain, Coalesced, AllAligned, AtBlocks;
    SplitAt(bs, i, cut);
    var r := Split(bs, i, cut);
    if RightFree(bs, i) {
      JoinAt(r, i + 1);
    }
    hide Split, Join;
  }

  lemma NeedTwice(g: Geometry, size: nat)
    ensures Need(g, Need(g, size)) == Need(g, size) && Aligned(Need(g, size))
  {
    AlignedStays(Need(g, size));
  }

  lemma AlignedStays(n: nat)
    requires Aligned(n)
    ensures AlignUp(n) == n
  {}

  lemma AllSame(keep: set<int>, a: seq<Byte>, b: seq<Byte>)
    ensures a == b ==> SameOn(keep, a, b)
  {}

  lemma Span(g: Geometry, bs: seq<Block>, fl: seq<nat>, available: int, i: nat)
    requires Good(g, bs, fl, available) && i < |bs|
    ensures bs[i].off + g.S <= bs[i].next <= g.End()
  {}

  lemma CanMove(g: Geometry, bs: seq<Block>, fl: seq<nat>, i: nat, j: nat, n: nat, len: nat)
    requires FirstOnList(g, bs, fl, j, n) && Chain(g, bs) && Chain(g, AllocAt(g, bs, j, n))
    requires i < |bs| && bs[i].used && len <= n && bs[i].off + g.S + len <= bs[i].next
    ensures Moving(g, bs, i, j, n, len)
    ensures var r, k := AllocAt(g, bs, j, n), Shifted(g, bs, j, n, i); k < |r|
  {
    ShiftedIs(g, bs, j, n, i);
    hide AllocAt, Shifted, Chain;
  }

  lemma GoodFree(g: Geometry, bs: seq<Block>, fl: seq<nat>, available: int)
    requires Good(g, bs, fl, available)
    ensures available == FreeBytes(g, bs)
  {}

  /** A request is refused although a block fits exactly if that block is all the memory left, and the
      request is for all of it. */
  lemma RefusedThoughItFits(g: Geometry, bs: seq<Block>, fl: seq<nat>, available: int, i: nat, n: nat)
    requires Good(g, bs, fl, available) && i < |bs| && Fits(g, bs[i], n) && n > 0
    ensures !(n < available) <==> n == Room(g, bs[i]) && forall j :: 0 <= j < |bs| && j != i ==> Room(g, bs[j]) == 0
  {
    FitWithinFree(g, bs, i, n);
    if n == Room(g, bs[i]) && forall j :: 0 <= j < |bs| && j != i ==> Room(g, bs[j]) == 0 {
      var rest := bs[..i] + bs[i + 1..];
      FreeAllBut(g, bs, i);
      assert forall j :: 0 <= j < |rest| ==> rest[j] == bs[if j < i then j else j + 1];
      NothingFree(g, rest);
    }
  }

  /** A fresh heap is an instance: its one block could hold a request for all the memory, which is refused. */
  method FreshHeapRefuses(g: Geometry) returns (h: Memheap, p: nat)
    requires g.Valid() && g.M >= g.Min()
    ensures h.Valid() && Fits(g, Block(0, g.End(), false), g.M) && h.bs == [Block(0, g.End(), false)] && p == 0
  {
    h := new Memheap(g);
    AlignedStays(g.M);
    ghost var i;
    p, i := h.Alloc(g.M);
  }

  lemma {:induction false} NothingFree(g: Geometry, bs: seq<Block>)
    requires forall j :: 0 <= j < |bs| ==> Room(g, bs[j]) == 0
    ensures FreeBytes(g, bs) == 0
  {
    if bs != [] {
      NothingFree(g, bs[..|bs| - 1]);
    }
  }
}
