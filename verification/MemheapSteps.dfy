/** Allocation, release, growing and shrinking of a memheap as changes of its chain and free list. */
module MemheapSteps {
  import opened Sequences
  import opened HeapChain
  import opened HeapSteps
  import opened MemheapChain

  /** What every operation keeps: the chain is sound, the list holds exactly the free blocks, and the
      account is the sum of their payloads. */
  ghost predicate Good(g: Geometry, bs: seq<Block>, fl: seq<nat>, available: int) {
    Sound(g, bs) && ListsFree(bs, fl) && available == FreeBytes(g, bs)
  }

  ghost function Removed(fl: seq<nat>, p: nat): seq<nat> {
    if fl == [] then [] else if fl[0] == p then fl[1..] else [fl[0]] + Removed(fl[1..], p)
  }

  lemma {:induction false} RemovedIs(fl: seq<nat>, j: nat)
    requires Distinct(fl) && j < |fl|
    ensures Removed(fl, fl[j]) == Without(fl, j)
  {
    if j > 0 {
      assert fl[0] != fl[j] && Distinct(fl[1..]);
      WithoutBehind(fl, j);
      hide Without, Distinct;
      RemovedIs(fl[1..], j - 1);
    }
  }

  lemma WithoutBehind(fl: seq<nat>, j: nat)
    requires 0 < j < |fl|
    ensures Without(fl, j) == [fl[0]] + Without(fl[1..], j - 1) && fl[1..][j - 1] == fl[j]
  {}

  lemma RemovedHas(fl: seq<nat>, p: nat)
    requires Distinct(fl) && p in fl
    ensures Distinct(Removed(fl, p)) && forall x :: x in Removed(fl, p) <==> x in fl && x != p
  {
    var j :| 0 <= j < |fl| && fl[j] == p;
    RemovedIs(fl, j);
    WithoutIs(fl, j);
  }

  /** A block became free, or was freed of. */
  lemma OneMore(bs: seq<Block>, fl: seq<nat>, bs': seq<Block>, p: nat)
    requires ListsFree(bs, fl) && !IsFreeBlock(bs, p)
    requires forall x: nat :: IsFreeBlock(bs', x) <==> x == p || IsFreeBlock(bs, x)
    ensures ListsFree(bs', [p] + fl)
  {
    hide IsFreeBlock;
    FrontIs(fl, p);
  }

  lemma OneLess(bs: seq<Block>, fl: seq<nat>, bs': seq<Block>, p: nat)
    requires ListsFree(bs, fl) && IsFreeBlock(bs, p)
    requires forall x: nat :: IsFreeBlock(bs', x) <==> x != p && IsFreeBlock(bs, x)
    ensures ListsFree(bs', Removed(fl, p))
  {
    hide IsFreeBlock, Removed;
    RemovedHas(fl, p);
  }

  /** The free list after block `i` was allocated for `n` bytes. */
  ghost function AllocList(g: Geometry, bs: seq<Block>, fl: seq<nat>, i: nat, n: nat): seq<nat>
    requires i < |bs|
  {
    if Splits(g, bs[i], n) then [bs[i].off + g.S + n] + Removed(fl, bs[i].off) else Removed(fl, bs[i].off)
  }

  lemma AllocGood(g: Geometry, bs: seq<Block>, fl: seq<nat>, available: int, i: nat, n: nat)
    requires Good(g, bs, fl, available) && g.Valid() && i < |bs| && Fits(g, bs[i], n) && Aligned(n)
    ensures i < |AllocAt(g, bs, i, n)| && Good(g, AllocAt(g, bs, i, n), AllocList(g, bs, fl, i, n),
      if Splits(g, bs[i], n) then available - n - g.S else available - Room(g, bs[i]))
  {
    AllocKeeps(g, bs, i, n);
    AllocListsFree(g, bs, fl, i, n);
    AllocFreeBytes(g, bs, i, n);
  }

  lemma AllocFreeBytes(g: Geometry, bs: seq<Block>, i: nat, n: nat)
    requires i < |bs| && Fits(g, bs[i], n)
    ensures FreeBytes(g, AllocAt(g, bs, i, n)) ==
      if Splits(g, bs[i], n) then FreeBytes(g, bs) - n - g.S else FreeBytes(g, bs) - Room(g, bs[i])
  {
    hide FreeBytes, Geometry.Min;
    var cut := bs[i].off + g.S + n;
    if Splits(g, bs[i], n) {
      SplitFree(g, bs, i, cut);
      SplitAt(bs, i, cut);
      MarkFree(g, Split(bs, i, cut), i, true);
    } else {
      MarkFree(g, bs, i, true);
    }
  }

  lemma AllocListsFree(g: Geometry, bs: seq<Block>, fl: seq<nat>, i: nat, n: nat)
    requires Sound(g, bs) && ListsFree(bs, fl) && g.Valid() && i < |bs| && Fits(g, bs[i], n)
    ensures ListsFree(AllocAt(g, bs, i, n), AllocList(g, bs, fl, i, n))
  {
    hide Coalesced, AllAligned, Geometry.Min, Aligned, Removed, IsFreeBlock, ListsFree, Split;
    TakesSpace(g);
    hide Geometry.Valid;
    var p, cut := bs[i].off, bs[i].off + g.S + n;
    FreeIs(bs, i);
    if Splits(g, bs[i], n) {
      var r := Split(bs, i, cut);
      SplitChain(g, bs, i, cut);
      SplitAt(bs, i, cut);
      NoneInside(g, bs, i, cut);
      hide Chain;
      forall x: nat ensures IsFreeBlock(Mark(r, i, true), x) <==> x != p && IsFreeBlock(r, x) {
        MarkFreeBlocks(g, r, i, true, x);
      }
      forall x: nat ensures IsFreeBlock(r, x) <==> x == cut || IsFreeBlock(bs, x) {
        SplitFreeBlocks(bs, i, cut, x);
      }
      OneMore(bs, fl, r, cut);
      OneLess(r, [cut] + fl, Mark(r, i, true), p);
      RemovedBehind(fl, cut, p);
    } else {
      forall x: nat ensures IsFreeBlock(Mark(bs, i, true), x) <==> x != p && IsFreeBlock(bs, x) {
        MarkFreeBlocks(g, bs, i, true, x);
      }
      OneLess(bs, fl, Mark(bs, i, true), p);
    }
  }

  lemma FreeIs(bs: seq<Block>, i: nat)
    requires i < |bs| && !bs[i].used
    ensures IsFreeBlock(bs, bs[i].off)
  {}

  lemma RemovedBehind(fl: seq<nat>, x: nat, p: nat)
    requires x != p
    ensures Removed([x] + fl, p) == [x] + Removed(fl, p)
  {
    assert ([x] + fl)[1..] == fl;
  }

  lemma TakesSpace(g: Geometry)
    requires g.Valid()
    ensures g.S > 0
  {}

  /** No block starts inside another. */
  lemma NoneInside(g: Geometry, bs: seq<Block>, i: nat, cut: nat)
    requires Chain(g, bs) && i < |bs| && bs[i].off < cut < bs[i].next
    ensures !IsFreeBlock(bs, cut)
  {
    forall k | 0 <= k < |bs| ensures bs[k].off != cut {
      if k < i {
        ChainOrdered(g, bs, k, i);
      } else if k > i {
        ChainOrdered(g, bs, i, k);
      }
    }
  }

  /** Some free block has room for a block size that serves a request for `size` bytes and leaves something
      available. */
  ghost predicate CanTake(g: Geometry, bs: seq<Block>, size: nat, available: int) {
    exists b: Block, k: nat ::
      && b in bs && !b.used && Aligned(k) && size <= k && g.RAW <= k && b.off + g.S + k <= b.next
      && k < available
  }

  /** Of the blocks on the free list, block `i` is the first with room for the least size `k` that serves the
      request. */
  ghost predicate FirstListed(g: Geometry, bs: seq<Block>, fl: seq<nat>, size: nat, i: nat, k: nat) {
    && IsLeastSize(g, size, k) && i < |bs| && !bs[i].used && bs[i].off + g.S + k <= bs[i].next
    && exists j :: 0 <= j < |fl| && fl[j] == bs[i].off
         && forall b :: b in bs && b.off in fl[..j] ==> b.used || b.next < b.off + g.S + k
  }

  /** Whether a request is served. */
  lemma TakenIffServed(g: Geometry, bs: seq<Block>, size: nat, available: int)
    ensures CanTake(g, bs, size, available) <==>
      Need(g, size) < available && exists i :: 0 <= i < |bs| && Fits(g, bs[i], Need(g, size))
  {
    hide Need, Aligned, IsLeastSize;
    var n := Need(g, size);
    NeedIsLeast(g, size);
    LeastServes(g, size, n);
    if CanTake(g, bs, size, available) {
      var b, k: nat :|
        && b in bs && !b.used && Aligned(k) && size <= k && g.RAW <= k && b.off + g.S + k <= b.next
        && k < available;
      LeastIsLeast(g, size, n, k);
      var i :| 0 <= i < |bs| && bs[i] == b;
      assert Fits(g, bs[i], n);
    }
    if n < available {
      forall i | 0 <= i < |bs| && Fits(g, bs[i], n) ensures CanTake(g, bs, size, available) {
        assert bs[i] in bs;
      }
    }
  }

  /** Block `i` grew to `n` bytes at the cost of its free successor. */
  ghost predicate GrownAt(g: Geometry, bs: seq<Block>, i: nat, n: nat, bs': seq<Block>) {
    && i + 1 < |bs|
    && var b := bs[i];
      bs' == bs[..i]
        + [Block(b.off, b.off + g.S + n, true), Block(b.off + g.S + n, bs[i + 1].next, false)]
        + bs[i + 2..]
  }

  lemma ShiftGrows(g: Geometry, bs: seq<Block>, i: nat, n: nat)
    requires i + 1 < |bs| && bs[i].used && !bs[i + 1].used
    ensures GrownAt(g, bs, i, n, Shift(bs, i, bs[i].off + g.S + n))
  {}

  /** Block `i` gave way to one taken for `size` bytes from the first block on the free list with room: `p` is
      where it is. */
  ghost predicate MovesOn(
      g: Geometry, bs: seq<Block>, fl: seq<nat>, size: nat, i: nat, bs': seq<Block>, p: nat) {
    && i < |bs|
    && exists j: nat, k: nat, mid: seq<Block>, i': nat ::
         FirstListed(g, bs, fl, size, j, k) && p == bs[j].off + g.S && TakenAt(g, bs, j, k, mid)
         && i' < |mid| && mid[i'] == bs[i] && FreedAt(mid, i', bs')
  }

  lemma MoveOnTakes(g: Geometry, bs: seq<Block>, fl: seq<nat>, size: nat, i: nat, j: nat)
    requires i < |bs| && bs[i].used && FirstListed(g, bs, fl, size, j, Need(g, size)) && Fits(g, bs[j], Need(g, size))
    ensures var n := Need(g, size);
      var mid, i' := AllocAt(g, bs, j, n), Shifted(g, bs, j, n, i);
      i' < |mid| && MovesOn(g, bs, fl, size, i, FreeAt(mid, i'), bs[j].off + g.S)
  {
    assert j < |bs| && i != j;
    hide Need, AllocAt, FreeAt, Shifted, FirstListed, TakenAt, FreedAt;
    var n := Need(g, size);
    var mid, i' := AllocAt(g, bs, j, n), Shifted(g, bs, j, n, i);
    AllocTakes(g, bs, j, n);
    ShiftedIs(g, bs, j, n, i);
    FreeJoins(mid, i');
    assert FirstListed(g, bs, fl, size, j, n) && TakenAt(g, bs, j, n, mid) && FreedAt(mid, i', FreeAt(mid, i'));
  }

  // ------------------------------------------------------------------------------------------
  // Release
  // ------------------------------------------------------------------------------------------

  predicate LeftFree(bs: seq<Block>, i: nat) { 0 < i < |bs| && !bs[i - 1].used }

  predicate RightFree(bs: seq<Block>, i: nat) { i + 1 < |bs| && !bs[i + 1].used }

  /** The free list after block `i` was freed: a free left neighbour keeps its place for both, a free
      right neighbour leaves the list. */
  ghost function FreeList(bs: seq<Block>, fl: seq<nat>, i: nat): seq<nat>
    requires i < |bs|
  {
    var f := if RightFree(bs, i) then Removed(fl, bs[i + 1].off) else fl;
    if LeftFree(bs, i) then f else [bs[i].off] + f
  }

  /** The chain after block `i` was freed, joined to the left first, as rt_memheap_free does. */
  ghost function FreeLeftFirst(bs: seq<Block>, i: nat): seq<Block>
    requires i < |bs|
  {
    var m := Mark(bs, i, false);
    var l := if LeftFree(bs, i) then Join(m, i - 1) else m;
    var h := if LeftFree(bs, i) then i - 1 else i;
    if RightFree(bs, i) && h + 1 < |l| then Join(l, h) else l
  }

  lemma FreeLeftFirstIs(bs: seq<Block>, i: nat)
    requires i < |bs|
    ensures FreeLeftFirst(bs, i) == FreeAt(bs, i)
  {
    var m := Mark(bs, i, false);
    if i + 1 < |m| {
      JoinAt(m, i);
    }
    if LeftFree(bs, i) {
      JoinAt(m, i - 1);
      if RightFree(bs, i) {
        JoinEitherWay(m, i);
      }
    }
    hide Join;
  }

  lemma FreeGood(g: Geometry, bs: seq<Block>, fl: seq<nat>, available: int, i: nat)
    requires Good(g, bs, fl, available) && i < |bs| && bs[i].used && g.S > 0
    ensures Good(g, FreeAt(bs, i), FreeList(bs, fl, i), available + (bs[i].next - bs[i].off - g.S)
      + (if LeftFree(bs, i) then g.S else 0) + (if RightFree(bs, i) then g.S else 0))
  {
    FreeKeeps(g, bs, i);
    FreeFreeBytes(g, bs, i);
    FreeListsFree(g, bs, fl, i);
  }

  lemma FreeFreeBytes(g: Geometry, bs: seq<Block>, i: nat)
    requires Chain(g, bs) && i < |bs| && bs[i].used
    ensures FreeBytes(g, FreeAt(bs, i)) == FreeBytes(g, bs) + (bs[i].next - bs[i].off - g.S)
      + (if LeftFree(bs, i) then g.S else 0) + (if RightFree(bs, i) then g.S else 0)
  {
    hide FreeBytes;
    var m := Mark(bs, i, false);
    MarkFree(g, bs, i, false);
    MarkChain(g, bs, i, false);
    var f := PlugForward(m, i);
    if RightFree(bs, i) {
      assert m[i].next == m[i + 1].off;
      JoinFree(g, m, i);
      JoinChain(g, m, i);
      JoinAt(m, i);
    }
    assert i < |f| && !f[i].used && (i > 0 ==> f[i - 1] == bs[i - 1]);
    hide PlugForward, Join;
    if LeftFree(bs, i) {
      assert f[i - 1].next == f[i].off;
      JoinFree(g, f, i - 1);
    }
  }

  lemma FreeListsFree(g: Geometry, bs: seq<Block>, fl: seq<nat>, i: nat)
    requires Chain(g, bs) && ListsFree(bs, fl) && i < |bs| && bs[i].used && g.S > 0
    ensures ListsFree(FreeAt(bs, i), FreeList(bs, fl, i))
  {
    var m, p := Mark(bs, i, false), bs[i].off;
    MarkChain(g, bs, i, false);
    forall x: nat ensures IsFreeBlock(m, x) <==> x == p || IsFreeBlock(bs, x) {
      MarkFreeBlocks(g, bs, i, false, x);
    }
    assert !IsFreeBlock(bs, p) by { NotFree(g, bs, i); }
    FrontIs(fl, p);
    PlugListsFree(g, m, fl, i);
  }

  lemma NotFree(g: Geometry, bs: seq<Block>, i: nat)
    requires Chain(g, bs) && i < |bs| && bs[i].used && g.S > 0
    ensures !IsFreeBlock(bs, bs[i].off)
  {
    forall k | 0 <= k < |bs| && k != i ensures bs[k].off != bs[i].off {
      OffsDiffer(g, bs, i, k);
    }
  }

  lemma PlugForwardLists(g: Geometry, bs: seq<Block>, fl: seq<nat>, i: nat)
    requires Chain(g, bs) && i < |bs| && ListsFree(bs, [bs[i].off] + fl) && !bs[i].used && g.S > 0
    ensures ListsFree(PlugForward(bs, i), [bs[i].off] + if RightFree(bs, i) then Removed(fl, bs[i + 1].off) else fl)
  {
    var p := bs[i].off;
    WithoutIs([p] + fl, 0);
    assert Without([p] + fl, 0) == fl;
    if RightFree(bs, i) {
      var q := bs[i + 1].off;
      assert IsFreeBlock(bs, q);
      OffsDiffer(g, bs, i, i + 1);
      RemovedHas(fl, q);
      hide Removed, IsFreeBlock, Join;
      FrontIs(Removed(fl, q), p);
      forall x: nat ensures IsFreeBlock(Join(bs, i), x) <==> IsFreeBlock(bs, x) && x != q {
        JoinFreeBlocks(g, bs, i, x);
      }
    }
  }

  lemma PlugBackwardLists(g: Geometry, bs: seq<Block>, fl: seq<nat>, i: nat)
    requires Chain(g, bs) && i < |bs| && ListsFree(bs, [bs[i].off] + fl) && !bs[i].used && g.S > 0
    ensures ListsFree(PlugBackward(bs, i), if LeftFree(bs, i) then fl else [bs[i].off] + fl)
  {
    var p := bs[i].off;
    WithoutIs([p] + fl, 0);
    assert Without([p] + fl, 0) == fl;
    if LeftFree(bs, i) {
      hide IsFreeBlock, Join;
      forall x: nat ensures IsFreeBlock(Join(bs, i - 1), x) <==> IsFreeBlock(bs, x) && x != p {
        JoinFreeBlocks(g, bs, i - 1, x);
      }
    }
  }

  /** plug_holes for the free block `i`, which is first on the list. */
  lemma PlugListsFree(g: Geometry, bs: seq<Block>, fl: seq<nat>, i: nat)
    requires Chain(g, bs) && i < |bs| && ListsFree(bs, [bs[i].off] + fl) && !bs[i].used && g.S > 0
    ensures var f := if RightFree(bs, i) then Removed(fl, bs[i + 1].off) else fl;
      ListsFree(PlugHoles(bs, i), if LeftFree(bs, i) then f else [bs[i].off] + f)
  {
    PlugForwardLists(g, bs, fl, i);
    if RightFree(bs, i) {
      JoinAt(bs, i);
      JoinChain(g, bs, i);
    }
    var b := PlugForward(bs, i);
    assert i < |b| && b[i].off == bs[i].off && !b[i].used && Chain(g, b) && (i > 0 ==> b[i - 1] == bs[i - 1]);
    hide PlugForward, PlugBackward, ListsFree, Chain;
    PlugBackwardLists(g, b, if RightFree(bs, i) then Removed(fl, bs[i + 1].off) else fl, i);
  }

  // ------------------------------------------------------------------------------------------
  // Growing and shrinking in place
  // ------------------------------------------------------------------------------------------

  lemma GrowGood(g: Geometry, bs: seq<Block>, fl: seq<nat>, available: int, i: nat, n: nat)
    requires Good(g, bs, fl, available) && i + 1 < |bs| && bs[i].used && !bs[i + 1].used && Aligned(n) && g.Valid()
    requires bs[i].off + g.S + n + g.S <= bs[i + 1].next
    ensures var cut := bs[i].off + g.S + n;
      Good(g, Shift(bs, i, cut), [cut] + Removed(fl, bs[i + 1].off), available + (bs[i].next - cut))
  {
    var cut, q := bs[i].off + g.S + n, bs[i + 1].off;
    AlignedSum(bs[i].off, g.S, n);
    ShiftKeeps(g, bs, i, cut);
    hide Coalesced, AllAligned, FreeBytes, Aligned;
    assert IsFreeBlock(bs, q);
    RemovedHas(fl, q);
    assert !IsFreeBlock(bs, cut) || cut == q by { OnlyAt(g, bs, i, cut); }
    FrontIs(Removed(fl, q), cut);
    hide Removed;
    forall x: nat ensures IsFreeBlock(Shift(bs, i, cut), x) <==> x == cut || (IsFreeBlock(bs, x) && x != q) {
      ShiftFreeBlocks(g, bs, i, cut, x);
    }
  }

  /** Between the ends of two neighbours a block starts only where the second does. */
  lemma OnlyAt(g: Geometry, bs: seq<Block>, i: nat, cut: nat)
    requires Chain(g, bs) && i + 1 < |bs| && bs[i].off < cut < bs[i + 1].next
    ensures IsFreeBlock(bs, cut) ==> cut == bs[i + 1].off
  {
    forall k | 0 <= k < |bs| && k != i + 1 ensures bs[k].off != cut {
      if k < i {
        ChainOrdered(g, bs, k, i);
      } else if k > i + 1 {
        ChainOrdered(g, bs, i + 1, k);
      }
    }
  }

  lemma ShrinkGood(g: Geometry, bs: seq<Block>, fl: seq<nat>, available: int, i: nat, n: nat)
    requires Good(g, bs, fl, available) && i < |bs| && bs[i].used && Aligned(n) && g.Valid()
    requires bs[i].off + g.S + n + g.S <= bs[i].next
    ensures var cut := bs[i].off + g.S + n;
      Good(g, ShrinkAt(g, bs, i, n), [cut] + (if RightFree(bs, i) then Removed(fl, bs[i + 1].off) else fl),
        available + (bs[i].next - cut - g.S) + (if RightFree(bs, i) then g.S else 0))
  {
    ShrinkKeeps(g, bs, i, n);
    hide Coalesced, AllAligned, FreeBytes, Aligned, ShrinkAt;
    TakesSpace(g);
    ShrinkFreeBytes(g, bs, i, n);
    ShrinkListsFree(g, bs, fl, i, n);
  }

  lemma ShrinkFreeBytes(g: Geometry, bs: seq<Block>, i: nat, n: nat)
    requires Chain(g, bs) && i < |bs| && bs[i].used && bs[i].off + g.S + n + g.S <= bs[i].next
    ensures FreeBytes(g, ShrinkAt(g, bs, i, n)) ==
      FreeBytes(g, bs) + (bs[i].next - (bs[i].off + g.S + n) - g.S) + (if RightFree(bs, i) then g.S else 0)
  {
    hide FreeBytes, Split, Join;
    var cut := bs[i].off + g.S + n;
    var r := Split(bs, i, cut);
    SplitFree(g, bs, i, cut);
    SplitAt(bs, i, cut);
    if RightFree(bs, i) {
      assert r[i + 2] == bs[i + 1] && bs[i].next == bs[i + 1].off;
      JoinFree(g, r, i + 1);
      JoinAt(r, i + 1);
    }
    hide Chain;
    assert Room(g, bs[i]) == 0 && Room(g, bs[i].(next := cut)) == 0;
    assert ShrinkAt(g, bs, i, n) == if RightFree(bs, i) then Join(r, i + 1) else r;
  }

  lemma ShrinkListsFree(g: Geometry, bs: seq<Block>, fl: seq<nat>, i: nat, n: nat)
    requires Chain(g, bs) && ListsFree(bs, fl) && i < |bs| && bs[i].used && g.S > 0
    requires bs[i].off + g.S + n + g.S <= bs[i].next
    ensures ListsFree(ShrinkAt(g, bs, i, n),
      [bs[i].off + g.S + n] + (if RightFree(bs, i) then Removed(fl, bs[i + 1].off) else fl))
  {
    hide Split, Removed, IsFreeBlock, PlugHoles, ListsFree;
    var cut := bs[i].off + g.S + n;
    var r := Split(bs, i, cut);
    SplitAt(bs, i, cut);
    SplitChain(g, bs, i, cut);
    NoneInside(g, bs, i, cut);
    hide Chain;
    forall x: nat ensures IsFreeBlock(r, x) <==> x == cut || IsFreeBlock(bs, x) {
      SplitFreeBlocks(bs, i, cut, x);
    }
    OneMore(bs, fl, r, cut);
    assert RightFree(r, i + 1) <==> RightFree(bs, i);
    assert !LeftFree(r, i + 1);
    PlugListsFree(g, r, fl, i + 1);
  }
}
