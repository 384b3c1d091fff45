/** Allocation, release and shrinking as changes of the block chain, and what they keep. */
module HeapSteps {
  import opened HeapChain

  /** What every operation of the heap keeps. */
  ghost predicate Sound(g: Geometry, bs: seq<Block>) {
    Chain(g, bs) && Coalesced(bs) && AllAligned(bs)
  }

  /** The size a request is rounded up to before a block is looked for. */
  function Need(g: Geometry, size: nat): (r: nat)
    ensures size <= r && Aligned(r) && (g.RAW > 0 ==> r > 0)
  {
    if AlignUp(size) < g.Min() then g.Min() else AlignUp(size)
  }

  /** `k` is the least size of a block that serves a request for `size` bytes. */
  ghost predicate IsLeastSize(g: Geometry, size: nat, k: nat) {
    && Aligned(k) && size <= k && g.RAW <= k
    && forall j: nat :: Aligned(j) && size <= j && g.RAW <= j ==> k <= j
  }

  /** The rounding is no more generous than it has to be. */
  lemma NeedIsLeast(g: Geometry, size: nat)
    ensures IsLeastSize(g, size, Need(g, size))
  {
    forall j: nat | Aligned(j) && size <= j && g.RAW <= j ensures Need(g, size) <= j {
      AlignUpIsLeast(size, j);
      AlignUpIsLeast(g.RAW, j);
    }
  }

  lemma AlignUpIsLeast(n: nat, k: nat)
    requires Aligned(k) && n <= k
    ensures AlignUp(n) <= k
  {}

  lemma LeastIsUnique(g: Geometry, size: nat, k: nat)
    requires IsLeastSize(g, size, k)
    ensures k == Need(g, size)
  {
    hide Need, Aligned;
    NeedIsLeast(g, size);
  }

  /** Some free block has room for a block size that serves a request for `size` bytes. */
  ghost predicate CanServe(g: Geometry, bs: seq<Block>, size: nat) {
    exists b: Block, k: nat ::
      b in bs && !b.used && Aligned(k) && size <= k && g.RAW <= k && b.off + g.S + k <= b.next
  }

  /** The first free block with room for the least size `k` that serves the request is block `i`. */
  ghost predicate FirstRoom(g: Geometry, bs: seq<Block>, size: nat, i: nat, k: nat) {
    && IsLeastSize(g, size, k) && i < |bs| && !bs[i].used && bs[i].off + g.S + k <= bs[i].next
    && forall b :: b in bs[..i] ==> b.used || b.next < b.off + g.S + k
  }

  /** The free block `i` became a used one of exactly `k` bytes and a free rest, if there is enough left
      over for the smallest block, and was taken whole if not. */
  ghost predicate TakenAt(g: Geometry, bs: seq<Block>, i: nat, k: nat, bs': seq<Block>) {
    && i < |bs| && !bs[i].used && bs[i].off + g.S + k <= bs[i].next
    && var b := bs[i];
      bs' == bs[..i]
        + (if b.next - b.off - g.S >= k + g.S + AlignUp(g.RAW) then
             [Block(b.off, b.off + g.S + k, true), Block(b.off + g.S + k, b.next, false)]
           else [Block(b.off, b.next, true)])
        + bs[i + 1..]
  }

  /** Whether a search for the rounded size succeeds. */
  lemma FitIffServed(g: Geometry, bs: seq<Block>, size: nat)
    ensures FirstFit(g, bs, Need(g, size)) < |bs| <==> CanServe(g, bs, size)
    ensures var j := FirstFit(g, bs, Need(g, size)); j < |bs| ==> FirstRoom(g, bs, size, j, Need(g, size))
  {
    hide Need, FirstFit, Aligned, IsLeastSize;
    var n := Need(g, size);
    var j := FirstFit(g, bs, n);
    NeedIsLeast(g, size);
    LeastServes(g, size, n);
    if j < |bs| {
      assert bs[j] in bs;
    }
    if CanServe(g, bs, size) {
      var b, k: nat :| b in bs && !b.used && Aligned(k) && size <= k && g.RAW <= k && b.off + g.S + k <= b.next;
      assert n <= k by {
        LeastIsLeast(g, size, n, k);
      }
      assert Fits(g, b, n);
    }
  }

  lemma LeastServes(g: Geometry, size: nat, k: nat)
    requires IsLeastSize(g, size, k)
    ensures Aligned(k) && size <= k && g.RAW <= k
  {}

  lemma LeastIsLeast(g: Geometry, size: nat, k: nat, j: nat)
    requires IsLeastSize(g, size, k) && Aligned(j) && size <= j && g.RAW <= j
    ensures k <= j
  {}

  /** The first block with room for `size` bytes, or the length of the chain if there is none. */
  ghost function FirstFit(g: Geometry, bs: seq<Block>, size: nat): (r: nat)
    ensures r <= |bs|
    ensures r < |bs| ==> Fits(g, bs[r], size)
    ensures forall k :: 0 <= k < r ==> !Fits(g, bs[k], size)
  {
    if bs == [] then 0
    else if FirstFit(g, bs[..|bs| - 1], size) < |bs| - 1 then FirstFit(g, bs[..|bs| - 1], size)
    else if Fits(g, bs[|bs| - 1], size) then |bs| - 1 else |bs|
  }

  lemma FirstFitIs(g: Geometry, bs: seq<Block>, size: nat, r: nat)
    requires r <= |bs| && (r < |bs| ==> Fits(g, bs[r], size))
    requires forall k :: 0 <= k < r ==> !Fits(g, bs[k], size)
    ensures FirstFit(g, bs, size) == r
  {}

  /** A fit leaves enough room in front of the end: the bound of the search loop skips none. */
  lemma FitWithinBound(g: Geometry, bs: seq<Block>, i: nat, size: nat)
    requires Chain(g, bs) && i < |bs| && Fits(g, bs[i], size)
    ensures size <= g.M && bs[i].off <= g.M - size
  {}

  ghost predicate Splits(g: Geometry, b: Block, size: nat) {
    b.off + g.S + size + g.S + g.Min() <= b.next
  }

  /** Block `i` is allocated for `size` bytes; what is left over becomes a free block if it is large
      enough for one. */
  ghost function AllocAt(g: Geometry, bs: seq<Block>, i: nat, size: nat): seq<Block>
    requires i < |bs|
  {
    Mark(CutAt(g, bs, i, size), i, true)
  }

  ghost function CutAt(g: Geometry, bs: seq<Block>, i: nat, size: nat): (r: seq<Block>)
    requires i < |bs|
    ensures i < |r| && r[i].off == bs[i].off && r[i].used == bs[i].used && forall j :: 0 <= j < i ==> r[j] == bs[j]
    ensures r[i].next == if Splits(g, bs[i], size) then bs[i].off + g.S + size else bs[i].next
  {
    if Splits(g, bs[i], size) then Split(bs, i, bs[i].off + g.S + size) else bs
  }

  /** plug_holes: block `i` is joined with its free neighbours. */
  ghost function PlugForward(bs: seq<Block>, i: nat): seq<Block>
    requires i < |bs|
  {
    if i + 1 < |bs| && !bs[i + 1].used then Join(bs, i) else bs
  }

  ghost function PlugBackward(bs: seq<Block>, i: nat): seq<Block>
    requires i < |bs|
  {
    if i > 0 && !bs[i - 1].used then Join(bs, i - 1) else bs
  }

  ghost function PlugHoles(bs: seq<Block>, i: nat): seq<Block>
    requires i < |bs|
  {
    PlugBackward(PlugForward(bs, i), i)
  }

  ghost function FreeAt(bs: seq<Block>, i: nat): seq<Block>
    requires i < |bs|
  {
    PlugHoles(Mark(bs, i, false), i)
  }

  /** Block `i` is cut down to `size` bytes. */
  ghost function ShrinkAt(g: Geometry, bs: seq<Block>, i: nat, size: nat): seq<Block>
    requires i < |bs|
  {
    PlugHoles(Split(bs, i, bs[i].off + g.S + size), i + 1)
  }

  // ------------------------------------------------------------------------------------------
  // No two free neighbours
  // ------------------------------------------------------------------------------------------

  lemma Neighbours(bs: seq<Block>, i: nat)
    requires Coalesced(bs) && i < |bs| && !bs[i].used
    ensures i > 0 ==> bs[i - 1].used
    ensures i + 1 < |bs| ==> bs[i + 1].used
  {}

  /** Free neighbours can only involve block `i`. */
  ghost predicate CoalescedBut(bs: seq<Block>, i: int) {
    forall k, l {:trigger bs[k].used, bs[l].used} :: 0 <= k && l == k + 1 && l < |bs| && k != i && l != i ==>
      bs[k].used || bs[l].used
  }

  lemma PlugCoalesces(bs: seq<Block>, i: nat)
    requires i < |bs| && CoalescedBut(bs, i) && !bs[i].used
    ensures Coalesced(PlugHoles(bs, i))
  {
    var f, r := PlugForward(bs, i), PlugHoles(bs, i);
    if i + 1 < |bs| && !bs[i + 1].used {
      JoinAt(bs, i);
      assert i + 2 < |bs| ==> bs[i + 2].used;
    }
    assert i + 1 < |f| ==> f[i + 1].used;
    assert CoalescedBut(f, i) && !f[i].used;
    assert i > 0 ==> f[i - 1] == bs[i - 1];
    hide PlugForward;
    if i > 0 && !f[i - 1].used {
      JoinAt(f, i - 1);
      hide Join;
      assert i > 1 ==> f[i - 2].used;
    }
  }

  lemma PlugAligned(bs: seq<Block>, i: nat)
    requires i < |bs| && AllAligned(bs)
    ensures AllAligned(PlugHoles(bs, i))
  {
    hide AllAligned, Join;
    AlignmentKept(bs, i, 0, false);
    var f := PlugForward(bs, i);
    assert i < |f| by {
      if i + 1 < |bs| {
        JoinAt(bs, i);
      }
    }
    if i > 0 {
      AlignmentKept(f, i - 1, 0, false);
    }
  }

  lemma PlugKeeps(g: Geometry, bs: seq<Block>, i: nat)
    requires Chain(g, bs) && AllAligned(bs) && i < |bs| && CoalescedBut(bs, i) && !bs[i].used
    ensures Sound(g, PlugHoles(bs, i)) && UsedBytes(PlugHoles(bs, i)) == UsedBytes(bs)
  {
    hide AllAligned, UsedBytes, Chain, Coalesced;
    PlugCoalesces(bs, i);
    PlugAligned(bs, i);
    var f := PlugForward(bs, i);
    if f != bs {
      JoinChain(g, bs, i);
      JoinUsed(bs, i);
      JoinAt(bs, i);
    }
    assert i < |f| && !f[i].used && (i > 0 ==> f[i - 1] == bs[i - 1]);
    hide PlugForward, Join;
    if i > 0 && !f[i - 1].used {
      JoinChain(g, f, i - 1);
      JoinUsed(f, i - 1);
    }
  }

  lemma FreeKeeps(g: Geometry, bs: seq<Block>, i: nat)
    requires Sound(g, bs) && i < |bs|
    ensures Sound(g, FreeAt(bs, i)) && UsedBytes(FreeAt(bs, i)) == UsedBytes(bs) - Charge(bs[i])
    ensures Chain(g, Mark(bs, i, false)) && CoalescedBut(Mark(bs, i, false), i)
  {
    hide Chain, AllAligned, UsedBytes, PlugHoles;
    MarkChain(g, bs, i, false);
    MarkUsed(bs, i, false);
    AlignmentKept(bs, i, 0, false);
    assert CoalescedBut(Mark(bs, i, false), i);
    hide Coalesced, CoalescedBut;
    PlugKeeps(g, Mark(bs, i, false), i);
  }

  lemma AlignedSum(a: nat, b: nat, c: nat)
    requires Aligned(a) && Aligned(b) && Aligned(c)
    ensures Aligned(a + b + c)
  {}

  /** Cutting an allocated block leaves free neighbours only at the cut. */
  lemma SplitCoalesced(bs: seq<Block>, i: nat, cut: nat)
    requires Coalesced(bs) && i < |bs|
    ensures bs[i].used ==> CoalescedBut(Split(bs, i, cut), i + 1)
    ensures !bs[i].used ==> Coalesced(Mark(Split(bs, i, cut), i, true))
  {
    var r := Split(bs, i, cut);
    SplitAt(bs, i, cut);
    hide Split;
    if !bs[i].used {
      Neighbours(bs, i);
      assert i + 2 < |r| ==> r[i + 2].used;
      forall k, l | 0 <= k && l == k + 1 && l < |r| && k != i && l != i ensures r[k].used || r[l].used {
        if l < i {
          assert bs[k].used || bs[l].used;
        } else if k > i + 1 {
          assert bs[k - 1].used || bs[l - 1].used;
        }
      }
    }
  }

  /** Cutting a block at an aligned size keeps the chain aligned. */
  lemma CutAligned(g: Geometry, bs: seq<Block>, i: nat, size: nat)
    requires AllAligned(bs) && i < |bs| && Aligned(size) && g.Valid()
    ensures AllAligned(Split(bs, i, bs[i].off + g.S + size))
  {
    AlignedSum(bs[i].off, g.S, size);
    hide Aligned, AllAligned;
    AlignmentKept(bs, i, bs[i].off + g.S + size, false);
  }

  lemma ShrinkKeeps(g: Geometry, bs: seq<Block>, i: nat, size: nat)
    requires Sound(g, bs) && i < |bs| && bs[i].used && Aligned(size) && g.Valid()
    requires bs[i].off + g.S + size + g.S <= bs[i].next
    ensures Sound(g, ShrinkAt(g, bs, i, size))
    ensures UsedBytes(ShrinkAt(g, bs, i, size)) == UsedBytes(bs) - (bs[i].next - bs[i].off - g.S - size)
    ensures var r := Split(bs, i, bs[i].off + g.S + size);
      i + 1 < |r| && Chain(g, r) && CoalescedBut(r, i + 1) && !r[i + 1].used
  {
    hide Coalesced, CoalescedBut, Aligned, UsedBytes, PlugHoles, AllAligned, Chain, Geometry.Valid;
    var cut := bs[i].off + g.S + size;
    CutAligned(g, bs, i, size);
    SplitChain(g, bs, i, cut);
    SplitUsed(bs, i, cut);
    SplitAt(bs, i, cut);
    SplitCoalesced(bs, i, cut);
    hide Split;
    PlugKeeps(g, Split(bs, i, cut), i + 1);
  }

  /** A block that is cut is left with exactly the size asked for; a block is cut only if the rest is
      large enough for a block of its own. */
  lemma AllocTakes(g: Geometry, bs: seq<Block>, i: nat, k: nat)
    requires i < |bs| && Fits(g, bs[i], k)
    ensures TakenAt(g, bs, i, k, AllocAt(g, bs, i, k))
  {
    var b := bs[i];
    var r := AllocAt(g, bs, i, k);
    if Splits(g, b, k) {
      SplitAt(bs, i, b.off + g.S + k);
      assert r == bs[..i] + [Block(b.off, b.off + g.S + k, true), Block(b.off + g.S + k, b.next, false)] + bs[i + 1..];
    } else {
      assert r == bs[..i] + [Block(b.off, b.next, true)] + bs[i + 1..];
    }
  }

  lemma AllocKeeps(g: Geometry, bs: seq<Block>, i: nat, size: nat)
    requires Sound(g, bs) && i < |bs| && Fits(g, bs[i], size) && Aligned(size) && g.Valid()
    ensures Sound(g, AllocAt(g, bs, i, size)) && i < |AllocAt(g, bs, i, size)|
    ensures var b := AllocAt(g, bs, i, size)[i];
      && b.used && b.off == bs[i].off && b.off + g.S + size <= b.next <= bs[i].next
      && UsedBytes(AllocAt(g, bs, i, size)) == UsedBytes(bs) + Charge(b)
  {
    hide Coalesced, Aligned, UsedBytes, AllAligned, Chain, Geometry.Valid, Geometry.Min;
    if Splits(g, bs[i], size) {
      var cut := bs[i].off + g.S + size;
      CutAligned(g, bs, i, size);
      SplitChain(g, bs, i, cut);
      SplitUsed(bs, i, cut);
      SplitAt(bs, i, cut);
      SplitCoalesced(bs, i, cut);
      hide Split;
      MarkChain(g, Split(bs, i, cut), i, true);
      MarkUsed(Split(bs, i, cut), i, true);
      AlignmentKept(Split(bs, i, cut), i, 0, true);
    } else {
      MarkChain(g, bs, i, true);
      MarkUsed(bs, i, true);
      MarkCoalesced(bs, i);
      AlignmentKept(bs, i, 0, true);
    }
  }

  lemma MarkCoalesced(bs: seq<Block>, i: nat)
    requires Coalesced(bs) && i < |bs|
    ensures Coalesced(Mark(bs, i, true))
  {}

  /** Block `i` and its free neighbours became one free block. */
  ghost predicate FreedAt(bs: seq<Block>, i: nat, bs': seq<Block>) {
    && i < |bs|
    && var lo := if i > 0 && !bs[i - 1].used then i - 1 else i;
      var hi := if i + 1 < |bs| && !bs[i + 1].used then i + 1 else i;
      bs' == bs[..lo] + [Block(bs[lo].off, bs[hi].next, false)] + bs[hi + 1..]
  }

  /** Block `i` keeps `n` bytes, and the rest became a free block, with a free successor if there was one. */
  ghost predicate ShrunkAt(g: Geometry, bs: seq<Block>, i: nat, n: nat, bs': seq<Block>) {
    && i < |bs|
    && var b, hi := bs[i], if i + 1 < |bs| && !bs[i + 1].used then i + 1 else i;
      bs' == bs[..i]
        + [Block(b.off, b.off + g.S + n, true), Block(b.off + g.S + n, bs[hi].next, false)]
        + bs[hi + 1..]
  }

  /** Block `i` gave way to one taken for `size` bytes from the first free block with room: `p` is where
      it is. */
  ghost predicate MovesTo(g: Geometry, bs: seq<Block>, size: nat, i: nat, bs': seq<Block>, p: nat) {
    && i < |bs|
    && exists j: nat, k: nat, mid: seq<Block>, i': nat ::
         FirstRoom(g, bs, size, j, k) && p == bs[j].off + g.S && TakenAt(g, bs, j, k, mid)
         && i' < |mid| && mid[i'] == bs[i] && FreedAt(mid, i', bs')
  }

  lemma MoveTakes(g: Geometry, bs: seq<Block>, size: nat, i: nat)
    requires i < |bs| && bs[i].used && FirstFit(g, bs, Need(g, size)) < |bs|
    ensures var n := Need(g, size);
      var j := FirstFit(g, bs, n);
      var mid, i' := AllocAt(g, bs, j, n), Shifted(g, bs, j, n, i);
      i' < |mid| && MovesTo(g, bs, size, i, FreeAt(mid, i'), bs[j].off + g.S)
  {
    hide Need, FirstFit, AllocAt, FreeAt, Shifted, FirstRoom, TakenAt, FreedAt;
    var n := Need(g, size);
    var j := FirstFit(g, bs, n);
    var mid, i' := AllocAt(g, bs, j, n), Shifted(g, bs, j, n, i);
    FitIffServed(g, bs, size);
    AllocTakes(g, bs, j, n);
    ShiftedIs(g, bs, j, n, i);
    FreeJoins(mid, i');
    assert FirstRoom(g, bs, size, j, n) && TakenAt(g, bs, j, n, mid) && FreedAt(mid, i', FreeAt(mid, i'));
  }

  /** Rounding up first makes no difference. */
  lemma NeedOfRounded(g: Geometry, size: nat)
    ensures Need(g, AlignUp(size)) == Need(g, size) && AlignUp(size) <= Need(g, size)
  {
    assert AlignUp(AlignUp(size)) == AlignUp(size) by {
      AlignUpIsLeast(AlignUp(size), AlignUp(size));
    }
  }

  lemma JoinForward(bs: seq<Block>, i: nat)
    requires i < |bs| && !bs[i].used
    ensures var hi := if i + 1 < |bs| && !bs[i + 1].used then i + 1 else i;
      PlugForward(bs, i) == bs[..i] + [Block(bs[i].off, bs[hi].next, false)] + bs[hi + 1..]
  {
    if !(i + 1 < |bs| && !bs[i + 1].used) {
      assert bs == bs[..i] + [bs[i]] + bs[i + 1..];
    }
  }

  lemma FreeJoins(bs: seq<Block>, i: nat)
    requires i < |bs|
    ensures FreedAt(bs, i, FreeAt(bs, i))
  {
    var m := Mark(bs, i, false);
    var lo, hi := if i > 0 && !bs[i - 1].used then i - 1 else i, if i + 1 < |bs| && !bs[i + 1].used then i + 1 else i;
    var f := PlugForward(m, i);
    JoinForward(m, i);
    hide PlugForward;
    assert m[..i] == bs[..i] && m[hi + 1..] == bs[hi + 1..];
    assert f == bs[..i] + [Block(bs[i].off, bs[hi].next, false)] + bs[hi + 1..];
    if lo < i {
      assert f[..i - 1] == bs[..i - 1] && f[i + 1..] == bs[hi + 1..];
      assert Join(f, i - 1) == bs[..lo] + [Block(bs[lo].off, bs[hi].next, false)] + bs[hi + 1..];
    }
  }

  lemma ShrinkReturns(g: Geometry, bs: seq<Block>, i: nat, n: nat)
    requires i < |bs| && bs[i].used
    ensures ShrunkAt(g, bs, i, n, ShrinkAt(g, bs, i, n))
  {
    var b, cut := bs[i], bs[i].off + g.S + n;
    var hi := if i + 1 < |bs| && !bs[i + 1].used then i + 1 else i;
    var m := Split(bs, i, cut);
    SplitAt(bs, i, cut);
    SplitSlices(bs, i, cut);
    hide Split, Join;
    JoinForward(m, i + 1);
    PlugForwardKeeps(g, m, i + 1);
    assert m[hi + 2..] == bs[hi + 1..] && m[hi + 1].next == bs[hi].next;
    var f := PlugForward(m, i + 1);
    assert f == bs[..i] + [Block(b.off, cut, true)] + [Block(cut, bs[hi].next, false)] + bs[hi + 1..];
    hide PlugForward;
    assert ShrinkAt(g, bs, i, n) == f;
    assert [Block(b.off, cut, true)] + [Block(cut, bs[hi].next, false)] ==
        [Block(b.off, cut, true), Block(cut, bs[hi].next, false)];
  }

  lemma SplitSlices(bs: seq<Block>, i: nat, cut: nat)
    requires i < |bs|
    ensures var m := Split(bs, i, cut);
      && m[..i + 1] == bs[..i] + [bs[i].(next := cut)] && m[i + 2..] == bs[i + 1..]
      && (i + 1 < |bs| ==> m[i + 3..] == bs[i + 2..])
  {}

  // ------------------------------------------------------------------------------------------
  // Undoing
  // ------------------------------------------------------------------------------------------

  /** Freeing a block right after it was allocated restores the chain. */
  lemma FreeUndoesAlloc(g: Geometry, bs: seq<Block>, i: nat, size: nat)
    requires Coalesced(bs) && i < |bs| && Fits(g, bs[i], size)
    ensures i < |AllocAt(g, bs, i, size)| && FreeAt(AllocAt(g, bs, i, size), i) == bs
  {
    hide Coalesced, Geometry.Min, Split, Join;
    Neighbours(bs, i);
    if Splits(g, bs[i], size) {
      var r := Split(bs, i, bs[i].off + g.S + size);
      SplitAt(bs, i, bs[i].off + g.S + size);
      JoinUndoesSplit(bs, i, bs[i].off + g.S + size);
      MarkBack(r, i);
      hide Mark;
      assert PlugForward(r, i) == bs;
    } else {
      MarkBack(bs, i);
    }
  }

  lemma MarkBack(bs: seq<Block>, i: nat)
    requires i < |bs| && !bs[i].used
    ensures Mark(Mark(bs, i, true), i, false) == bs
  {}

  lemma JoinUndoesSplit(bs: seq<Block>, i: nat, cut: nat)
    requires i < |bs|
    ensures i + 1 < |Split(bs, i, cut)| && Join(Split(bs, i, cut), i) == bs
  {
    SplitAt(bs, i, cut);
    JoinAt(Split(bs, i, cut), i);
    hide Split, Join;
    assert |Join(Split(bs, i, cut), i)| == |bs|;
  }

  ghost predicate NoneUsed(bs: seq<Block>) {
    forall i :: 0 <= i < |bs| ==> !bs[i].used
  }

  /** A heap without a used block is the single free block it started as. */
  lemma NothingUsed(g: Geometry, bs: seq<Block>)
    requires Sound(g, bs) && NoneUsed(bs)
    ensures bs == [Block(0, g.End(), false)]
  {
    if |bs| > 1 {
      Neighbours(bs, 0);
    }
  }

  lemma LowestFreeIsUnique(g: Geometry, bs: seq<Block>, l: nat, l': nat)
    requires Chain(g, bs) && IsLowestFree(g, bs, l) && IsLowestFree(g, bs, l')
    ensures l == l'
  {}

  // ------------------------------------------------------------------------------------------
  // The lowest free block
  // ------------------------------------------------------------------------------------------

  /** plug_holes never takes the block lfree points to away, once the freed block is accounted for. */
  lemma PlugLowest(g: Geometry, bs: seq<Block>, i: nat, l: nat)
    requires Chain(g, bs) && i < |bs| && !bs[i].used && IsLowestFree(g, bs, l) && g.S > 0
    ensures IsLowestFree(g, PlugHoles(bs, i), l)
    ensures i + 1 < |bs| && !bs[i + 1].used ==> l != bs[i + 1].off
    ensures i > 0 && !bs[i - 1].used ==> l != bs[i].off
  {
    var f := PlugForward(bs, i);
    assert l <= bs[i].off;
    if i + 1 < |bs| && !bs[i + 1].used {
      JoinAt(bs, i);
      JoinChain(g, bs, i);
      assert bs[i].next == bs[i + 1].off;
      JoinLowest(g, bs, i, l);
    }
    assert Chain(g, f) && IsLowestFree(g, f, l) && i < |f| && !f[i].used && f[i].off == bs[i].off;
    assert i > 0 ==> f[i - 1] == bs[i - 1];
    hide PlugForward, Join;
    if i > 0 && !f[i - 1].used {
      assert f[i - 1].next == f[i].off && l <= f[i - 1].off;
      JoinLowest(g, f, i - 1, l);
    }
  }

  lemma JoinLowest(g: Geometry, bs: seq<Block>, i: nat, l: nat)
    requires i + 1 < |bs| && !bs[i].used && !bs[i + 1].used && IsLowestFree(g, bs, l) && bs[i].off < bs[i + 1].off
    ensures IsLowestFree(g, Join(bs, i), l)
  {
    var r := Join(bs, i);
    JoinAt(bs, i);
    hide Join;
    assert l <= bs[i].off;
    if l != g.End() {
      var k :| 0 <= k < |bs| && !bs[k].used && bs[k].off == l;
      assert k != i + 1;
      assert r[if k <= i then k else k - 1].off == l;
    }
    forall k | 0 <= k < |r| && !r[k].used ensures l <= r[k].off {
      if k > i { assert r[k] == bs[k + 1]; }
    }
  }

  lemma MarkFreeLowest(g: Geometry, bs: seq<Block>, i: nat, l: nat)
    requires i < |bs| && IsLowestFree(g, bs, l)
    ensures IsLowestFree(g, Mark(bs, i, false), if bs[i].off < l then bs[i].off else l)
  {
    var r := Mark(bs, i, false);
    assert r[i].off == bs[i].off;
    if l != g.End() {
      var k :| 0 <= k < |bs| && !bs[k].used && bs[k].off == l;
      assert !r[k].used && r[k].off == l;
    }
    if bs[i].off >= l && l == g.End() {
      assert bs[i].off >= g.End();
    }
  }

  /** When the free block `i` is taken, lfree still points to the lowest free block, unless that is
      the block taken; then no block up to and including it is free. */
  lemma TakenLowest(g: Geometry, bs: seq<Block>, r: seq<Block>, i: nat, l: nat)
    requires Chain(g, bs) && Chain(g, r) && i < |bs| && i < |r| && IsLowestFree(g, bs, l) && g.S > 0
    requires !bs[i].used && r[i].used && r[i].off == bs[i].off && forall j :: 0 <= j < i ==> r[j] == bs[j]
    ensures bs[i].off != l ==> IsLowestFree(g, r, l)
    ensures bs[i].off == l ==> forall j :: 0 <= j <= i ==> r[j].used
  {
    if bs[i].off != l {
      assert bs[i].off + g.S <= bs[i].next <= g.End();
      var k :| 0 <= k < |bs| && !bs[k].used && bs[k].off == l;
      if k > i {
        ChainOrdered(g, bs, i, k);
      }
      assert r[k] == bs[k];
      forall j | 0 <= j < |r| && !r[j].used ensures l <= r[j].off {
        if j > i {
          ChainOrdered(g, r, i, j);
        } else {
          assert r[j] == bs[j];
        }
      }
    } else {
      forall j | 0 <= j < i ensures bs[j].used {
        ChainOrdered(g, bs, j, i);
      }
    }
  }

  lemma ChargeNonNegative(g: Geometry, bs: seq<Block>)
    requires forall i :: 0 <= i < |bs| ==> bs[i].off <= bs[i].next
    ensures UsedBytes(bs) >= 0
  {}

  /** Scanning on from an index up to which nothing is free finds the lowest free block. */
  lemma LowestFrom(g: Geometry, bs: seq<Block>, k: nat)
    requires Chain(g, bs) && k <= |bs| && (forall j :: 0 <= j < k ==> bs[j].used) && (k < |bs| ==> !bs[k].used)
    ensures IsLowestFree(g, bs, if k < |bs| then bs[k].off else g.End())
  {
    forall j | 0 <= j < |bs| && !bs[j].used && j != k ensures k < |bs| && bs[k].off <= bs[j].off {
      ChainOrdered(g, bs, k, j);
    }
  }

  /** Where a walk along the chain from block `i` finds a free block, or the end marker. */
  ghost function NextFree(g: Geometry, bs: seq<Block>, i: nat): nat
    decreases |bs| - i
  {
    if i >= |bs| then g.End() else if !bs[i].used then bs[i].off else NextFree(g, bs, i + 1)
  }

  lemma {:induction false} NextFreeIsLowest(g: Geometry, bs: seq<Block>, i: nat)
    requires Chain(g, bs) && i <= |bs| && forall j :: 0 <= j < i ==> bs[j].used
    ensures IsLowestFree(g, bs, NextFree(g, bs, i))
    decreases |bs| - i
  {
    if i < |bs| && bs[i].used {
      NextFreeIsLowest(g, bs, i + 1);
    } else {
      LowestFrom(g, bs, i);
    }
  }

  /** lfree after block `i` was taken, which left the chain `r`: it moves on if it pointed there. */
  ghost function TakenLfree(g: Geometry, bs: seq<Block>, r: seq<Block>, i: nat, l: nat): nat
    requires i < |bs|
  {
    if bs[i].off == l then NextFree(g, r, i) else l
  }

  /** lfree after plug_holes: the headers it joins away no longer count. */
  ghost function PluggedLfree(bs: seq<Block>, i: nat, l: nat): nat
    requires i < |bs|
  {
    var l1 := if i + 1 < |bs| && !bs[i + 1].used && l == bs[i + 1].off then bs[i].off else l;
    if i > 0 && !bs[i - 1].used && l1 == bs[i].off then bs[i - 1].off else l1
  }

  function Smaller(a: nat, b: nat): nat {
    if a < b then a else b
  }

  lemma TakenLfreeIsLowest(g: Geometry, bs: seq<Block>, i: nat, size: nat, l: nat)
    requires Sound(g, bs) && g.Valid() && i < |bs| && Fits(g, bs[i], size) && Aligned(size) && IsLowestFree(g, bs, l)
    ensures IsLowestFree(g, AllocAt(g, bs, i, size), TakenLfree(g, bs, AllocAt(g, bs, i, size), i, l))
  {
    var r := AllocAt(g, bs, i, size);
    AllocKeeps(g, bs, i, size);
    hide Split, Coalesced, AllAligned, UsedBytes, Aligned, Splits, Geometry.Valid;
    assert g.S > 0;
    TakenLowest(g, bs, r, i, l);
    if bs[i].off == l {
      NextFreeIsLowest(g, r, i);
    }
  }

  lemma PluggedLfreeIsLowest(g: Geometry, bs: seq<Block>, i: nat, l: nat)
    requires Chain(g, bs) && i < |bs| && !bs[i].used && IsLowestFree(g, bs, l) && g.S > 0
    ensures IsLowestFree(g, PlugHoles(bs, i), PluggedLfree(bs, i, l))
  {
    PlugLowest(g, bs, i, l);
    hide Chain, IsLowestFree, PlugHoles;
  }

  lemma ReleasedLfreeIsLowest(g: Geometry, bs: seq<Block>, i: nat, l: nat)
    requires Chain(g, bs) && i < |bs| && IsLowestFree(g, bs, l) && g.S > 0
    ensures IsLowestFree(g, FreeAt(bs, i), PluggedLfree(Mark(bs, i, false), i, Smaller(bs[i].off, l)))
  {
    hide Chain, IsLowestFree, PlugHoles, PluggedLfree;
    MarkFreeLowest(g, bs, i, l);
    MarkChain(g, bs, i, false);
    PluggedLfreeIsLowest(g, Mark(bs, i, false), i, Smaller(bs[i].off, l));
  }

  lemma CutRest(g: Geometry, bs: seq<Block>, i: nat, cut: nat)
    requires Chain(g, bs) && i < |bs|
    ensures bs[i].next <= g.End() && i + 1 < |Split(bs, i, cut)| && !Split(bs, i, cut)[i + 1].used
  {
    SplitAt(bs, i, cut);
  }

  lemma CutLfreeIsLowest(g: Geometry, bs: seq<Block>, i: nat, n: nat, l: nat)
    requires Chain(g, bs) && i < |bs| && bs[i].used && IsLowestFree(g, bs, l) && g.S > 0
    requires bs[i].off + g.S + n + g.S <= bs[i].next
    ensures var cut := bs[i].off + g.S + n;
      i + 1 < |Split(bs, i, cut)|
      && IsLowestFree(g, ShrinkAt(g, bs, i, n), PluggedLfree(Split(bs, i, cut), i + 1, Smaller(cut, l)))
  {
    hide Chain, IsLowestFree, PlugHoles, PluggedLfree, Split;
    var cut := bs[i].off + g.S + n;
    CutRest(g, bs, i, cut);
    SplitLowest(g, bs, i, cut, l);
    SplitChain(g, bs, i, cut);
    PluggedLfreeIsLowest(g, Split(bs, i, cut), i + 1, Smaller(cut, l));
  }

  lemma LowestIndex(g: Geometry, bs: seq<Block>, l: nat) returns (k: nat)
    requires Chain(g, bs) && IsLowestFree(g, bs, l) && g.S > 0
    ensures k <= |bs| && l == (if k < |bs| then bs[k].off else g.End())
    ensures forall j :: 0 <= j < k ==> bs[j].used
  {
    if l == g.End() {
      k := |bs|;
      forall j | 0 <= j < |bs| ensures bs[j].used {
        assert bs[j].off + g.S <= bs[j].next <= g.End();
      }
    } else {
      k :| 0 <= k < |bs| && !bs[k].used && bs[k].off == l;
      forall j | 0 <= j < k ensures bs[j].used {
        ChainOrdered(g, bs, j, k);
      }
    }
  }

  /** The search loop ends beyond the last place a fit could start. */
  lemma NoFitBeyond(g: Geometry, bs: seq<Block>, k: nat, size: nat)
    requires Chain(g, bs) && k <= |bs| && size <= g.M && g.M - size < (if k < |bs| then bs[k].off else g.End())
    requires forall j :: 0 <= j < k ==> !Fits(g, bs[j], size)
    ensures FirstFit(g, bs, size) == |bs|
  {
    forall j | k <= j < |bs| ensures !Fits(g, bs[j], size) {
      if j > k { ChainOrdered(g, bs, k, j); }
      if Fits(g, bs[j], size) { FitWithinBound(g, bs, j, size); }
    }
    FirstFitIs(g, bs, size, |bs|);
  }

  lemma NoFitAtAll(g: Geometry, bs: seq<Block>, size: nat)
    requires Chain(g, bs) && size > g.M
    ensures FirstFit(g, bs, size) == |bs|
  {
    FirstFitIs(g, bs, size, |bs|);
  }

  /** Where block `k` is found after the free block `i` was allocated. */
  ghost function Shifted(g: Geometry, bs: seq<Block>, i: nat, size: nat, k: nat): nat
    requires i < |bs|
  {
    if k > i && Splits(g, bs[i], size) then k + 1 else k
  }

  lemma ShiftedIs(g: Geometry, bs: seq<Block>, i: nat, size: nat, k: nat)
    requires i < |bs| && k < |bs| && k != i
    ensures var r := AllocAt(g, bs, i, size); var k' := Shifted(g, bs, i, size, k);
      k' < |r| && r[k'] == bs[k] && k' != i
  {
    SplitAt(bs, i, bs[i].off + g.S + size);
    hide Split, Splits;
  }

  /** When a used block is cut, the rest may be the new lowest free block. */
  lemma SplitLowest(g: Geometry, bs: seq<Block>, i: nat, cut: nat, l: nat)
    requires i < |bs| && bs[i].used && IsLowestFree(g, bs, l) && cut < g.End()
    ensures IsLowestFree(g, Split(bs, i, cut), if cut < l then cut else l)
  {
    var r := Split(bs, i, cut);
    SplitAt(bs, i, cut);
    hide Split;
    if l != g.End() {
      var k :| 0 <= k < |bs| && !bs[k].used && bs[k].off == l;
      assert r[if k < i then k else k + 1] == bs[k];
    }
    forall k | 0 <= k < |r| && !r[k].used ensures l <= r[k].off || cut <= r[k].off {
      if k < i {
        assert r[k] == bs[k];
      } else if k > i + 1 {
        assert r[k] == bs[k - 1];
      }
    }
    assert r[i + 1].off == cut;
  }

  function Larger(a: int, b: int): int {
    if a < b then b else a
  }

  lemma FreeMeans(g: Geometry, bs: seq<Block>, i: nat)
    requires Sound(g, bs) && i < |bs| && bs[i].used
    ensures Sound(g, FreeAt(bs, i)) && UsedBytes(FreeAt(bs, i)) == UsedBytes(bs) - (bs[i].next - bs[i].off) >= 0
    ensures bs[i].off <= bs[i].next
  {
    FreeKeeps(g, bs, i);
    hide Coalesced, AllAligned, UsedBytes, FreeAt;
    ChargeNonNegative(g, FreeAt(bs, i));
  }

  /** The free block a backward join starts from. */
  ghost function FreeNear(bs: seq<Block>, i: nat): (b: Block)
    requires i < |bs| && !bs[i].used
    ensures !b.used
  {
    if i > 0 && !bs[i - 1].used then bs[i - 1] else bs[i]
  }

  lemma PlugForwardKeeps(g: Geometry, bs: seq<Block>, i: nat)
    requires i < |bs| && !bs[i].used
    ensures var f := PlugForward(bs, i);
      i < |f| && f[i].off == bs[i].off && !f[i].used && (i > 0 ==> f[i - 1] == bs[i - 1])
  {
    if i + 1 < |bs| && !bs[i + 1].used {
      JoinAt(bs, i);
    }
  }
}
