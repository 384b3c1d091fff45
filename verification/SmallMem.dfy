/** The small-memory heap of mem.c: first fit over a block chain kept in the heap memory itself.

    Pointers are offsets into the heap memory; 0 is RT_NULL, as no payload starts there. */
module SmallMemHeap {
  import opened HeapChain
  import opened HeapSteps
  import opened HeapCells
  import opened HeapRuns

  datatype Layout = NoRoom | Room(heapPtr: nat, g: Geometry)

  /** How rt_smem_init lays out the `size` bytes at `begin`, with `control` bytes for the heap object.  The
      subtraction would wrap around if it did not fit. */
  function InitLayout(begin: nat, size: nat, control: nat, S: nat, RAW: nat): Layout
    requires Aligned(S)
  {
    var start := AlignUp(begin) + control;
    var end := AlignDown(begin + size);
    if end > 2 * S && end - 2 * S >= start then
      AlignedLess(end, S);
      AlignedAbove(start, end - 2 * S);
      Room(AlignUp(start), Geometry(S, RAW, end - AlignUp(start) - 2 * S))
    else
      NoRoom
  }

  lemma AlignedLess(n: int, S: int)
    requires Aligned(n) && Aligned(S)
    ensures Aligned(n - 2 * S)
  {}

  /** The guard is equivalent to there being room for the object and two headers, so that the subtraction
      that follows cannot wrap around; less than a word is lost at the end. */
  lemma LayoutFits(begin: nat, size: nat, control: nat, S: nat, RAW: nat)
    requires S > 0 && Aligned(S) && RAW > 0 && control > 0
    ensures var r := InitLayout(begin, size, control, S, RAW);
      && (r.Room? <==> AlignUp(AlignUp(begin) + control) + 2 * S <= AlignDown(begin + size))
      && (r.Room? ==>
          && r.g.Valid() && r.g.S == S && r.g.RAW == RAW && Aligned(r.heapPtr)
          && begin + control <= r.heapPtr && r.heapPtr + r.g.End() + S <= begin + size < r.heapPtr + r.g.End() + S + 8)
  {
    hide AlignUp, AlignDown, Aligned;
    var start, end := AlignUp(begin) + control, AlignDown(begin + size);
    if end > 2 * S && end - 2 * S >= start {
      AlignedLess(end, S);
      AlignedAbove(start, end - 2 * S);
      AlignedDifference(end - 2 * S, AlignUp(start));
    }
  }

  lemma AlignedDifference(a: int, b: int)
    requires Aligned(a) && Aligned(b)
    ensures Aligned(a - b)
  {}

  function AlignDown(n: nat): (r: nat)
    ensures Aligned(r) && r <= n < r + 8
  {
    n / 8 * 8
  }

  lemma AlignedAbove(a: nat, b: nat)
    requires Aligned(b) && a <= b
    ensures AlignUp(a) <= b
  {}

  class SmallMem {
    const g: Geometry
    const heap: array<Cell>
    var lfree: nat
    var used: nat
    var max: nat
    /** The chain the headers in memory spell out. */
    ghost var bs: seq<Block>

    ghost predicate Linked()
      reads `bs, heap
    {
      Links(g, this, heap[..], bs)
    }

    // ----------------------------------------------------------------------------------------
    // Elementary changes
    // ----------------------------------------------------------------------------------------

    method MarkBlock(p: nat, u: bool, ghost i: nat)
      requires Linked() && i < |bs| && bs[i].off == p
      modifies heap, this`bs
      ensures Linked() && bs == Mark(old(bs), i, u) && Kept(g, old(heap[..]), old(bs), heap[..], bs, old(bs)[i])
    {
      NextCell(g, this, heap[..], bs, i);
      MarkLinks(g, this, heap[..], bs, i, u);
      MarkKept(g, this, heap[..], bs, i, u);
      hide Links, Kept, Mark;
      ghost var c := heap[..];
      heap[p] := heap[p].(tag := PoolPtr(this, u));
      assert heap[..] == c[p := c[p].(tag := PoolPtr(this, u))];
      bs := Mark(bs, i, u);
    }

    method WriteHeader(p: nat, h: Cell)
      requires p + g.S <= heap.Length && g.S > 0
      modifies heap
      ensures heap[..] == WriteHead(g, old(heap[..]), p, h)
    {
      ghost var c := heap[..];
      forall k | p < k < p + g.S {
        heap[k] := Pad;
      }
      heap[p] := h;
      assert heap[..] == WriteHead(g, c, p, h);
    }

    /** The block at `p` is cut at `p2`; the prev field of the end marker is left alone. */
    method SplitBlock(p: nat, p2: nat, ghost i: nat)
      requires Linked() && i < |bs| && bs[i].off == p && p + g.S <= p2 && p2 + g.S <= bs[i].next
      modifies heap, this`bs
      ensures Linked() && bs == Split(old(bs), i, p2) && Kept(g, old(heap[..]), old(bs), heap[..], bs, old(bs)[i])
      ensures heap[p + g.S..p2] == old(heap[p + g.S..p2])
    {
      ghost var c := heap[..];
      NextCell(g, this, c, bs, i);
      SplitLinks(g, this, c, bs, i, p2);
      SplitKept(g, this, c, bs, i, p2);
      SplitOwnPayload(g, this, c, bs, i, p2);
      hide Links, Kept, Split;
      var n := heap[p].next;
      WriteHeader(p2, Head(PoolPtr(this, false), n, p));
      heap[p] := heap[p].(next := p2);
      if n != g.End() {
        heap[n] := heap[n].(prev := p2);
      }
      assert heap[..] == SplitCells(g, this, c, p, p2);
      hide SplitCells;
      assert heap[p + g.S..p2] == heap[..][p + g.S..p2];
      bs := Split(bs, i, p2);
    }

    /** The block at `p` swallows its successor, whose header is cleared. */
    method JoinNext(p: nat, ghost i: nat)
      requires Linked() && i + 1 < |bs| && bs[i].off == p && !bs[i].used && !bs[i + 1].used
      modifies heap, this`bs
      ensures Linked() && bs == Join(old(bs), i) && Kept(g, old(heap[..]), old(bs), heap[..], bs, old(bs)[i])
    {
      ghost var c := heap[..];
      LinksCanJoin(g, this, c, bs, i);
      JoinLinks(g, this, c, bs, i);
      JoinKept(g, this, c, bs, i);
      hide Links, Kept, Join;
      var n := heap[p].next;
      heap[n] := heap[n].(tag := PoolPtr(null, false));
      heap[p] := heap[p].(next := heap[n].next);
      var q := heap[n].next;
      heap[q] := heap[q].(prev := p);
      assert heap[..] == JoinCells(c, p);
      bs := Join(bs, i);
    }

    /** What is read of the block at `p` and of its neighbours. */
    lemma Neighbourhood(i: nat)
      requires Linked() && i < |bs|
      ensures bs[i].off < heap.Length && HeadIs(heap[bs[i].off], this, bs[i].used, bs[i].next)
      ensures bs[i].next < heap.Length && heap[bs[i].next].Head?
      ensures bs[i].next != bs[i].off && (bs[i].next == g.End() <==> i + 1 == |bs|)
      ensures heap[bs[i].next].tag.used == (i + 1 == |bs| || bs[i + 1].used)
      ensures heap[bs[i].off].prev < heap.Length && heap[heap[bs[i].off].prev].Head?
      ensures heap[bs[i].off].prev == if i == 0 then bs[i].off else bs[i - 1].off
      ensures i > 0 ==> bs[i - 1].off != bs[i].off && heap[bs[i - 1].off].tag.used == bs[i - 1].used
      ensures i + 1 < |bs| ==> bs[i].next == bs[i + 1].off
    {
      NextCell(g, this, heap[..], bs, i);
      if i > 0 {
        NextCell(g, this, heap[..], bs, i - 1);
        assert heap[..][bs[i - 1].next].prev == bs[i - 1].off;
      }
      if i + 1 < |bs| {
        NextCell(g, this, heap[..], bs, i + 1);
      }
    }

    /** The first half of plug_holes. */
    method PlugForward(mem: nat, ghost i: nat)
      requires Linked() && i < |bs| && bs[i].off == mem && !bs[i].used
      modifies heap, this`bs, this`lfree
      ensures Linked() && bs == HeapSteps.PlugForward(old(bs), i)
      ensures lfree == if i + 1 < |old(bs)| && !old(bs)[i + 1].used && old(lfree) == old(bs)[i + 1].off then mem
        else old(lfree)
      ensures Kept(g, old(heap[..]), old(bs), heap[..], bs, old(bs)[i])
    {
      Neighbourhood(i);
      hide Links, Kept, Join;
      var nmem := heap[mem].next;
      if mem != nmem && !heap[nmem].tag.used && nmem != g.End() {
        if lfree == nmem {
          lfree := mem;
        }
        JoinNext(mem, i);
      } else {
        KeptAll(g, heap[..], bs, bs[i]);
      }
    }

    /** The second half of plug_holes. */
    method PlugBackward(mem: nat, ghost i: nat)
      requires Linked() && i < |bs| && bs[i].off == mem && !bs[i].used
      modifies heap, this`bs, this`lfree
      ensures Linked() && bs == HeapSteps.PlugBackward(old(bs), i)
      ensures lfree == if i > 0 && !old(bs)[i - 1].used && old(lfree) == mem then old(bs)[i - 1].off else old(lfree)
      ensures Kept(g, old(heap[..]), old(bs), heap[..], bs, FreeNear(old(bs), i))
    {
      Neighbourhood(i);
      hide Links, Kept, Join;
      var pmem := heap[mem].prev;
      if pmem != mem && !heap[pmem].tag.used {
        if lfree == mem {
          lfree := pmem;
        }
        JoinNext(pmem, i - 1);
      } else {
        KeptAll(g, heap[..], bs, bs[i]);
      }
    }

    /** plug_holes: join the free block at `mem` with its free neighbours.  When lfree is already the
        lowest free block, neither of its two adjustments is ever made. */
    method PlugHoles(mem: nat, ghost i: nat)
      requires Linked() && i < |bs| && bs[i].off == mem && !bs[i].used && IsLowestFree(g, bs, lfree)
      modifies heap, this`bs, this`lfree
      ensures Linked() && bs == HeapSteps.PlugHoles(old(bs), i) && lfree == old(lfree) && IsLowestFree(g, bs, lfree)
      ensures Kept(g, old(heap[..]), old(bs), heap[..], bs, old(bs)[i])
    {
      ghost var c, bs0 := heap[..], bs;
      PlugLowest(g, bs, i, lfree);
      PlugForwardKeeps(g, bs, i);
      hide Linked, Kept, IsLowestFree, HeapSteps.PlugForward, HeapSteps.PlugBackward;
      PlugForward(mem, i);
      ghost var c1, bs1 := heap[..], bs;
      PlugBackward(mem, i);
      KeptTwice(g, c, bs0, c1, bs1, heap[..], bs, bs0[i], FreeNear(bs1, i));
    }

    // ----------------------------------------------------------------------------------------
    // The operations
    // ----------------------------------------------------------------------------------------

    ghost predicate Valid()
      reads this, heap
    {
      && g.Valid() && Linked() && Sound(g, bs)
      && IsLowestFree(g, bs, lfree)
      && used == UsedBytes(bs) && used <= max
    }

    /** rt_smem_init, for the memory between the first header and the end marker. */
    constructor (g: Geometry)
      requires g.Valid()
      ensures Valid() && this.g == g && bs == [Block(0, g.End(), false)] && used == max == 0
    {
      this.g := g;
      heap := new Cell[g.End() + g.S](_ => Pad);
      lfree, used, max := 0, 0, 0;
      bs := [Block(0, g.End(), false)];
      new;
      WriteHeader(0, Head(PoolPtr(this, false), g.End(), 0));
      WriteHeader(g.End(), Head(PoolPtr(this, true), g.End(), g.End()));
      assert bs[0].off == 0;
    }

    /** Move lfree on to the next free block if the block just taken was the lowest free one. */
    method AdvanceLfree(ptr: nat, ghost i: nat)
      requires Linked() && LfreeOr(g, bs, i, lfree) && bs[i].off == ptr
      modifies this`lfree
      ensures IsLowestFree(g, bs, lfree)
    {
      ghost var k := i;
      if ptr == lfree {
        assert heap[..][lfree].Head?;
        while heap[lfree].tag.used && lfree != g.End()
          invariant k <= |bs| && lfree == (if k < |bs| then bs[k].off else g.End()) && lfree < heap.Length
            && heap[lfree].Head?
          invariant forall j :: 0 <= j < k ==> bs[j].used
          decreases |bs| - k
        {
          assert k < |bs|;
          NextCell(g, this, heap[..], bs, k);
          assert bs[k].used;
          lfree := heap[lfree].next;
          k := k + 1;
        }
        if k < |bs| {
          NextCell(g, this, heap[..], bs, k);
        }
        LowestFrom(g, bs, k);
      }
    }

    /** The block found is cut if it is large enough, and accounted for. */
    lemma RoomOf(i: nat, size: nat)
      requires Linked() && i < |bs| && Fits(g, bs[i], size)
      ensures bs[i].off < heap.Length && heap[bs[i].off].Head? && heap[bs[i].off].next == bs[i].next
      ensures !bs[i].used && bs[i].off + g.S + size <= bs[i].next <= g.End() && Chain(g, bs) && g.End() <= heap.Length
    {
      NextCell(g, this, heap[..], bs, i);
    }

    method CutBlock(ptr: nat, size: nat, ghost i: nat)
      requires Linked() && i < |bs| && bs[i].off == ptr && Fits(g, bs[i], size)
      modifies heap, this`bs, this`used
      ensures Linked() && bs == CutAt(g, old(bs), i, size) && used == old(used) + (bs[i].next - bs[i].off)
      ensures Kept(g, old(heap[..]), old(bs), heap[..], bs, old(bs)[i])
    {
      hide Links, Kept, Split, Geometry.Min, Chain, Fits;
      RoomOf(i, size);
      if heap[ptr].next - (ptr + g.S) >= size + g.S + g.Min() {
        var ptr2 := ptr + g.S + size;
        SplitBlock(ptr, ptr2, i);
        used := used + size + g.S;
      } else {
        used := used + (heap[ptr].next - ptr);
        KeptAll(g, heap[..], bs, bs[i]);
      }
    }

    /** The block found is cut, accounted for and becomes used. */
    method TakeBlock(ptr: nat, size: nat, ghost i: nat)
      requires Linked() && i < |bs| && bs[i].off == ptr && Fits(g, bs[i], size)
      modifies heap, this`bs, this`used, this`max
      ensures Linked() && bs == AllocAt(g, old(bs), i, size) && i < |bs|
      ensures used == old(used) + (bs[i].next - bs[i].off) && max == Larger(old(max), used)
      ensures Kept(g, old(heap[..]), old(bs), heap[..], bs, old(bs)[i])
    {
      hide Linked, Kept, CutAt;
      ghost var c, bs0 := heap[..], bs;
      CutBlock(ptr, size, i);
      if max < used {
        max := used;
      }
      ghost var c1, bs1 := heap[..], bs;
      MarkBlock(ptr, true, i);
      KeptTwice(g, c, bs0, c1, bs1, heap[..], bs, bs0[i], bs1[i]);
    }

    /** The search ended at a fit: take it, and move lfree on if it pointed to it. */
    method AllocFound(ptr: nat, size: nat, ghost i: nat)
      requires Valid() && i < |bs| && bs[i].off == ptr && Fits(g, bs[i], size) && Aligned(size)
      modifies heap, this`bs, this`used, this`max, this`lfree
      ensures Valid() && Allocated(i, size)
    {
      hide Linked, Sound, IsLowestFree, Kept, UsedBytes, Fits, Aligned, AllocAt, LfreeOr, Geometry.Valid;
      TakeMeans(g, bs, i, size, lfree, used);
      TakeBlock(ptr, size, i);
      AdvanceLfree(ptr, i);
    }

    /** The search loop of rt_smem_alloc: it starts at lfree and stops at the last offset a block of
        `n` bytes can start from. */
    method Search(n: nat) returns (ptr: nat, found: bool)
      requires Linked() && IsLowestFree(g, bs, lfree) && n <= g.M
      ensures found == (FirstFit(g, bs, n) < |bs|)
      ensures found ==> ptr == bs[FirstFit(g, bs, n)].off
    {
      ptr := lfree;
      ghost var k := LowestIndex(g, bs, lfree);
      hide IsLowestFree, FirstFit;
      while ptr <= g.M - n
        invariant k <= |bs| && ptr == if k < |bs| then bs[k].off else g.End()
        invariant forall j :: 0 <= j < k ==> !Fits(g, bs[j], n)
        decreases |bs| - k
      {
        NextCell(g, this, heap[..], bs, k);
        if !heap[ptr].tag.used && heap[ptr].next - (ptr + g.S) >= n {
          FirstFitIs(g, bs, n, k);
          return ptr, true;
        }
        ptr := heap[ptr].next;
        k := k + 1;
      }
      NoFitBeyond(g, bs, k, n);
      found := false;
    }

    /** rt_smem_alloc: although the search starts at lfree, the block taken is the first fit counted
        from the head of the heap, and RT_NULL is returned only for size 0 or when nothing fits. */
    method Alloc(size: nat) returns (p: nat)
      requires Valid()
      modifies heap, this`bs, this`used, this`max, this`lfree
      ensures Valid() && AllocDone(size, p)
      ensures p != 0 <==> size > 0 && CanServe(g, old(bs), size)
      ensures p == 0 ==> Unchanged()
      ensures p != 0 ==> exists i: nat, k: nat ::
        FirstRoom(g, old(bs), size, i, k) && TakenAt(g, old(bs), i, k, bs) && p == old(bs)[i].off + g.S
    {
      FitIffServed(g, bs, size);
      hide CanServe, FirstRoom, TakenAt, Geometry.Min, Linked, Sound,
        IsLowestFree, UsedBytes, Aligned, FirstFit, Need, AllocAt, Kept, Larger, Fits;
      if size == 0 { return 0; }
      var n := Need(g, size);
      if n > g.M {
        NothingFits(n);
        return 0;
      }
      var ptr, found := Search(n);
      if found {
        AllocTakes(g, bs, FirstFit(g, bs, n), n);
        AllocFound(ptr, n, FirstFit(g, bs, n));
        return ptr + g.S;
      }
      return 0;
    }

    lemma NothingFits(n: nat)
      requires Linked() && n > g.M
      ensures FirstFit(g, bs, n) == |bs|
    {
      NoFitAtAll(g, bs, n);
    }

    twostate predicate Unchanged()
      reads this, heap
    {
      heap[..] == old(heap[..]) && bs == old(bs) && lfree == old(lfree) && used == old(used) && max == old(max)
    }

    /** `p` is what a request for `size` bytes returned. */
    twostate predicate AllocDone(size: nat, p: nat)
      reads this, heap
    {
      var n := Need(g, size);
      var j := FirstFit(g, old(bs), n);
      if size == 0 || j == |old(bs)| then p == 0 && Unchanged() else Allocated(j, n) && p == old(bs)[j].off + g.S
    }

    /** The free block `i` was allocated for `n` bytes. */
    twostate predicate Allocated(i: nat, n: nat)
      requires i < |old(bs)|
      reads this, heap
    {
      && bs == AllocAt(g, old(bs), i, n) && i < |bs|
      && used == old(used) + (bs[i].next - bs[i].off) && max == Larger(old(max), used)
      && Kept(g, old(heap[..]), old(bs), heap[..], bs, old(bs)[i])
    }

    /** `rmem` is what an allocation returned for block `i`, which is still in use. */
    ghost predicate Owns(rmem: nat, i: nat)
      reads `bs
    {
      i < |bs| && bs[i].used && rmem == bs[i].off + g.S
    }

    /** The used block `i` was freed. */
    twostate predicate Freed(i: nat)
      requires i < |old(bs)|
      reads this, heap
    {
      && bs == FreeAt(old(bs), i)
      && used == old(used) - (old(bs)[i].next - old(bs)[i].off) && max == old(max)
      && Kept(g, old(heap[..]), old(bs), heap[..], bs, old(bs)[i])
    }

    /** The block becomes free, and lfree moves down to it if it is now the lowest. */
    method ReleaseBlock(mem: nat, ghost i: nat)
      requires Linked() && i < |bs| && bs[i].off == mem && IsLowestFree(g, bs, lfree) && used >= bs[i].next - bs[i].off
      modifies heap, this`bs, this`used, this`lfree
      ensures Linked() && bs == Mark(old(bs), i, false) && IsLowestFree(g, bs, lfree)
      ensures used == old(used) - (old(bs)[i].next - old(bs)[i].off)
      ensures Kept(g, old(heap[..]), old(bs), heap[..], bs, old(bs)[i])
    {
      hide Linked, IsLowestFree, Kept;
      MarkFreeLowest(g, bs, i, lfree);
      MarkBlock(mem, false, i);
      if mem < lfree {
        lfree := mem;
      }
      Neighbourhood(i);
      used := used - (heap[mem].next - mem);
    }

    /** rt_smem_free, of RT_NULL or of a block in use. */
    method Free(rmem: nat, ghost i: nat)
      requires Valid() && (rmem != 0 ==> Owns(rmem, i))
      modifies heap, this`bs, this`used, this`lfree
      ensures Valid()
      ensures if rmem == 0 then Unchanged() else Freed(i) && FreedAt(old(bs), i, bs)
    {
      hide Valid, Freed, FreedAt;
      if rmem != 0 {
        FreeBlock(rmem - g.S, i);
      }
    }

    method FreeBlock(mem: nat, ghost i: nat)
      requires Valid() && i < |bs| && bs[i].used && bs[i].off == mem
      modifies heap, this`bs, this`used, this`lfree
      ensures Valid() && Freed(i) && FreedAt(old(bs), i, bs)
    {
      hide FreedAt, Linked, Sound, IsLowestFree, Kept, UsedBytes, HeapSteps.PlugHoles;
      FreeMeans(g, bs, i);
      FreeJoins(bs, i);
      ghost var c, bs0 := heap[..], bs;
      ReleaseBlock(mem, i);
      ghost var c1, bs1 := heap[..], bs;
      PlugHoles(mem, i);
      KeptTwice(g, c, bs0, c1, bs1, heap[..], bs, bs0[i], bs1[i]);
    }

    /** What a caller does with its block: a byte is stored at `k` bytes into it. */
    method Store(rmem: nat, k: nat, x: bv8, ghost i: nat)
      requires Valid() && Owns(rmem, i) && rmem + k < bs[i].next
      modifies heap
      ensures Valid() && heap[rmem + k] == Data(x) && Kept(g, old(heap[..]), bs, heap[..], bs, bs[i])
    {
      ghost var c := heap[..];
      PayloadWritten(g, this, c, bs, i, c[rmem + k := Data(x)]);
      hide Kept, Sound, IsLowestFree, UsedBytes;
      Neighbourhood(i);
      hide Links;
      heap[rmem + k] := Data(x);
      assert heap[..] == c[rmem + k := Data(x)];
    }

    /** rt_memcpy into block `j` from elsewhere in the heap. */
    method CopyInto(dst: nat, src: nat, len: nat, ghost j: nat)
      requires Linked() && j < |bs| && bs[j].off + g.S == dst && dst + len <= bs[j].next
      requires src + len <= heap.Length && (src + len <= dst || dst + len <= src)
      modifies heap
      ensures Linked() && Kept(g, old(heap[..]), bs, heap[..], bs, bs[j])
      ensures dst + len <= heap.Length && heap[dst..dst + len] == old(heap[src..src + len])
    {
      hide Kept, Links;
      Length();
      BlockInside(j);
      ghost var c := heap[..];
      CopyCellsAt(c, dst, src, len);
      PayloadWritten(g, this, c, bs, j, CopyCells(c, dst, src, len));
      forall k | dst <= k < dst + len {
        heap[k] := heap[src + (k - dst)];
      }
      assert heap[..] == CopyCells(c, dst, src, len);
    }

    lemma Length()
      requires Linked()
      ensures heap.Length == g.End() + g.S
    {}

    lemma BlockInside(j: nat)
      requires Linked() && j < |bs|
      ensures bs[j].next <= g.End() < heap.Length
    {}

    /** The used block `i` was cut down to `n` bytes, which are unchanged. */
    twostate predicate Shrunk(i: nat, n: nat)
      requires i < |old(bs)|
      reads this, heap
    {
      var b := old(bs)[i];
      && b.off + g.S + n <= heap.Length
      && bs == ShrinkAt(g, old(bs), i, n)
      && used == old(used) - (b.next - b.off - g.S - n) && max == old(max)
      && Kept(g, old(heap[..]), old(bs), heap[..], bs, b)
      && heap[..][b.off + g.S..b.off + g.S + n] == old(heap[..])[b.off + g.S..b.off + g.S + n]
    }

    /** The end of block `i` becomes a free block, and lfree moves down to it if it is the lowest. */
    method CutOff(ptr: nat, n: nat, ghost i: nat) returns (ptr2: nat)
      requires Linked() && i < |bs| && bs[i].used && bs[i].off == ptr && IsLowestFree(g, bs, lfree)
      requires ptr + g.S + n + g.S <= bs[i].next <= g.End() && g.S > 0 && used + n >= bs[i].next - ptr - g.S
      modifies heap, this`bs, this`used, this`lfree
      ensures ptr2 == ptr + g.S + n && Linked() && bs == Split(old(bs), i, ptr2) && IsLowestFree(g, bs, lfree)
      ensures used == old(used) - (old(bs)[i].next - ptr - g.S - n)
      ensures Kept(g, old(heap[..]), old(bs), heap[..], bs, old(bs)[i])
      ensures ptr2 <= heap.Length && heap[..][ptr + g.S..ptr2] == old(heap[..])[ptr + g.S..ptr2]
    {
      hide Linked, IsLowestFree, Kept, Split;
      Neighbourhood(i);
      var size := heap[ptr].next - ptr - g.S;
      used := used - (size - n);
      ptr2 := ptr + g.S + n;
      SplitLowest(g, bs, i, ptr2, lfree);
      SplitBlock(ptr, ptr2, i);
      if ptr2 < lfree {
        lfree := ptr2;
      }
    }

    method ShrinkBlock(ptr: nat, n: nat, ghost i: nat)
      requires Valid() && i < |bs| && bs[i].used && bs[i].off == ptr && Aligned(n) && ptr + g.S + n + g.S < bs[i].next
      modifies heap, this`bs, this`used, this`lfree
      ensures Valid() && Shrunk(i, n) && ShrunkAt(g, old(bs), i, n, bs)
    {
      hide ShrunkAt, Linked, Sound, IsLowestFree, Kept, UsedBytes, HeapSteps.PlugHoles, Split, Geometry.Valid, Aligned;
      ShrinkMeans(g, bs, i, n);
      ShrinkReturns(g, bs, i, n);
      ghost var c, bs0 := heap[..], bs;
      var ptr2 := CutOff(ptr, n, i);
      ghost var c1, bs1 := heap[..], bs;
      PlugHoles(ptr2, i + 1);
      KeptTwice(g, c, bs0, c1, bs1, heap[..], bs, bs0[i], bs1[i + 1]);
      KeptOne(g, c1, bs1, heap[..], bs, bs1[i + 1], i);
    }

    /** The used block `i` moved to the free block `j`, allocated for `n` bytes: the first `len` bytes
        of its payload are now found at `p`. */
    twostate predicate Moved(i: nat, j: nat, n: nat, len: int, p: nat)
      requires i < |old(bs)| && j < |old(bs)|
      reads this, heap
    {
      var b := old(bs)[i];
      var grown, k := AllocAt(g, old(bs), j, n), Shifted(g, old(bs), j, n, i);
      && k < |grown| && bs == FreeAt(grown, k) && grown[j] in bs
      && used == old(used) + (grown[j].next - grown[j].off) - (b.next - b.off)
      && max == Larger(old(max), old(used) + (grown[j].next - grown[j].off))
      && Kept(g, old(heap[..]), old(bs), heap[..], bs, b)
      && 0 <= len && p == old(bs)[j].off + g.S && p + len <= heap.Length && b.off + g.S + len <= heap.Length
      && heap[..][p..p + len] == old(heap[..])[b.off + g.S..b.off + g.S + len]
    }

    /** The payload of block `k` is copied into block `j`, by way of memory `c`, and block `k` freed. */
    method CopyAndFree(dst: nat, src: nat, len: nat, ghost j: nat, ghost k: nat) returns (ghost c: seq<Cell>)
      requires Valid() && Owns(src, k) && j < |bs| && j != k && bs[j].used && dst == bs[j].off + g.S
      requires dst + len <= bs[j].next <= g.End() && src + len <= bs[k].next <= g.End()
      requires bs[k].next <= bs[j].off || bs[j].next <= bs[k].off
      modifies heap, this`bs, this`used, this`lfree
      ensures Valid() && bs == FreeAt(old(bs), k) && max == old(max) && |c| == heap.Length == g.End() + g.S
      ensures used == old(used) - (old(bs)[k].next - old(bs)[k].off)
      ensures Kept(g, old(heap[..]), old(bs), c, old(bs), old(bs)[j]) && Kept(g, c, old(bs), heap[..], bs, old(bs)[k])
      ensures c[dst..dst + len] == old(heap[..])[src..src + len]
    {
      hide Linked, Sound, IsLowestFree, UsedBytes, FreeAt, Kept;
      Length();
      CopyInto(dst, src, len, j);
      c := heap[..];
      Free(src, k);
    }

    /** Block `i` of the chain `bs0` moves to the block `j` just allocated there. */
    method MoveTo(p: nat, rmem: nat, n: nat, len: nat, ghost c0: seq<Cell>, ghost bs0: seq<Block>, ghost i: nat,
                  ghost j: nat)
      requires Valid() && Sound(g, bs0) && |c0| == heap.Length && i < |bs0| && j < |bs0| && Fits(g, bs0[j], Need(g, n))
      requires bs == AllocAt(g, bs0, j, Need(g, n)) && Kept(g, c0, bs0, heap[..], bs, bs0[j])
      requires bs0[i].used && rmem == bs0[i].off + g.S && rmem + len <= bs0[i].next && len <= n && p == bs0[j].off + g.S
      modifies heap, this`bs, this`used, this`lfree
      ensures Valid() && max == old(max) && used == old(used) - (bs0[i].next - bs0[i].off)
      ensures var k := Shifted(g, bs0, j, Need(g, n), i);
        && j < |old(bs)| && k < |old(bs)| && bs == FreeAt(old(bs), k) && old(bs)[j] in bs
        && Kept(g, c0, bs0, heap[..], bs, bs0[i])
        && p + len <= heap.Length && rmem + len <= heap.Length && heap[..][p..p + len] == c0[rmem..rmem + len]
    {
      hide Linked, Sound, IsLowestFree, UsedBytes, FreeAt, Kept, AllocAt, Shifted, Need, Fits;
      ghost var k := Shifted(g, bs0, j, Need(g, n), i);
      ghost var c1, bs1 := heap[..], bs;
      MoveNeeds(g, bs0, j, n, i);
      ghost var c2 := CopyAndFree(p, rmem, len, j, k);
      MoveMeans(g, c0, bs0, c1, bs1, c2, heap[..], bs, i, j, k, len);
    }

    /** The first `len` bytes at `rmem` are now found at `p`. */
    twostate predicate BytesCame(rmem: nat, p: nat, len: int)
      reads this, heap
    {
      && 0 <= len && p + len <= heap.Length && rmem + len <= heap.Length
      && heap[..][p..p + len] == old(heap[..])[rmem..rmem + len]
    }

    /** Block `i` is moved to a new block of `n` bytes, if one can be had. */
    method MoveBlock(rmem: nat, size: nat, n: nat, ghost i: nat) returns (p: nat)
      requires Valid() && Owns(rmem, i) && n > 0 && size == bs[i].next - rmem
      modifies heap, this`bs, this`used, this`max, this`lfree
      ensures Valid()
      ensures FirstFit(g, old(bs), Need(g, n)) == |old(bs)| ==> p == 0 && Unchanged()
      ensures FirstFit(g, old(bs), Need(g, n)) < |old(bs)| ==>
        Moved(i, FirstFit(g, old(bs), Need(g, n)), Need(g, n), if size < n then size else n, p)
      ensures p != 0 <==> CanServe(g, old(bs), n)
      ensures p == 0 ==> Unchanged()
      ensures p != 0 ==> MovesTo(g, old(bs), n, i, bs, p) && BytesCame(rmem, p, if size < n then size else n)
    {
      hide Linked, Sound, IsLowestFree, UsedBytes, FirstFit, Need, AllocAt, FreeAt, Kept, Larger, Fits, Shifted,
        Aligned, CanServe, MovesTo, FirstRoom, TakenAt;
      ghost var c0, bs0 := heap[..], bs;
      ghost var j := FirstFit(g, bs, Need(g, n));
      if j < |bs| {
        MoveTakes(g, bs, n, i);
      }
      p := Alloc(n);
      if p != 0 {
        MoveTo(p, rmem, n, if size < n then size else n, c0, bs0, i, j);
      }
    }

    /** A block of the right size stays, one much too large is cut, and any other moves; its bytes come along. */
    twostate predicate Refitted(i: nat, rmem: nat, n: nat, p: nat)
      requires i < |old(bs)|
      reads this, heap
    {
      var room := old(bs)[i].next - rmem;
      && (room == n ==> p == rmem && Unchanged())
      && (n + g.S + g.RAW < room ==> p == rmem && ShrunkAt(g, old(bs), i, n, bs))
      && (room != n && n + g.S + g.RAW >= room ==>
            (p != 0 <==> CanServe(g, old(bs), n)) && (p != 0 ==> MovesTo(g, old(bs), n, i, bs, p)))
      && if p == 0 then Unchanged() else BytesCame(rmem, p, if room < n then room else n)
    }

    /** The part of rt_smem_realloc for a block in use and a nonzero size. */
    method Resize(rmem: nat, n: nat, ghost i: nat) returns (p: nat)
      requires Valid() && Owns(rmem, i) && 0 < n <= g.M && Aligned(n)
      modifies heap, this`bs, this`used, this`max, this`lfree
      ensures Valid() && ReallocDone(i, rmem, n, p) && Refitted(i, rmem, n, p)
    {
      hide Valid, FirstFit, Need, Moved, AllocDone, Aligned, ShrunkAt, CanServe, MovesTo, ShrinkAt, Kept;
      ReadNext(i);
      var ptr := rmem - g.S;
      var size := heap[ptr].next - ptr - g.S;
      if size == n {
        p := rmem;
      } else if n + g.S + g.RAW < size {
        ShrinkBlock(ptr, n, i);
        p := rmem;
      } else {
        p := MoveBlock(rmem, size, n, i);
      }
    }

    lemma ReadNext(i: nat)
      requires Valid() && i < |bs|
      ensures bs[i].off < heap.Length && heap[bs[i].off].Head? && heap[bs[i].off].next == bs[i].next
      ensures bs[i].off + g.S <= bs[i].next <= heap.Length && g.S > 0
    {
      NextCell(g, this, heap[..], bs, i);
    }

    /** What rt_smem_realloc of the block `i` at `rmem` to `n` bytes, rounded up, returns and does. */
    twostate predicate ReallocDone(i: nat, rmem: nat, n: nat, p: nat)
      requires rmem != 0 ==> i < |old(bs)|
      reads this, heap
    {
      if n > g.M then
        p == 0 && Unchanged()
      else if n == 0 then
        p == 0 && if rmem == 0 then Unchanged() else Freed(i)
      else if rmem == 0 then
        AllocDone(n, p)
      else
        var size := old(bs)[i].next - rmem;
        var j := FirstFit(g, old(bs), Need(g, n));
        if size == n then
          p == rmem && Unchanged()
        else if n + g.S + g.RAW < size then
          p == rmem && Shrunk(i, n)
        else if j == |old(bs)| then
          p == 0 && Unchanged()
        else
          Moved(i, j, Need(g, n), if size < n then size else n, p)
    }

    /** rt_smem_realloc: the payload is kept up to the smaller of the two sizes, whether the block
        shrinks in place or moves, and a failed call changes nothing. */
    method Realloc(rmem: nat, newsize: nat, ghost i: nat) returns (p: nat)
      requires Valid() && (rmem != 0 ==> Owns(rmem, i))
      modifies heap, this`bs, this`used, this`max, this`lfree
      ensures Valid() && ReallocDone(i, rmem, AlignUp(newsize), p)
      ensures newsize == 0 ==> p == 0 && if rmem == 0 then Unchanged() else FreedAt(old(bs), i, bs)
      ensures newsize > 0 && p == 0 ==> Unchanged()
      ensures newsize > 0 && rmem == 0 ==> (p != 0 <==> CanServe(g, old(bs), AlignUp(newsize)))
      ensures newsize > 0 && rmem != 0 ==> Refitted(i, rmem, AlignUp(newsize), p)
    {
      hide Sound, IsLowestFree, UsedBytes, FirstFit, Need, Moved, Shrunk, Freed, AllocDone, Aligned, Links,
        Geometry.Valid, AlignUp, FreedAt, CanServe, MovesTo, ShrunkAt;
      RoundedIsZero(newsize);
      var n := AlignUp(newsize);
      if n > g.M {
        TooLarge(rmem, n, i);
        p := 0;
      } else if n == 0 {
        Free(rmem, i);
        p := 0;
      } else if rmem == 0 {
        p := Alloc(n);
      } else {
        p := Resize(rmem, n, i);
      }
    }

    lemma TooLarge(rmem: nat, n: nat, i: nat)
      requires Valid() && n > g.M && (rmem != 0 ==> Owns(rmem, i))
      ensures !CanServe(g, bs, n) && (rmem != 0 ==> bs[i].next - rmem <= g.M)
    {
      FitIffServed(g, bs, n);
      NothingFits(Need(g, n));
    }

    // ----------------------------------------------------------------------------------------
    // The operations are the changes runs are made of
    // ----------------------------------------------------------------------------------------

    ghost function State(): Account
      reads this
    {
      Account(bs, lfree, used, max)
    }

    twostate lemma AllocIsStep(size: nat, p: nat)
      requires old(Valid()) && Valid() && AllocDone(size, p)
      ensures Step(g, old(State()), if p == 0 then Nothing else Take(Need(g, size)), State())
    {
      hide Linked, Sound, IsLowestFree, UsedBytes, AllocAt, Kept, Aligned, Geometry.Min, TakenLfree;
      if p != 0 {
        var i := FirstFit(g, old(bs), Need(g, size));
        TakenLfreeIsLowest(g, old(bs), i, Need(g, size), old(lfree));
        SameLowest(g, bs, lfree, TakenLfree(g, old(bs), bs, i, old(lfree)));
      }
    }

    twostate lemma FreeIsStep(i: nat)
      requires old(Valid()) && Valid() && i < |old(bs)| && old(bs)[i].used && Freed(i)
      ensures Step(g, old(State()), Release(i), State())
    {
      hide Linked, Sound, IsLowestFree, UsedBytes, FreeAt, Kept, PluggedLfree;
      SoundChain(g, old(bs));
      ReleasedLfreeIsLowest(g, old(bs), i, old(lfree));
      SameLowest(g, bs, lfree, PluggedLfree(Mark(old(bs), i, false), i, Smaller(old(bs)[i].off, old(lfree))));
    }

    twostate lemma ShrinkIsStep(i: nat, n: nat)
      requires old(Valid()) && Valid() && i < |old(bs)| && old(bs)[i].used && Shrunk(i, n)
      requires Aligned(n) && old(bs)[i].off + g.S + n + g.S <= old(bs)[i].next
      ensures Step(g, old(State()), Cut(i, n), State())
    {
      hide Linked, Sound, IsLowestFree, UsedBytes, ShrinkAt, Kept, Aligned, PluggedLfree, Split;
      var cut := old(bs)[i].off + g.S + n;
      SoundChain(g, old(bs));
      CutLfreeIsLowest(g, old(bs), i, n, old(lfree));
      SameLowest(g, bs, lfree, PluggedLfree(Split(old(bs), i, cut), i + 1, Smaller(cut, old(lfree))));
    }

    /** A block moves by one allocation and one release. */
    twostate lemma MoveIsTwoSteps(i: nat, n: nat, len: int, p: nat)
      requires old(Valid()) && Valid() && i < |old(bs)| && old(bs)[i].used && Aligned(n)
      requires FirstFit(g, old(bs), n) < |old(bs)| && Moved(i, FirstFit(g, old(bs), n), n, len, p)
      ensures var k := Shifted(g, old(bs), FirstFit(g, old(bs), n), n, i);
        exists s :: Step(g, old(State()), Take(n), s) && Step(g, s, Release(k), State())
    {
      hide Linked, Sound, IsLowestFree, UsedBytes, Kept, Aligned, FreeAt, Geometry.Valid, FirstFit, TakenLfree,
        PluggedLfree, AllocAt, Shifted, Chain;
      var j := FirstFit(g, old(bs), n);
      var r, k := AllocAt(g, old(bs), j, n), Shifted(g, old(bs), j, n, i);
      TakenInside(g, old(bs), j, n);
      ShiftedIs(g, old(bs), j, n, i);
      var used' := old(used) + (r[j].next - r[j].off);
      var s := Account(r, TakenLfree(g, old(bs), r, j, old(lfree)), used', Larger(old(max), used'));
      assert Step(g, old(State()), Take(n), s);
      StepKeeps(g, old(State()), Take(n), s);
      SoundChain(g, r);
      ReleasedLfreeIsLowest(g, r, k, s.lfree);
      SameLowest(g, bs, lfree, PluggedLfree(Mark(r, k, false), k, Smaller(r[k].off, s.lfree)));
    }
  }

  lemma RoundedIsZero(n: nat)
    ensures AlignUp(n) == 0 <==> n == 0
  {}

  lemma TakenInside(g: Geometry, bs: seq<Block>, j: nat, n: nat)
    requires j < |bs|
    ensures j < |AllocAt(g, bs, j, n)|
  {}

  lemma SameLowest(g: Geometry, bs: seq<Block>, l: nat, l': nat)
    requires Sound(g, bs) && IsLowestFree(g, bs, l) && IsLowestFree(g, bs, l')
    ensures l == l'
  {
    LowestFreeIsUnique(g, bs, l, l');
  }

  /** `l` is the lowest free block, or block `i` and nothing up to that is free. */
  ghost predicate LfreeOr(g: Geometry, bs: seq<Block>, i: nat, l: nat) {
    i < |bs| && if bs[i].off != l then IsLowestFree(g, bs, l) else forall j :: 0 <= j <= i ==> bs[j].used
  }

  lemma TakeMeans(g: Geometry, bs: seq<Block>, i: nat, size: nat, l: nat, used: nat)
    requires Sound(g, bs) && i < |bs| && Fits(g, bs[i], size) && Aligned(size) && g.Valid() && IsLowestFree(g, bs, l)
    requires used == UsedBytes(bs)
    ensures var r := AllocAt(g, bs, i, size);
      && Sound(g, r) && i < |r| && UsedBytes(r) == used + (r[i].next - r[i].off)
      && LfreeOr(g, r, i, l) && r[i].off == bs[i].off
  {
    AllocKeeps(g, bs, i, size);
    hide Split, Coalesced, AllAligned, UsedBytes, Aligned, Splits, Geometry.Valid;
    assert g.S > 0;
    TakenLowest(g, bs, AllocAt(g, bs, i, size), i, l);
  }

  lemma ShrinkMeans(g: Geometry, bs: seq<Block>, i: nat, n: nat)
    requires Sound(g, bs) && g.Valid() && i < |bs| && bs[i].used && Aligned(n) && bs[i].off + g.S + n + g.S < bs[i].next
    ensures Sound(g, ShrinkAt(g, bs, i, n)) && g.S > 0
    ensures UsedBytes(ShrinkAt(g, bs, i, n)) == UsedBytes(bs) - (bs[i].next - bs[i].off - g.S - n) >= 0
    ensures bs[i].next <= g.End()
    ensures var cut := bs[i].off + g.S + n; var r := Split(bs, i, cut);
      |r| == |bs| + 1 && r[i] == bs[i].(next := cut) && r[i + 1] == Block(cut, bs[i].next, false)
  {
    ShrinkKeeps(g, bs, i, n);
    SplitAt(bs, i, bs[i].off + g.S + n);
    hide Coalesced, AllAligned, UsedBytes, ShrinkAt, Split;
    ChargeNonNegative(g, ShrinkAt(g, bs, i, n));
  }

  /** The room found for a block to move to, and where the block itself is then found. */
  lemma MoveNeeds(g: Geometry, bs: seq<Block>, j: nat, n: nat, i: nat)
    requires Sound(g, bs) && g.Valid() && j < |bs| && i < |bs| && bs[i].used && Fits(g, bs[j], Need(g, n))
    ensures var r := AllocAt(g, bs, j, Need(g, n)); var k := Shifted(g, bs, j, Need(g, n), i);
      && j < |r| && k < |r| && k != j && r[k] == bs[i] && r[j].used && r[j].off == bs[j].off
      && bs[j].off + g.S + n <= r[j].next <= g.End() && r[j] !in bs && !bs[j].used && bs[i].next <= g.End()
      && (bs[i].next <= bs[j].off || r[j].next <= bs[i].off)
  {
    AllocKeeps(g, bs, j, Need(g, n));
    ShiftedIs(g, bs, j, Need(g, n), i);
    Apart(g, bs, i, j);
    hide AllocAt, Shifted, Coalesced, AllAligned;
    var x := AllocAt(g, bs, j, Need(g, n))[j];
    forall q | 0 <= q < |bs| ensures bs[q] != x {
      if q != j { Apart(g, bs, q, j); }
    }
  }

  lemma SameHead(a: seq<Cell>, b: seq<Cell>, lo: nat, hi: nat, len: nat)
    requires lo + len <= hi <= |a| && hi <= |b| && a[lo..hi] == b[lo..hi]
    ensures a[lo..lo + len] == b[lo..lo + len]
  {
    assert a[lo..lo + len] == a[lo..hi][..len];
  }

  lemma MoveMeans(g: Geometry, c0: seq<Cell>, bs0: seq<Block>, c1: seq<Cell>, bs1: seq<Block>, c2: seq<Cell>,
                  c3: seq<Cell>, bs3: seq<Block>, i: nat, j: nat, k: nat, len: nat)
    requires i < |bs0| && j < |bs0| && j < |bs1| && k < |bs1| && bs1[k] == bs0[i] && j != k
    requires bs0[i].used && !bs0[j].used && bs1[j].used && bs1[j] !in bs0 && bs1[j].off == bs0[j].off
    requires Kept(g, c0, bs0, c1, bs1, bs0[j]) && Kept(g, c1, bs1, c2, bs1, bs1[j]) && Kept(g, c2, bs1, c3, bs3, bs1[k])
    requires bs0[i].off + g.S + len <= bs0[i].next <= |c0| && |c0| == |c1| == |c2| == |c3|
    requires bs1[j].off + g.S + len <= bs1[j].next <= |c0|
    requires c2[bs1[j].off + g.S..bs1[j].off + g.S + len] == c1[bs0[i].off + g.S..bs0[i].off + g.S + len]
    ensures Kept(g, c0, bs0, c3, bs3, bs0[i]) && bs1[j] in bs3
    ensures c3[bs1[j].off + g.S..bs1[j].off + g.S + len] == c0[bs0[i].off + g.S..bs0[i].off + g.S + len]
  {
    KeptOne(g, c0, bs0, c1, bs1, bs0[j], i);
    SameHead(c0, c1, bs0[i].off + g.S, bs0[i].next, len);
    KeptOne(g, c2, bs1, c3, bs3, bs1[k], j);
    SameHead(c2, c3, bs1[j].off + g.S, bs1[j].next, len);
    KeptTwice(g, c0, bs0, c1, bs1, c2, bs1, bs0[j], bs1[j]);
    hide Kept;
    KeptTwice(g, c0, bs0, c2, bs1, c3, bs3, bs0[i], bs1[k]);
  }
}
