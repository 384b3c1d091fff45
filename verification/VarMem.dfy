/** The heap of varmem.c: the same block chain, always searched from its head.

    Its headers have no owner, so the pool of every tag is null. */
module VarMemHeap {
  import opened HeapChain
  import opened HeapSteps
  import opened HeapCells

  datatype Status = Ok | Invalid

  class VarMem {
    const g: Geometry
    const heap: array<Cell>
    var used: nat
    var max: nat
    /** The chain the headers in memory spell out. */
    ghost var bs: seq<Block>

    ghost predicate Linked()
      reads `bs, heap
    {
      Links(g, null, heap[..], bs)
    }

    ghost predicate Valid()
      reads this, heap
    {
      g.Valid() && Linked() && Sound(g, bs) && used == UsedBytes(bs) && used <= max
    }

    /** varmem_init_heap, for the memory between the first header and the end marker. */
    constructor (g: Geometry)
      requires g.Valid()
      ensures Valid() && this.g == g && bs == [Block(0, g.End(), false)] && used == max == 0
    {
      this.g := g;
      heap := new Cell[g.End() + g.S](_ => Pad);
      used, max := 0, 0;
      bs := [Block(0, g.End(), false)];
      new;
      WriteHeader(0, Head(PoolPtr(null, false), g.End(), 0));
      WriteHeader(g.End(), Head(PoolPtr(null, true), g.End(), g.End()));
      assert bs[0].off == 0;
    }

    method WriteHeader(p: nat, h: Cell)
      requires p + g.S <= heap.Length && g.S > 0
      modifies heap
      ensures heap[..] == WriteHead(g, old(heap[..]), p, h)
    {
      ghost var c := heap[..];
      forall k | p < k < p + g.S {
        heap[k] := Pad;
      }
      heap[p] := h;
      assert heap[..] == WriteHead(g, c, p, h);
    }

    method MarkBlock(p: nat, u: bool, ghost i: nat)
      requires Linked() && i < |bs| && bs[i].off == p
      modifies heap, this`bs
      ensures Linked() && bs == Mark(old(bs), i, u) && Kept(g, old(heap[..]), old(bs), heap[..], bs, old(bs)[i])
    {
      NextCell(g, null, heap[..], bs, i);
      MarkLinks(g, null, heap[..], bs, i, u);
      MarkKept(g, null, heap[..], bs, i, u);
      hide Links, Kept, Mark;
      ghost var c := heap[..];
      heap[p] := heap[p].(tag := heap[p].tag.(used := u));
      assert heap[..] == c[p := c[p].(tag := PoolPtr(null, u))];
      bs := Mark(bs, i, u);
    }

    /** The block at `p` is cut at `p2`; here the prev field of the end marker is written, too. */
    method SplitBlock(p: nat, p2: nat, ghost i: nat)
      requires Linked() && i < |bs| && bs[i].off == p && p + g.S <= p2 && p2 + g.S <= bs[i].next
      modifies heap, this`bs
      ensures Linked() && bs == Split(old(bs), i, p2) && Kept(g, old(heap[..]), old(bs), heap[..], bs, old(bs)[i])
    {
      ghost var c := heap[..];
      NextCell(g, null, c, bs, i);
      SplitLinks(g, null, c, bs, i, p2);
      SplitKept(g, null, c, bs, i, p2);
      EndPrevFree(g, null, SplitCells(g, null, c, p, p2), Split(bs, i, p2), c, bs, bs[i], p2);
      hide Links, Kept, Split;
      var n := heap[p].next;
      WriteHeader(p2, Head(PoolPtr(null, false), n, p));
      heap[p] := heap[p].(next := p2);
      heap[n] := heap[n].(prev := p2);
      ghost var c' := SplitCells(g, null, c, p, p2);
      assert heap[..] == if n == g.End() then c'[n := c'[n].(prev := p2)] else c';
      bs := Split(bs, i, p2);
    }

    /** The block at `p` swallows its free successor, whose stale header stays behind. */
    method JoinNext(p: nat, ghost i: nat)
      requires Linked() && i + 1 < |bs| && bs[i].off == p && !bs[i].used && !bs[i + 1].used
      modifies heap, this`bs
      ensures Linked() && bs == Join(old(bs), i) && Kept(g, old(heap[..]), old(bs), heap[..], bs, old(bs)[i])
    {
      ghost var c := heap[..];
      LinksCanJoin(g, null, c, bs, i);
      JoinLinks(g, null, c, bs, i);
      JoinKept(g, null, c, bs, i);
      NextCell(g, null, c, bs, i + 1);
      hide Links, Kept, Join;
      heap[p] := heap[p].(next := heap[heap[p].next].next);
      var q := heap[p].next;
      heap[q] := heap[q].(prev := p);
      assert heap[..] == JoinCells(c, p);
      bs := Join(bs, i);
    }

    /** What is read of the block at `p` and of its neighbours. */
    lemma Neighbourhood(i: nat)
      requires Linked() && i < |bs|
      ensures bs[i].off < heap.Length && HeadIs(heap[bs[i].off], null, bs[i].used, bs[i].next)
      ensures bs[i].next < heap.Length && heap[bs[i].next].Head?
      ensures bs[i].next != bs[i].off && (bs[i].next == g.End() <==> i + 1 == |bs|)
      ensures heap[bs[i].next].tag.used == (i + 1 == |bs| || bs[i + 1].used)
      ensures heap[bs[i].off].prev < heap.Length && heap[heap[bs[i].off].prev].Head?
      ensures heap[bs[i].off].prev == if i == 0 then bs[i].off else bs[i - 1].off
      ensures i > 0 ==> bs[i - 1].off != bs[i].off && heap[bs[i - 1].off].tag.used == bs[i - 1].used
    {
      NextCell(g, null, heap[..], bs, i);
      if i > 0 {
        NextCell(g, null, heap[..], bs, i - 1);
        assert heap[..][bs[i - 1].next].prev == bs[i - 1].off;
      }
      if i + 1 < |bs| {
        NextCell(g, null, heap[..], bs, i + 1);
      }
    }

    method PlugForward(item: nat, ghost i: nat)
      requires Linked() && i < |bs| && bs[i].off == item && !bs[i].used
      modifies heap, this`bs
      ensures Linked() && bs == HeapSteps.PlugForward(old(bs), i)
      ensures Kept(g, old(heap[..]), old(bs), heap[..], bs, old(bs)[i])
    {
      Neighbourhood(i);
      hide Links, Kept, Join;
      var next := heap[item].next;
      if item != next && !heap[next].tag.used && next != g.End() {
        JoinNext(item, i);
      } else {
        KeptAll(g, heap[..], bs, bs[i]);
      }
    }

    method PlugBackward(item: nat, ghost i: nat)
      requires Linked() && i < |bs| && bs[i].off == item && !bs[i].used
      modifies heap, this`bs
      ensures Linked() && bs == HeapSteps.PlugBackward(old(bs), i)
      ensures Kept(g, old(heap[..]), old(bs), heap[..], bs, FreeNear(old(bs), i))
    {
      Neighbourhood(i);
      hide Links, Kept, Join;
      var prev := heap[item].prev;
      if prev != item && !heap[prev].tag.used {
        JoinNext(prev, i - 1);
      } else {
        KeptAll(g, heap[..], bs, bs[i]);
      }
    }

    /** varmem_plug_holes. */
    method PlugHoles(item: nat, ghost i: nat)
      requires Linked() && i < |bs| && bs[i].off == item && !bs[i].used
      modifies heap, this`bs
      ensures Linked() && bs == HeapSteps.PlugHoles(old(bs), i)
      ensures Kept(g, old(heap[..]), old(bs), heap[..], bs, old(bs)[i])
    {
      ghost var c, bs0 := heap[..], bs;
      PlugForwardKeeps(g, bs, i);
      hide Linked, Kept, HeapSteps.PlugForward, HeapSteps.PlugBackward;
      PlugForward(item, i);
      ghost var c1, bs1 := heap[..], bs;
      PlugBackward(item, i);
      KeptTwice(g, c, bs0, c1, bs1, heap[..], bs, bs0[i], FreeNear(bs1, i));
    }

    method CutBlock(offset: nat, size: nat, ghost i: nat)
      requires Linked() && i < |bs| && bs[i].off == offset && Fits(g, bs[i], size)
      modifies heap, this`bs, this`used
      ensures Linked() && bs == CutAt(g, old(bs), i, size) && used == old(used) + (bs[i].next - bs[i].off)
      ensures Kept(g, old(heap[..]), old(bs), heap[..], bs, old(bs)[i])
    {
      NextCell(g, null, heap[..], bs, i);
      hide Links, Kept, Split, Geometry.Min;
      if heap[offset].next - offset - g.S >= size + g.S + g.Min() {
        SplitBlock(offset, offset + g.S + size, i);
        used := used + size + g.S;
      } else {
        used := used + (heap[offset].next - offset);
        KeptAll(g, heap[..], bs, bs[i]);
      }
    }

    method TakeBlock(offset: nat, size: nat, ghost i: nat)
      requires Linked() && i < |bs| && bs[i].off == offset && Fits(g, bs[i], size)
      modifies heap, this`bs, this`used, this`max
      ensures Linked() && bs == AllocAt(g, old(bs), i, size) && i < |bs|
      ensures used == old(used) + (bs[i].next - bs[i].off) && max == Larger(old(max), used)
      ensures Kept(g, old(heap[..]), old(bs), heap[..], bs, old(bs)[i])
    {
      hide Linked, Kept, CutAt;
      ghost var c, bs0 := heap[..], bs;
      CutBlock(offset, size, i);
      ghost var c1, bs1 := heap[..], bs;
      MarkBlock(offset, true, i);
      if max < used {
        max := used;
      }
      KeptTwice(g, c, bs0, c1, bs1, heap[..], bs, bs0[i], bs1[i]);
    }

    /** The search loop of varmem_alloc_block, from the first block on. */
    method Search(n: nat) returns (offset: nat, found: bool)
      requires Linked() && n <= g.M
      ensures found == (FirstFit(g, bs, n) < |bs|)
      ensures found ==> offset == bs[FirstFit(g, bs, n)].off
    {
      offset := 0;
      ghost var k := 0;
      hide FirstFit;
      while offset <= g.M - n
        invariant k <= |bs| && offset == if k < |bs| then bs[k].off else g.End()
        invariant forall j :: 0 <= j < k ==> !Fits(g, bs[j], n)
        decreases |bs| - k
      {
        NextCell(g, null, heap[..], bs, k);
        if !(heap[offset].tag.used || heap[offset].next - offset - g.S < n) {
          FirstFitIs(g, bs, n, k);
          return offset, true;
        }
        offset := heap[offset].next;
        k := k + 1;
      }
      NoFitBeyond(g, bs, k, n);
      found := false;
    }

    twostate predicate Unchanged()
      reads this, heap
    {
      heap[..] == old(heap[..]) && bs == old(bs) && used == old(used) && max == old(max)
    }

    /** The very changes rt_smem_alloc makes, see SmallMem.Allocated. */
    twostate predicate Allocated(i: nat, n: nat)
      requires i < |old(bs)|
      reads this, heap
    {
      && bs == AllocAt(g, old(bs), i, n) && i < |bs|
      && used == old(used) + (bs[i].next - bs[i].off) && max == Larger(old(max), used)
      && Kept(g, old(heap[..]), old(bs), heap[..], bs, old(bs)[i])
    }

    /** varmem_alloc_block. */
    method Alloc(size: nat) returns (p: nat)
      requires Valid()
      modifies heap, this`bs, this`used, this`max
      ensures Valid()
      ensures var n := Need(g, size); var j := FirstFit(g, old(bs), n);
        if size == 0 || j == |old(bs)| then p == 0 && Unchanged() else Allocated(j, n) && p == old(bs)[j].off + g.S
      ensures p != 0 <==> size > 0 && CanServe(g, old(bs), size)
      ensures p != 0 ==> exists i: nat, k: nat ::
        FirstRoom(g, old(bs), size, i, k) && TakenAt(g, old(bs), i, k, bs) && p == old(bs)[i].off + g.S
    {
      FitIffServed(g, bs, size);
      hide CanServe, FirstRoom, TakenAt, Geometry.Min, Linked, Sound, UsedBytes, Aligned, FirstFit, Need, AllocAt,
        Kept, Larger, Fits;
      if size == 0 { return 0; }
      var n := Need(g, size);
      if n > g.M {
        NothingFits(n);
        return 0;
      }
      var offset, found := Search(n);
      if found {
        AllocTakes(g, bs, FirstFit(g, bs, n), n);
        AllocFound(offset, n, FirstFit(g, bs, n));
        return offset + g.S;
      }
      return 0;
    }

    method AllocFound(offset: nat, n: nat, ghost i: nat)
      requires Valid() && i < |bs| && bs[i].off == offset && Fits(g, bs[i], n) && Aligned(n)
      modifies heap, this`bs, this`used, this`max
      ensures Valid() && Allocated(i, n)
    {
      hide Linked, Sound, Kept, UsedBytes, Fits, Aligned, AllocAt, Geometry.Valid;
      TakeKeeps(g, bs, i, n);
      TakeBlock(offset, n, i);
    }

    lemma NothingFits(n: nat)
      requires Linked() && n > g.M
      ensures FirstFit(g, bs, n) == |bs|
    {
      NoFitAtAll(g, bs, n);
    }

    twostate predicate Freed(i: nat)
      requires i < |old(bs)|
      reads this, heap
    {
      && bs == FreeAt(old(bs), i)
      && used == old(used) - (old(bs)[i].next - old(bs)[i].off) && max == old(max)
      && Kept(g, old(heap[..]), old(bs), heap[..], bs, old(bs)[i])
    }

    /** varmem_free_block, of RT_NULL, of a block in use, or of an address behind a header that is not
        in use, such as a block freed before. */
    method Free(ptr: nat, ghost i: nat) returns (r: Status)
      requires Valid()
      requires ptr == 0 || (g.S <= ptr && ptr - g.S < heap.Length && heap[ptr - g.S].Head?)
      requires ptr != 0 && heap[ptr - g.S].tag.used ==> i < |bs| && bs[i].used && ptr == bs[i].off + g.S
      modifies heap, this`bs, this`used
      ensures Valid() && (r == Ok <==> ptr != 0 && old(heap[ptr - g.S]).tag.used)
      ensures if r == Ok then Freed(i) && FreedAt(old(bs), i, bs) else Unchanged()
    {
      hide FreedAt, Linked, Sound, Kept, UsedBytes, HeapSteps.PlugHoles, Freed;
      if ptr == 0 { return Invalid; }
      if !heap[ptr - g.S].tag.used { return Invalid; }
      FreeBlock(ptr - g.S, i);
      r := Ok;
    }

    method FreeBlock(item: nat, ghost i: nat)
      requires Valid() && i < |bs| && bs[i].used && bs[i].off == item
      modifies heap, this`bs, this`used
      ensures Valid() && Freed(i) && FreedAt(old(bs), i, bs)
    {
      hide FreedAt, Linked, Sound, Kept, UsedBytes, HeapSteps.PlugHoles;
      FreeMeans(g, bs, i);
      FreeJoins(bs, i);
      ghost var c, bs0 := heap[..], bs;
      MarkBlock(item, false, i);
      Neighbourhood(i);
      used := used - (heap[item].next - item);
      ghost var c1, bs1 := heap[..], bs;
      PlugHoles(item, i);
      KeptTwice(g, c, bs0, c1, bs1, heap[..], bs, bs0[i], bs1[i]);
    }
  }

  lemma TakeKeeps(g: Geometry, bs: seq<Block>, i: nat, size: nat)
    requires Sound(g, bs) && i < |bs| && Fits(g, bs[i], size) && Aligned(size) && g.Valid()
    ensures var r := AllocAt(g, bs, i, size);
      Sound(g, r) && i < |r| && UsedBytes(r) == UsedBytes(bs) + (r[i].next - r[i].off)
  {
    AllocKeeps(g, bs, i, size);
  }

  /** The prev field of the end marker may hold anything. */
  lemma EndPrevFree(g: Geometry, pool: object?, c: seq<Cell>, bs: seq<Block>, c0: seq<Cell>, bs0: seq<Block>, x: Block,
                    v: nat)
    requires Links(g, pool, c, bs) && Kept(g, c0, bs0, c, bs, x) && g.End() < |c| && c[g.End()].Head?
    ensures var c' := c[g.End() := c[g.End()].(prev := v)];
      Links(g, pool, c', bs) && Kept(g, c0, bs0, c', bs, x)
  {
    var c' := c[g.End() := c[g.End()].(prev := v)];
    forall i | 0 <= i < |bs| - 1 ensures c'[bs[i].next].Head? && c'[bs[i].next].prev == bs[i].off {
      assert bs[i].next == bs[i + 1].off;
    }
    forall b | b in bs0 && b.used && b != x
      ensures b in bs && b.off + g.S <= b.next <= |c0| && b.next <= |c'| && Payload(g, c', b) == Payload(g, c0, b)
    {
      assert b in bs;
    }
  }
}
