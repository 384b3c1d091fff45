/** The bytes of a memheap's pool.  Writing a header changes the bytes it lies on, and writing payload
    destroys the headers it overlaps, so that neither can be done in the wrong place unnoticed. */
module MemheapBytes {
  import opened Sequences
  import opened HeapChain
  import opened HeapSteps
  import opened MemheapChain
  import opened MemheapLinks

  type Byte = x: int | 0 <= x < 256

  /** Byte `x` is payload of the block, and the block is in use. */
  ghost predicate Holds(g: Geometry, b: Block, x: int) {
    b.used && b.off + g.S <= x < b.next
  }

  ghost predicate InUse(g: Geometry, bs: seq<Block>, x: int) {
    exists k :: 0 <= k < |bs| && Holds(g, bs[k], x)
  }

  /** The payload bytes of all used blocks, save those from `lo` up to `hi`. */
  ghost function Live(g: Geometry, bs: seq<Block>, size: nat, lo: int, hi: int): set<int> {
    set x: int | 0 <= x < size && InUse(g, bs, x) && !(lo <= x < hi)
  }

  ghost predicate SameOn(keep: set<int>, a: seq<Byte>, b: seq<Byte>) {
    |a| == |b| && forall x :: x in keep && 0 <= x < |a| ==> a[x] == b[x]
  }

  /** A header at `p` lies in the pool and on none of the bytes to be kept. */
  ghost predicate Spares(S: nat, size: nat, keep: set<int>, p: int) {
    0 <= p && p + S <= size && forall x :: p <= x < p + S ==> x !in keep
  }

  /** So do all headers that can be written without further ado. */
  ghost predicate AllSpare(g: Geometry, size: nat, keep: set<int>, bs: seq<Block>, fl: seq<nat>) {
    && Spares(g.S, size, keep, g.End())
    && (forall k :: 0 <= k < |bs| ==> Spares(g.S, size, keep, bs[k].off))
    && (forall p :: p in fl ==> Spares(g.S, size, keep, p))
  }

  /** What lies in a block is not in use unless it is the payload of this block, and this is in use. */
  lemma OnlyOwn(g: Geometry, bs: seq<Block>, i: nat, x: int)
    requires Chain(g, bs) && i < |bs| && bs[i].off <= x < bs[i].next
    ensures InUse(g, bs, x) <==> Holds(g, bs[i], x)
  {
    forall k | 0 <= k < |bs| && k != i ensures !Holds(g, bs[k], x) {
      Apart(g, bs, i, k);
    }
  }

  /** No header on the block list or the free list lies on payload in use. */
  lemma HeadersSpare(g: Geometry, bs: seq<Block>, fl: seq<nat>, size: nat, lo: int, hi: int)
    requires Chain(g, bs) && AtBlocks(bs, fl) && size == g.M + 2 * g.S
    ensures AllSpare(g, size, Live(g, bs, size, lo, hi), bs, fl)
  {
    hide AtBlocks, InUse;
    var keep := Live(g, bs, size, lo, hi);
    forall k | 0 <= k < |bs| ensures Spares(g.S, size, keep, bs[k].off) {
      forall x | bs[k].off <= x < bs[k].off + g.S ensures x !in keep {
        OnlyOwn(g, bs, k, x);
      }
    }
    forall x | x >= g.End() ensures x !in keep {
      Below(g, bs, x);
    }
    ListSpares(g, bs, fl, size, keep);
  }

  lemma Below(g: Geometry, bs: seq<Block>, x: int)
    requires Chain(g, bs) && x >= g.End()
    ensures !InUse(g, bs, x)
  {}

  lemma ListSpares(g: Geometry, bs: seq<Block>, fl: seq<nat>, size: nat, keep: set<int>)
    requires AtBlocks(bs, fl) && forall k :: 0 <= k < |bs| ==> Spares(g.S, size, keep, bs[k].off)
    ensures forall p :: p in fl ==> Spares(g.S, size, keep, p)
  {}

  /** Room for a header in a free block. */
  lemma FreeSpares(g: Geometry, bs: seq<Block>, size: nat, lo: int, hi: int, i: nat, p: int)
    requires Chain(g, bs) && size == g.M + 2 * g.S && i < |bs| && !bs[i].used && bs[i].off <= p && p + g.S <= bs[i].next
    ensures Spares(g.S, size, Live(g, bs, size, lo, hi), p)
  {
    hide InUse;
    forall x | p <= x < p + g.S ensures !InUse(g, bs, x) {
      OnlyOwn(g, bs, i, x);
    }
  }

  /** The headers an allocation, growing and shrinking write anew. */
  lemma TakeSpares(g: Geometry, bs: seq<Block>, size: nat, i: nat, n: nat)
    requires Chain(g, bs) && size == g.M + 2 * g.S && i < |bs| && Fits(g, bs[i], n) && Splits(g, bs[i], n)
    ensures Spares(g.S, size, Live(g, bs, size, 0, 0), bs[i].off + n + g.S)
  {
    FreeSpares(g, bs, size, 0, 0, i, bs[i].off + n + g.S);
  }

  lemma GrowSpares(g: Geometry, bs: seq<Block>, size: nat, i: nat, p2: int)
    requires Chain(g, bs) && size == g.M + 2 * g.S && i + 1 < |bs| && !bs[i + 1].used
    requires bs[i].next <= p2 && p2 + g.S <= bs[i + 1].next
    ensures Spares(g.S, size, Live(g, bs, size, 0, 0), p2)
  {
    assert bs[i].next == bs[i + 1].off;
    FreeSpares(g, bs, size, 0, 0, i + 1, p2);
  }

  lemma ShrinkSpares(g: Geometry, bs: seq<Block>, size: nat, i: nat, p2: int)
    requires Chain(g, bs) && size == g.M + 2 * g.S && i < |bs| && 0 <= p2 && p2 + g.S <= bs[i].next
    ensures Spares(g.S, size, Live(g, bs, size, p2, bs[i].next), p2)
  {}

  /** The entry of a list, or its header. */
  lemma EntrySpares(g: Geometry, size: nat, keep: set<int>, bs: seq<Block>, fl: seq<nat>, k: int)
    requires AllSpare(g, size, keep, bs, fl)
    ensures At(fl, k, FREE_LIST) == FREE_LIST || Spares(g.S, size, keep, At(fl, k, FREE_LIST))
  {}

  /** A block and the two headers behind it. */
  lemma BlockSpares(g: Geometry, size: nat, keep: set<int>, bs: seq<Block>, fl: seq<nat>, i: nat)
    requires Chain(g, bs) && AllSpare(g, size, keep, bs, fl) && i < |bs|
    ensures Spares(g.S, size, keep, bs[i].off) && Spares(g.S, size, keep, bs[i].next)
  {
    if i + 1 < |bs| {
      assert bs[i].next == bs[i + 1].off;
    }
  }

  lemma SplitSpares(g: Geometry, size: nat, keep: set<int>, bs: seq<Block>, fl: seq<nat>, i: nat, p2: nat)
    requires AllSpare(g, size, keep, bs, fl) && i < |bs| && Spares(g.S, size, keep, p2)
    ensures AllSpare(g, size, keep, Split(bs, i, p2), fl)
  {
    hide Spares;
    SplitAt(bs, i, p2);
    hide Split;
  }

  lemma JoinSpares(g: Geometry, size: nat, keep: set<int>, bs: seq<Block>, fl: seq<nat>, i: nat)
    requires AllSpare(g, size, keep, bs, fl) && i + 1 < |bs|
    ensures AllSpare(g, size, keep, Join(bs, i), fl)
  {
    hide Spares;
    JoinAt(bs, i);
    hide Join;
  }

  // ------------------------------------------------------------------------------------------
  // Payload
  // ------------------------------------------------------------------------------------------

  /** The headers left after the bytes from `lo` up to `hi` were written. */
  function Erased(S: nat, items: Items, lo: int, hi: int): Items {
    map k | k in items && (k + S <= lo || hi <= k) :: items[k]
  }

  /** The header of a block lies outside the payload of any. */
  lemma HeaderOutside(g: Geometry, bs: seq<Block>, k: nat, j: nat, lo: int, hi: int)
    requires Chain(g, bs) && k < |bs| && j < |bs| && bs[j].off + g.S <= lo <= hi <= bs[j].next
    ensures bs[k].off + g.S <= lo || hi <= bs[k].off
  {
    if k != j {
      Apart(g, bs, j, k);
    }
  }

  lemma PayloadKeepsBlocks(g: Geometry, items: Items, bs: seq<Block>, j: nat, lo: int, hi: int)
    requires BlockLinks(g, items, bs) && j < |bs| && bs[j].off + g.S <= lo <= hi <= bs[j].next
    ensures BlockLinks(g, Erased(g.S, items, lo, hi), bs)
  {
    var c := Erased(g.S, items, lo, hi);
    forall k | 0 <= k < |bs| ensures HeadAt(g, c, bs, k) {
      assert HeadAt(g, items, bs, k);
      HeaderOutside(g, bs, k, j, lo, hi);
    }
  }

  /** Writing the payload of a block destroys no header of the block list or the free list. */
  lemma PayloadKeepsLinks(g: Geometry, r: Ring, bs: seq<Block>, fl: seq<nat>, j: nat, lo: int, hi: int)
    requires BlockLinks(g, r.items, bs) && r.Links(fl) && AtBlocks(bs, fl) && g.S > 0
    requires j < |bs| && bs[j].off + g.S <= lo <= hi <= bs[j].next
    ensures var c := Erased(g.S, r.items, lo, hi); BlockLinks(g, c, bs) && r.(items := c).Links(fl)
  {
    hide Ring.Links;
    var c := Erased(g.S, r.items, lo, hi);
    PayloadKeepsBlocks(g, r.items, bs, j, lo, hi);
    forall p | p in fl && p in r.items ensures p in c && c[p] == r.items[p] {
      var k :| 0 <= k < |bs| && bs[k].off == p;
      HeaderOutside(g, bs, k, j, lo, hi);
    }
    FreeLinksKept(r, c, fl);
  }

  lemma StaysInUse(g: Geometry, bs: seq<Block>, j: nat, n: nat, x: int)
    requires j < |bs| && !bs[j].used && InUse(g, bs, x)
    ensures InUse(g, AllocAt(g, bs, j, n), x)
  {
    var k :| 0 <= k < |bs| && Holds(g, bs[k], x);
    ShiftedIs(g, bs, j, n, k);
    hide AllocAt, Shifted;
    assert Holds(g, AllocAt(g, bs, j, n)[Shifted(g, bs, j, n, k)], x);
  }

  /** The blocks of a move: the old one, the new one, and where the old one is by then. */
  ghost predicate Moving(g: Geometry, bs: seq<Block>, i: nat, j: nat, n: nat, len: nat) {
    && i < |bs| && bs[i].used && j < |bs| && Fits(g, bs[j], n) && Chain(g, bs) && Chain(g, AllocAt(g, bs, j, n))
    && len <= n && bs[i].off + g.S + len <= bs[i].next
  }

  lemma MovingMeans(g: Geometry, bs: seq<Block>, i: nat, j: nat, n: nat, len: nat)
    requires Moving(g, bs, i, j, n, len)
    ensures i < |bs| && bs[i].used && j < |bs| && bs[i].off + g.S + len <= bs[i].next
    ensures var r, k, p, ptr := AllocAt(g, bs, j, n), Shifted(g, bs, j, n, i), bs[j].off + g.S, bs[i].off + g.S;
      && j < |r| && k < |r| && r[k] == bs[i] && r[j].used && r[j].off == bs[j].off && p + len <= r[j].next <= g.End()
      && (r[j].next <= r[k].off || r[k].next <= r[j].off) && bs[i].next <= g.End()
  {
    ShiftedIs(g, bs, j, n, i);
    hide Shifted, Splits;
    assert AllocAt(g, bs, j, n)[j].off == bs[j].off;
    Apart(g, AllocAt(g, bs, j, n), j, Shifted(g, bs, j, n, i));
  }

  /** From `a` to `b`, the `len` bytes at `src` were copied to `dst`. */
  ghost predicate Copied(a: seq<Byte>, b: seq<Byte>, dst: nat, src: nat, len: nat) {
    && |a| == |b| && dst + len <= |a| && src + len <= |a|
    && forall x :: 0 <= x < |b| ==> b[x] == a[if dst <= x < dst + len then src + (x - dst) else x]
  }

  /** The bytes before, and after allocating, copying and freeing. */
  ghost predicate Steps(g: Geometry, bs: seq<Block>, i: nat, j: nat, n: nat, len: nat, a: seq<Byte>, b: seq<Byte>,
                        c: seq<Byte>, d: seq<Byte>) {
    && Moving(g, bs, i, j, n, len) && |a| == |b| == g.M + 2 * g.S && SameOn(Live(g, bs, |a|, 0, 0), a, b)
    && Copied(b, c, bs[j].off + g.S, bs[i].off + g.S, len)
    && SameOn(Live(g, AllocAt(g, bs, j, n), |a|, bs[i].off + g.S, bs[i].next), c, d)
  }

  lemma Sizes(g: Geometry, bs: seq<Block>, i: nat, j: nat, n: nat, len: nat, a: seq<Byte>, b: seq<Byte>, c: seq<Byte>,
              d: seq<Byte>)
    requires Steps(g, bs, i, j, n, len, a, b, c, d)
    ensures i < |bs| && j < |bs| && |a| == |b| == |c| == |d|
    ensures bs[j].off + g.S + len <= |a| && bs[i].off + g.S + len <= |a| && bs[i].off + g.S + len <= bs[i].next
  {
    hide Live, AllocAt, Chain;
  }

  lemma OtherByte(g: Geometry, bs: seq<Block>, i: nat, j: nat, n: nat, len: nat, a: seq<Byte>, b: seq<Byte>,
                  c: seq<Byte>, d: seq<Byte>, x: nat)
    requires Steps(g, bs, i, j, n, len, a, b, c, d) && x < |a| && x in Live(g, bs, |a|, bs[i].off + g.S, bs[i].next)
    ensures x < |d| && a[x] == d[x]
  {
    var p := bs[j].off + g.S;
    hide AllocAt, InUse, Chain, Holds;
    assert x in Live(g, bs, |a|, 0, 0);
    StaysInUse(g, bs, j, n, x);
    assert x in Live(g, AllocAt(g, bs, j, n), |a|, bs[i].off + g.S, bs[i].next);
    if p <= x < p + len {
      NotThere(g, bs, j, x);
    } else {
      hide Live;
      assert c[x] == b[x];
    }
  }

  lemma NotThere(g: Geometry, bs: seq<Block>, j: nat, x: int)
    requires Chain(g, bs) && j < |bs| && !bs[j].used && bs[j].off <= x < bs[j].next
    ensures !InUse(g, bs, x)
  {
    OnlyOwn(g, bs, j, x);
  }

  lemma IsLive(g: Geometry, bs: seq<Block>, k: nat, size: nat, lo: int, hi: int, x: int)
    requires k < |bs| && bs[k].used && bs[k].off + g.S <= x < bs[k].next && x < size && !(lo <= x < hi)
    ensures x in Live(g, bs, size, lo, hi)
  {
    assert Holds(g, bs[k], x);
  }

  lemma MovedByte(g: Geometry, bs: seq<Block>, i: nat, j: nat, n: nat, len: nat, a: seq<Byte>, b: seq<Byte>,
                  c: seq<Byte>, d: seq<Byte>, t: nat)
    requires Steps(g, bs, i, j, n, len, a, b, c, d) && t < len
    ensures var p, ptr := bs[j].off + g.S, bs[i].off + g.S; p + len <= |d| && ptr + len <= |a| && d[p + t] == a[ptr + t]
  {
    hide Live, AllocAt, Chain, Fits;
    var p, ptr, r := bs[j].off + g.S, bs[i].off + g.S, AllocAt(g, bs, j, n);
    MovingMeans(g, bs, i, j, n, len);
    hide Moving, Shifted;
    IsLive(g, bs, i, |a|, 0, 0, ptr + t);
    IsLive(g, r, j, |a|, ptr, bs[i].next, p + t);
    assert c[p + t] == b[ptr + t];
  }

  /** A move brings the bytes along and changes no other byte in use. */
  lemma BytesMoved(g: Geometry, bs: seq<Block>, i: nat, j: nat, n: nat, len: nat, a: seq<Byte>, b: seq<Byte>,
                   c: seq<Byte>, d: seq<Byte>)
    requires Steps(g, bs, i, j, n, len, a, b, c, d)
    ensures i < |bs| && j < |bs| && SameOn(Live(g, bs, |a|, bs[i].off + g.S, bs[i].next), a, d)
    ensures var p, ptr := bs[j].off + g.S, bs[i].off + g.S;
      p + len <= |d| && ptr + len <= |a| && d[p..p + len] == a[ptr..ptr + len]
  {
    hide Steps, Live;
    Sizes(g, bs, i, j, n, len, a, b, c, d);
    var p, ptr := bs[j].off + g.S, bs[i].off + g.S;
    forall x | 0 <= x < |a| && x in Live(g, bs, |a|, ptr, bs[i].next) ensures a[x] == d[x] {
      OtherByte(g, bs, i, j, n, len, a, b, c, d, x);
    }
    var y, z := d[p..p + len], a[ptr..ptr + len];
    forall t | 0 <= t < len ensures y[t] == z[t] {
      MovedByte(g, bs, i, j, n, len, a, b, c, d, t);
    }
  }

  /** A block that stays where it is keeps its first `n` bytes, and all others theirs. */
  lemma BytesStay(g: Geometry, bs: seq<Block>, i: nat, n: nat, lo: int, hi: int, a: seq<Byte>, b: seq<Byte>)
    requires i < |bs| && bs[i].used && bs[i].off + g.S <= bs[i].next <= |a|
    requires lo >= hi || (lo >= bs[i].off + g.S + n && hi <= bs[i].next)
    requires SameOn(Live(g, bs, |a|, lo, hi), a, b)
    ensures SameOn(Live(g, bs, |a|, bs[i].off + g.S, bs[i].next), a, b)
    ensures var ptr := bs[i].off + g.S; var len := if bs[i].next - ptr < n then bs[i].next - ptr else n;
      b[ptr..ptr + len] == a[ptr..ptr + len]
  {
    hide InUse;
    var ptr := bs[i].off + g.S;
    assert Live(g, bs, |a|, ptr, bs[i].next) <= Live(g, bs, |a|, lo, hi);
    forall x | ptr <= x < bs[i].next && x < ptr + n ensures b[x] == a[x] {
      IsLive(g, bs, i, |a|, lo, hi, x);
    }
  }
}
