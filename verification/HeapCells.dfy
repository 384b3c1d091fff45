/** The memory of the small heap: headers and payload in one array of cells. */
module HeapCells {
  import opened HeapChain
  import opened HeapSteps

  /** pool_ptr: the heap a block belongs to, and the used bit in its lowest position. */
  datatype PoolPtr = PoolPtr(pool: object?, used: bool)

  /** One byte of memory: a byte of payload, the start of a block header (which holds its fields), or
      one of the remaining bytes of a header. */
  datatype Cell = Data(byte: bv8) | Head(tag: PoolPtr, next: nat, prev: nat) | Pad

  predicate HeadIs(c: Cell, pool: object?, used: bool, next: nat) {
    c.Head? && c.tag == PoolPtr(pool, used) && c.next == next
  }

  /** The headers in memory spell out the chain `bs`.  The `prev` field of the end marker is not kept
      up to date by the source and is not looked at. */
  ghost predicate Links(g: Geometry, pool: object?, c: seq<Cell>, bs: seq<Block>) {
    && g.Valid() && |c| == g.End() + g.S && Chain(g, bs)
    && (forall i {:trigger bs[i].off} :: 0 <= i < |bs| ==> HeadIs(c[bs[i].off], pool, bs[i].used, bs[i].next))
    && (forall i {:trigger bs[i].next} :: 0 <= i < |bs| - 1 ==> c[bs[i].next].Head? && c[bs[i].next].prev == bs[i].off)
    && c[0].Head? && c[0].prev == 0
    && HeadIs(c[g.End()], pool, true, g.End())
  }

  /** A header is written at `p`, over whatever was there. */
  ghost function WriteHead(g: Geometry, c: seq<Cell>, p: nat, h: Cell): (r: seq<Cell>)
    ensures |r| == |c|
  {
    seq(|c|, k requires 0 <= k < |c| => if k == p then h else if p < k < p + g.S then Pad else c[k])
  }

  ghost function Payload(g: Geometry, c: seq<Cell>, b: Block): seq<Cell>
    requires b.off + g.S <= b.next <= |c|
  {
    c[b.off + g.S..b.next]
  }

  // ------------------------------------------------------------------------------------------
  // Setting the used bit
  // ------------------------------------------------------------------------------------------

  lemma MarkLinks(g: Geometry, pool: object?, c: seq<Cell>, bs: seq<Block>, i: nat, used: bool)
    requires Links(g, pool, c, bs) && i < |bs|
    ensures Links(g, pool, c[bs[i].off := c[bs[i].off].(tag := PoolPtr(pool, used))], Mark(bs, i, used))
  {
    var p := bs[i].off;
    var c' := c[p := c[p].(tag := PoolPtr(pool, used))];
    var r := Mark(bs, i, used);
    MarkChain(g, bs, i, used);
    forall k | 0 <= k < |r| ensures HeadIs(c'[r[k].off], pool, r[k].used, r[k].next) {
      if k != i { Apart(g, bs, i, k); }
    }
    assert forall k :: 0 <= k < |r| ==> r[k].next == bs[k].next && r[k].off == bs[k].off;
  }

  // ------------------------------------------------------------------------------------------
  // Cutting a block
  // ------------------------------------------------------------------------------------------

  /** A free header is written at `p2` and linked in behind the block at `p`. */
  ghost function SplitCells(g: Geometry, pool: object?, c: seq<Cell>, p: nat, p2: nat): seq<Cell>
    requires p < |c| && c[p].Head? && c[p].next < |c| && p < p2 && p2 + g.S <= c[p].next && c[c[p].next].Head?
  {
    var n := c[p].next;
    var c1 := WriteHead(g, c, p2, Head(PoolPtr(pool, false), n, p));
    var c2 := c1[p := c1[p].(next := p2)];
    if n != g.End() then c2[n := c2[n].(prev := p2)] else c2
  }

  lemma NextCell(g: Geometry, pool: object?, c: seq<Cell>, bs: seq<Block>, i: nat)
    requires Links(g, pool, c, bs) && i < |bs|
    ensures bs[i].off < |c| && HeadIs(c[bs[i].off], pool, bs[i].used, bs[i].next)
    ensures bs[i].next < |c| && c[bs[i].next].Head? && (i + 1 < |bs| ==> bs[i].next == bs[i + 1].off)
    ensures i + 1 == |bs| <==> bs[i].next == g.End()
  {
    if i + 1 < |bs| {
      assert bs[i + 1].off + g.S <= bs[i + 1].next;
    }
  }

  /** Cutting writes the new header and two fields; every other cell keeps its value. */
  lemma SplitCellsAt(g: Geometry, pool: object?, c: seq<Cell>, p: nat, p2: nat)
    requires p < |c| && c[p].Head? && c[p].next < |c| && p < p2 && p2 + g.S <= c[p].next && c[c[p].next].Head?
      && g.S > 0
    ensures var c', n := SplitCells(g, pool, c, p, p2), c[p].next;
      && |c'| == |c|
      && c'[p2] == Head(PoolPtr(pool, false), n, p) && c'[p] == c[p].(next := p2)
      && c'[n] == (if n != g.End() then c[n].(prev := p2) else c[n])
      && forall k :: 0 <= k < |c| && k != p && k != n && !(p2 <= k < p2 + g.S) ==> c'[k] == c[k]
  {}

  /** The place of block `k` of a chain after block `i` was cut. */
  lemma SplitHead(g: Geometry, pool: object?, c: seq<Cell>, bs: seq<Block>, i: nat, p2: nat, k: nat)
    requires Links(g, pool, c, bs) && i < |bs| && k < |bs| && k != i
    requires bs[i].off + g.S <= p2 && p2 + g.S <= bs[i].next
    requires c[bs[i].off].Head? && c[bs[i].off].next == bs[i].next && bs[i].next < |c| && c[bs[i].next].Head?
    ensures HeadIs(SplitCells(g, pool, c, bs[i].off, p2)[bs[k].off], pool, bs[k].used, bs[k].next)
    ensures k + 1 < |bs| ==> var c' := SplitCells(g, pool, c, bs[i].off, p2);
      c'[bs[k].next].Head? && c'[bs[k].next].prev == bs[k].off
  {
    Apart(g, bs, i, k);
    SplitCellsAt(g, pool, c, bs[i].off, p2);
    NextCell(g, pool, c, bs, k);
    NextCell(g, pool, c, bs, i);
    if k + 1 < |bs| {
      if k + 1 != i { Apart(g, bs, i, k + 1); }
      assert c[bs[k].next].prev == bs[k].off;
    }
    hide SplitCells;
  }

  /** The header of block `k` after the cut. */
  lemma SplitHeader(g: Geometry, pool: object?, c: seq<Cell>, bs: seq<Block>, i: nat, p2: nat, k: nat)
    requires Links(g, pool, c, bs) && i < |bs| && bs[i].off + g.S <= p2 && p2 + g.S <= bs[i].next && k <= |bs|
    requires c[bs[i].off].Head? && c[bs[i].off].next == bs[i].next && bs[i].next < |c| && c[bs[i].next].Head?
    ensures var c', r := SplitCells(g, pool, c, bs[i].off, p2), Split(bs, i, p2);
      && |r| == |bs| + 1 && r[k].off < |c'| && HeadIs(c'[r[k].off], pool, r[k].used, r[k].next)
      && (k < |bs| ==> r[k].next < |c'| && c'[r[k].next].Head? && c'[r[k].next].prev == r[k].off)
  {
    hide Split, SplitCells;
    SplitAt(bs, i, p2);
    NextCell(g, pool, c, bs, i);
    SplitCellsAt(g, pool, c, bs[i].off, p2);
    if k != i && k != i + 1 {
      var k0 := if k < i then k else k - 1;
      SplitHead(g, pool, c, bs, i, p2, k0);
      NextCell(g, pool, c, bs, k0);
    }
  }

  lemma SplitLinks(g: Geometry, pool: object?, c: seq<Cell>, bs: seq<Block>, i: nat, p2: nat)
    requires Links(g, pool, c, bs) && i < |bs| && bs[i].off + g.S <= p2 && p2 + g.S <= bs[i].next
    requires c[bs[i].off].Head? && c[bs[i].off].next == bs[i].next && bs[i].next < |c| && c[bs[i].next].Head?
    ensures Links(g, pool, SplitCells(g, pool, c, bs[i].off, p2), Split(bs, i, p2))
  {
    hide Split, SplitCells;
    SplitChain(g, bs, i, p2);
    NextCell(g, pool, c, bs, i);
    SplitCellsAt(g, pool, c, bs[i].off, p2);
    hide Chain;
    forall k | 0 <= k <= |bs| {
      SplitHeader(g, pool, c, bs, i, p2, k);
    }
  }

  // ------------------------------------------------------------------------------------------
  // Joining two blocks
  // ------------------------------------------------------------------------------------------

  /** The block behind the one at `p` loses its header. */
  ghost function JoinCells(c: seq<Cell>, p: nat): seq<Cell>
    requires p < |c| && c[p].Head? && c[p].next < |c| && c[c[p].next].Head? && p < c[p].next
    requires c[c[p].next].next < |c| && c[c[c[p].next].next].Head? && c[p].next < c[c[p].next].next
    ensures |JoinCells(c, p)| == |c|
  {
    var n := c[p].next;
    var c1 := c[n := c[n].(tag := PoolPtr(null, false))];
    var c2 := c1[p := c1[p].(next := c1[n].next)];
    var q := c2[n].next;
    c2[q := c2[q].(prev := p)]
  }

  ghost predicate CanJoin(g: Geometry, c: seq<Cell>, bs: seq<Block>, i: nat) {
    && i + 1 < |bs| && bs[i].off < bs[i].next < bs[i + 1].next < |c|
    && c[bs[i].off].Head? && c[bs[i].off].next == bs[i].next
    && c[bs[i].next].Head? && c[bs[i].next].next == bs[i + 1].next
    && c[bs[i + 1].next].Head?
  }

  lemma LinksCanJoin(g: Geometry, pool: object?, c: seq<Cell>, bs: seq<Block>, i: nat)
    requires Links(g, pool, c, bs) && i + 1 < |bs|
    ensures CanJoin(g, c, bs, i)
  {
    NextCell(g, pool, c, bs, i);
    NextCell(g, pool, c, bs, i + 1);
  }

  lemma JoinHead(g: Geometry, pool: object?, c: seq<Cell>, bs: seq<Block>, i: nat, k: nat)
    requires Links(g, pool, c, bs) && CanJoin(g, c, bs, i) && k < |bs| && k != i && k != i + 1
    ensures HeadIs(JoinCells(c, bs[i].off)[bs[k].off], pool, bs[k].used, bs[k].next)
    ensures k + 1 < |bs| ==> var c' := JoinCells(c, bs[i].off);
      c'[bs[k].next].Head? && c'[bs[k].next].prev == bs[k].off
  {
    Apart(g, bs, i, k);
    Apart(g, bs, i + 1, k);
    NextCell(g, pool, c, bs, k);
    NextCell(g, pool, c, bs, i);
    NextCell(g, pool, c, bs, i + 1);
    if k + 1 < |bs| {
      if k + 1 != i { Apart(g, bs, i, k + 1); }
      Apart(g, bs, i + 1, k + 1);
      assert c[bs[k].next].prev == bs[k].off;
    }
  }

  lemma JoinLinks(g: Geometry, pool: object?, c: seq<Cell>, bs: seq<Block>, i: nat)
    requires Links(g, pool, c, bs) && CanJoin(g, c, bs, i)
    ensures Links(g, pool, JoinCells(c, bs[i].off), Join(bs, i))
  {
    hide Join;
    var c', r := JoinCells(c, bs[i].off), Join(bs, i);
    JoinChain(g, bs, i);
    JoinAt(bs, i);
    NextCell(g, pool, c, bs, i);
    NextCell(g, pool, c, bs, i + 1);
    hide Chain;
    forall k | 0 <= k < |r| ensures HeadIs(c'[r[k].off], pool, r[k].used, r[k].next) {
      if k != i {
        JoinHead(g, pool, c, bs, i, if k < i then k else k + 1);
      }
    }
    forall k | 0 <= k < |r| - 1 ensures c'[r[k].next].Head? && c'[r[k].next].prev == r[k].off {
      if k != i {
        JoinHead(g, pool, c, bs, i, if k < i then k else k + 1);
      }
    }
  }

  // ------------------------------------------------------------------------------------------
  // Payload
  // ------------------------------------------------------------------------------------------

  lemma MarkPayload(g: Geometry, bs: seq<Block>, c: seq<Cell>, i: nat, x: Cell, k: nat)
    requires Chain(g, bs) && g.End() < |c| && g.S > 0 && i < |bs| && k < |bs| && bs[i].off < |c|
    ensures Payload(g, c[bs[i].off := x], bs[k]) == Payload(g, c, bs[k])
  {
    if k != i { Apart(g, bs, i, k); }
  }

  lemma SplitPayload(g: Geometry, pool: object?, c: seq<Cell>, bs: seq<Block>, i: nat, p2: nat, k: nat)
    requires Chain(g, bs) && g.End() + g.S == |c| && g.S > 0 && i < |bs| && k < |bs| && k != i
    requires bs[i].off + g.S <= p2 && p2 + g.S <= bs[i].next
    requires c[bs[i].off].Head? && c[bs[i].off].next == bs[i].next && bs[i].next < |c| && c[bs[i].next].Head?
    ensures Payload(g, SplitCells(g, pool, c, bs[i].off, p2), bs[k]) == Payload(g, c, bs[k])
  {
    Apart(g, bs, i, k);
    SplitCellsAt(g, pool, c, bs[i].off, p2);
    hide SplitCells;
  }

  /** The part of the cut block that stays with it. */
  lemma SplitOwnPayload(g: Geometry, pool: object?, c: seq<Cell>, bs: seq<Block>, i: nat, p2: nat)
    requires Chain(g, bs) && g.End() + g.S == |c| && g.S > 0 && i < |bs|
    requires bs[i].off + g.S <= p2 && p2 + g.S <= bs[i].next
    requires c[bs[i].off].Head? && c[bs[i].off].next == bs[i].next && bs[i].next < |c| && c[bs[i].next].Head?
    ensures SplitCells(g, pool, c, bs[i].off, p2)[bs[i].off + g.S..p2] == c[bs[i].off + g.S..p2]
  {
    SplitCellsAt(g, pool, c, bs[i].off, p2);
    hide SplitCells;
  }

  lemma JoinPayload(g: Geometry, c: seq<Cell>, bs: seq<Block>, i: nat, k: nat)
    requires Chain(g, bs) && g.End() + g.S == |c| && g.S > 0 && CanJoin(g, c, bs, i) && k < |bs| && k != i && k != i + 1
    ensures Payload(g, JoinCells(c, bs[i].off), bs[k]) == Payload(g, c, bs[k])
  {
    Apart(g, bs, i, k);
    Apart(g, bs, i + 1, k);
    assert bs[i].next == bs[i + 1].off;
  }

  /** Every used block but `x` is still there, with the bytes it had. */
  ghost predicate Kept(g: Geometry, c: seq<Cell>, bs: seq<Block>, c': seq<Cell>, bs': seq<Block>, x: Block) {
    forall b :: b in bs && b.used && b != x ==>
      b in bs' && b.off + g.S <= b.next <= |c| && b.next <= |c'| && Payload(g, c', b) == Payload(g, c, b)
  }

  lemma KeptTwice(g: Geometry, c: seq<Cell>, bs: seq<Block>, c': seq<Cell>, bs': seq<Block>, c'': seq<Cell>,
                  bs'': seq<Block>, x: Block, y: Block)
    requires Kept(g, c, bs, c', bs', x) && Kept(g, c', bs', c'', bs'', y) && (y == x || !y.used || y !in bs)
    ensures Kept(g, c, bs, c'', bs'', x)
  {}

  lemma KeptOne(g: Geometry, c: seq<Cell>, bs: seq<Block>, c': seq<Cell>, bs': seq<Block>, x: Block, i: nat)
    requires Kept(g, c, bs, c', bs', x) && i < |bs| && bs[i].used && bs[i] != x
    ensures bs[i] in bs' && bs[i].off + g.S <= bs[i].next <= |c| && bs[i].next <= |c'|
    ensures c'[bs[i].off + g.S..bs[i].next] == c[bs[i].off + g.S..bs[i].next]
  {
    assert bs[i] in bs;
  }

  lemma MarkKept(g: Geometry, pool: object?, c: seq<Cell>, bs: seq<Block>, i: nat, used: bool)
    requires Links(g, pool, c, bs) && i < |bs|
    ensures Kept(g, c, bs, c[bs[i].off := c[bs[i].off].(tag := PoolPtr(pool, used))], Mark(bs, i, used), bs[i])
  {
    var x := c[bs[i].off].(tag := PoolPtr(pool, used));
    forall b | b in bs && b.used && b != bs[i]
      ensures b in Mark(bs, i, used) && b.off + g.S <= b.next <= |c|
        && Payload(g, c[bs[i].off := x], b) == Payload(g, c, b)
    {
      var k :| 0 <= k < |bs| && bs[k] == b;
      assert Mark(bs, i, used)[k] == b;
      MarkPayload(g, bs, c, i, x, k);
    }
  }

  lemma SplitKept(g: Geometry, pool: object?, c: seq<Cell>, bs: seq<Block>, i: nat, p2: nat)
    requires Links(g, pool, c, bs) && i < |bs| && bs[i].off + g.S <= p2 && p2 + g.S <= bs[i].next
    requires c[bs[i].off].Head? && c[bs[i].off].next == bs[i].next && bs[i].next < |c| && c[bs[i].next].Head?
    ensures Kept(g, c, bs, SplitCells(g, pool, c, bs[i].off, p2), Split(bs, i, p2), bs[i])
  {
    var c', r := SplitCells(g, pool, c, bs[i].off, p2), Split(bs, i, p2);
    SplitAt(bs, i, p2);
    SplitCellsAt(g, pool, c, bs[i].off, p2);
    hide Split, SplitCells;
    forall b | b in bs && b.used && b != bs[i]
      ensures b in r && b.off + g.S <= b.next <= |c| && Payload(g, c', b) == Payload(g, c, b)
    {
      var k :| 0 <= k < |bs| && bs[k] == b;
      assert r[if k < i then k else k + 1] == b;
      SplitPayload(g, pool, c, bs, i, p2, k);
    }
  }

  lemma JoinKept(g: Geometry, pool: object?, c: seq<Cell>, bs: seq<Block>, i: nat)
    requires Links(g, pool, c, bs) && CanJoin(g, c, bs, i) && !bs[i].used && !bs[i + 1].used
    ensures Kept(g, c, bs, JoinCells(c, bs[i].off), Join(bs, i), bs[i])
  {
    var c', r := JoinCells(c, bs[i].off), Join(bs, i);
    JoinAt(bs, i);
    hide Join, JoinCells;
    forall b | b in bs && b.used && b != bs[i]
      ensures b in r && b.off + g.S <= b.next <= |c| && |c'| == |c| && Payload(g, c', b) == Payload(g, c, b)
    {
      var k :| 0 <= k < |bs| && bs[k] == b;
      assert r[if k < i then k else k - 1] == b;
      JoinPayload(g, c, bs, i, k);
    }
  }

  /** Writing into the payload of block `j` touches no header and no other block's payload. */
  lemma PayloadWritten(g: Geometry, pool: object?, c: seq<Cell>, bs: seq<Block>, j: nat, c': seq<Cell>)
    requires Links(g, pool, c, bs) && j < |bs| && |c'| == |c|
    requires forall k :: 0 <= k < |c| && !(bs[j].off + g.S <= k < bs[j].next) ==> c'[k] == c[k]
    ensures Links(g, pool, c', bs) && Kept(g, c, bs, c', bs, bs[j])
  {
    forall k | 0 <= k < |bs| ensures c'[bs[k].off] == c[bs[k].off] {
      if k != j { Apart(g, bs, j, k); }
    }
    forall k | 0 <= k < |bs| - 1 ensures c'[bs[k].next] == c[bs[k].next] {
      assert bs[k].next == bs[k + 1].off;
    }
    forall b | b in bs && b.used && b != bs[j]
      ensures b.off + g.S <= b.next <= |c| && Payload(g, c', b) == Payload(g, c, b)
    {
      var k :| 0 <= k < |bs| && bs[k] == b;
      Apart(g, bs, j, k);
    }
  }

  lemma KeptAll(g: Geometry, c: seq<Cell>, bs: seq<Block>, x: Block)
    requires Chain(g, bs) && g.End() <= |c|
    ensures Kept(g, c, bs, c, bs, x)
  {}

  /** `len` cells from `src` on, copied to `dst`. */
  ghost function CopyCells(c: seq<Cell>, dst: nat, src: nat, len: nat): seq<Cell>
    requires dst + len <= |c| && src + len <= |c|
  {
    c[..dst] + c[src..src + len] + c[dst + len..]
  }

  lemma CopyCellsAt(c: seq<Cell>, dst: nat, src: nat, len: nat)
    requires dst + len <= |c| && src + len <= |c|
    ensures var r := CopyCells(c, dst, src, len);
      && |r| == |c| && r[dst..dst + len] == c[src..src + len]
      && (forall k :: 0 <= k < dst || dst + len <= k < |c| ==> r[k] == c[k])
      && (forall k :: dst <= k < dst + len ==> r[k] == c[src + (k - dst)])
  {}
}
