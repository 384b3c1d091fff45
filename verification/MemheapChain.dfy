/** What memheap.c adds to the block chain: the account of free bytes, growing into a free successor,
    and a list of the free blocks. */
module MemheapChain {
  import opened Sequences
  import opened HeapChain
  import opened HeapSteps

  /** The payload of a free block. */
  ghost function Room(g: Geometry, b: Block): int {
    if b.used then 0 else b.next - b.off - g.S
  }

  ghost function FreeBytes(g: Geometry, bs: seq<Block>): int {
    if bs == [] then 0 else FreeBytes(g, bs[..|bs| - 1]) + Room(g, bs[|bs| - 1])
  }

  lemma {:induction false} FreeConcat(g: Geometry, a: seq<Block>, b: seq<Block>)
    ensures FreeBytes(g, a + b) == FreeBytes(g, a) + FreeBytes(g, b)
  {
    if b == [] {
      assert a + b == a;
    } else {
      assert (a + b)[..|a + b| - 1] == a + b[..|b| - 1];
      FreeConcat(g, a, b[..|b| - 1]);
    }
  }

  lemma FreeReplace(g: Geometry, a: seq<Block>, b: seq<Block>, b': seq<Block>, c: seq<Block>)
    ensures FreeBytes(g, a + b' + c) - FreeBytes(g, b') == FreeBytes(g, a + b + c) - FreeBytes(g, b)
  {
    FreeConcat(g, a + b, c);
    FreeConcat(g, a, b);
    FreeConcat(g, a + b', c);
    FreeConcat(g, a, b');
  }

  lemma FreeOne(g: Geometry, x: Block)
    ensures FreeBytes(g, [x]) == Room(g, x)
  {}

  lemma FreeTwo(g: Geometry, x: Block, y: Block)
    ensures FreeBytes(g, [x, y]) == Room(g, x) + Room(g, y)
  {
    assert [x, y] == [x] + [y];
    FreeConcat(g, [x], [y]);
  }

  lemma MarkFree(g: Geometry, bs: seq<Block>, i: nat, used: bool)
    requires i < |bs|
    ensures FreeBytes(g, Mark(bs, i, used)) == FreeBytes(g, bs) - Room(g, bs[i]) + Room(g, bs[i].(used := used))
  {
    hide FreeBytes;
    var x := bs[i].(used := used);
    assert bs == bs[..i] + [bs[i]] + bs[i + 1..];
    assert Mark(bs, i, used) == bs[..i] + [x] + bs[i + 1..];
    FreeOne(g, bs[i]);
    FreeOne(g, x);
    FreeReplace(g, bs[..i], [bs[i]], [x], bs[i + 1..]);
  }

  lemma SplitFree(g: Geometry, bs: seq<Block>, i: nat, cut: nat)
    requires i < |bs|
    ensures FreeBytes(g, Split(bs, i, cut)) ==
      FreeBytes(g, bs) - Room(g, bs[i]) + Room(g, bs[i].(next := cut)) + (bs[i].next - cut - g.S)
  {
    hide FreeBytes;
    var x, y := bs[i].(next := cut), Block(cut, bs[i].next, false);
    assert bs == bs[..i] + [bs[i]] + bs[i + 1..];
    FreeOne(g, bs[i]);
    FreeTwo(g, x, y);
    FreeReplace(g, bs[..i], [bs[i]], [x, y], bs[i + 1..]);
  }

  /** Joining two free blocks gains the room of a header. */
  lemma JoinFree(g: Geometry, bs: seq<Block>, i: nat)
    requires i + 1 < |bs| && !bs[i].used && !bs[i + 1].used && bs[i].next == bs[i + 1].off
    ensures FreeBytes(g, Join(bs, i)) == FreeBytes(g, bs) + g.S
  {
    hide FreeBytes;
    var x := bs[i].(next := bs[i + 1].next);
    assert bs == bs[..i] + [bs[i], bs[i + 1]] + bs[i + 2..];
    FreeOne(g, x);
    FreeTwo(g, bs[i], bs[i + 1]);
    FreeReplace(g, bs[..i], [bs[i], bs[i + 1]], [x], bs[i + 2..]);
  }

  /** Blocks can be joined to the left first or to the right first. */
  lemma JoinEitherWay(bs: seq<Block>, i: nat)
    requires 0 < i && i + 1 < |bs|
    ensures i < |Join(bs, i - 1)| && i < |Join(bs, i)| && Join(Join(bs, i - 1), i - 1) == Join(Join(bs, i), i - 1)
  {
    JoinAt(bs, i - 1);
    JoinAt(bs, i);
    var a, b := Join(bs, i - 1), Join(bs, i);
    JoinAt(a, i - 1);
    JoinAt(b, i - 1);
    hide Join;
    var x, y := Join(a, i - 1), Join(b, i - 1);
    assert |x| == |y| && forall k :: 0 <= k < |x| ==> x[k] == y[k];
  }

  // ------------------------------------------------------------------------------------------
  // Growing in place
  // ------------------------------------------------------------------------------------------

  /** The boundary between blocks `i` and `i + 1` is moved to `cut`. */
  ghost function Shift(bs: seq<Block>, i: nat, cut: nat): seq<Block>
    requires i + 1 < |bs|
  {
    bs[i := bs[i].(next := cut)][i + 1 := bs[i + 1].(off := cut)]
  }

  lemma ShiftKeeps(g: Geometry, bs: seq<Block>, i: nat, cut: nat)
    requires Sound(g, bs) && i + 1 < |bs| && bs[i].used && !bs[i + 1].used && Aligned(cut)
    requires bs[i].off + g.S <= cut && cut + g.S <= bs[i + 1].next
    ensures Sound(g, Shift(bs, i, cut))
    ensures FreeBytes(g, Shift(bs, i, cut)) == FreeBytes(g, bs) + bs[i].next - cut
  {
    hide Aligned, FreeBytes;
    var x, y := bs[i].(next := cut), bs[i + 1].(off := cut);
    assert bs[i].next == bs[i + 1].off;
    ShiftSound(g, bs, i, cut);
    hide Chain, Coalesced, AllAligned;
    assert bs == bs[..i] + [bs[i], bs[i + 1]] + bs[i + 2..];
    assert Shift(bs, i, cut) == bs[..i] + [x, y] + bs[i + 2..];
    FreeTwo(g, x, y);
    FreeTwo(g, bs[i], bs[i + 1]);
    FreeReplace(g, bs[..i], [bs[i], bs[i + 1]], [x, y], bs[i + 2..]);
  }

  lemma ShiftSound(g: Geometry, bs: seq<Block>, i: nat, cut: nat)
    requires Sound(g, bs) && i + 1 < |bs| && bs[i].used && !bs[i + 1].used && Aligned(cut)
    requires bs[i].off + g.S <= cut && cut + g.S <= bs[i + 1].next
    ensures Sound(g, Shift(bs, i, cut))
  {
    hide Aligned;
  }

  // ------------------------------------------------------------------------------------------
  // The free list
  // ------------------------------------------------------------------------------------------

  ghost predicate IsFreeBlock(bs: seq<Block>, p: nat) {
    exists i :: 0 <= i < |bs| && bs[i].off == p && !bs[i].used
  }

  /** `fl` holds exactly the free blocks, each once. */
  ghost predicate ListsFree(bs: seq<Block>, fl: seq<nat>) {
    Distinct(fl) && forall p :: p in fl <==> IsFreeBlock(bs, p)
  }

  ghost function Without(fl: seq<nat>, j: nat): seq<nat>
    requires j < |fl|
  {
    fl[..j] + fl[j + 1..]
  }

  lemma WithoutIs(fl: seq<nat>, j: nat)
    requires j < |fl| && Distinct(fl)
    ensures Distinct(Without(fl, j)) && forall p :: p in Without(fl, j) <==> p in fl && p != fl[j]
  {
    var r := Without(fl, j);
    assert forall k :: 0 <= k < |r| ==> r[k] == fl[if k < j then k else k + 1];
    forall p | p in fl && p != fl[j] ensures p in r {
      var k :| 0 <= k < |fl| && fl[k] == p;
      assert r[if k < j then k else k - 1] == p;
    }
  }

  lemma FrontIs(fl: seq<nat>, p: nat)
    requires Distinct(fl) && p !in fl
    ensures Distinct([p] + fl) && forall x :: x in [p] + fl <==> x == p || x in fl
  {
    assert forall k :: 1 <= k < |[p] + fl| ==> ([p] + fl)[k] == fl[k - 1];
  }

  /** Two blocks of a chain are at different places. */
  lemma OffsDiffer(g: Geometry, bs: seq<Block>, i: nat, j: nat)
    requires Chain(g, bs) && i < |bs| && j < |bs| && i != j && g.S > 0
    ensures bs[i].off != bs[j].off
  {
    if i < j {
      ChainOrdered(g, bs, i, j);
    } else {
      ChainOrdered(g, bs, j, i);
    }
  }

  /** If a free block can hold `size` bytes, the account can; it can be exactly used up only by taking
      the only free block whole. */
  lemma FitWithinFree(g: Geometry, bs: seq<Block>, i: nat, size: nat)
    requires Chain(g, bs) && i < |bs| && Fits(g, bs[i], size)
    ensures size <= FreeBytes(g, bs)
    ensures size == FreeBytes(g, bs) && size > 0 ==> Room(g, bs[i]) == size && forall j :: 0 <= j < |bs| && j != i ==>
      Room(g, bs[j]) == 0
  {
    FreeAllBut(g, bs, i);
    var rest := bs[..i] + bs[i + 1..];
    assert forall j :: 0 <= j < |rest| ==> rest[j] == bs[if j < i then j else j + 1];
    hide FreeBytes;
    RoomsNonNegative(g, bs);
    FreeNonNegative(g, rest);
    hide Chain;
    forall j | 0 <= j < |bs| && j != i ensures 0 <= Room(g, bs[j]) <= FreeBytes(g, rest) {
      var k := if j < i then j else j - 1;
      assert rest[k] == bs[j];
      RoomWithinFree(g, rest, k);
    }
  }

  lemma RoomsNonNegative(g: Geometry, bs: seq<Block>)
    requires Chain(g, bs)
    ensures forall j :: 0 <= j < |bs| ==> Room(g, bs[j]) >= 0
  {}

  lemma FreeAllBut(g: Geometry, bs: seq<Block>, i: nat)
    requires i < |bs|
    ensures FreeBytes(g, bs) == Room(g, bs[i]) + FreeBytes(g, bs[..i] + bs[i + 1..])
  {
    hide FreeBytes;
    assert bs == bs[..i] + [bs[i]] + bs[i + 1..];
    FreeConcat(g, bs[..i] + [bs[i]], bs[i + 1..]);
    FreeConcat(g, bs[..i], [bs[i]]);
    FreeConcat(g, bs[..i], bs[i + 1..]);
    FreeOne(g, bs[i]);
  }

  lemma {:induction false} FreeNonNegative(g: Geometry, bs: seq<Block>)
    requires forall i :: 0 <= i < |bs| ==> Room(g, bs[i]) >= 0
    ensures FreeBytes(g, bs) >= 0
  {
    if bs != [] {
      FreeNonNegative(g, bs[..|bs| - 1]);
    }
  }

  lemma {:induction false} RoomWithinFree(g: Geometry, bs: seq<Block>, i: nat)
    requires i < |bs| && forall j :: 0 <= j < |bs| ==> Room(g, bs[j]) >= 0
    ensures Room(g, bs[i]) <= FreeBytes(g, bs)
  {
    if i < |bs| - 1 {
      RoomWithinFree(g, bs[..|bs| - 1], i);
    } else {
      FreeNonNegative(g, bs[..|bs| - 1]);
    }
  }

  // ------------------------------------------------------------------------------------------
  // Which blocks are free after a change
  // ------------------------------------------------------------------------------------------

  lemma MarkFreeBlocks(g: Geometry, bs: seq<Block>, i: nat, u: bool, p: nat)
    requires Chain(g, bs) && i < |bs| && g.S > 0
    ensures IsFreeBlock(Mark(bs, i, u), p) <==> if p == bs[i].off then !u else IsFreeBlock(bs, p)
  {
    var r := Mark(bs, i, u);
    if p == bs[i].off {
      forall k | 0 <= k < |r| && k != i ensures r[k].off != p {
        OffsDiffer(g, bs, i, k);
      }
      assert r[i].off == p;
    } else {
      forall k | 0 <= k < |r| ensures r[k].off == p ==> r[k] == bs[k] {}
    }
  }

  lemma SplitFreeBlocks(bs: seq<Block>, i: nat, cut: nat, p: nat)
    requires i < |bs|
    ensures IsFreeBlock(Split(bs, i, cut), p) <==> p == cut || IsFreeBlock(bs, p)
  {
    var r := Split(bs, i, cut);
    SplitAt(bs, i, cut);
    hide Split;
    assert r[i + 1].off == cut;
    if IsFreeBlock(bs, p) {
      var k :| 0 <= k < |bs| && bs[k].off == p && !bs[k].used;
      assert r[if k <= i then k else k + 1].off == p;
    }
    if IsFreeBlock(r, p) && p != cut {
      var k :| 0 <= k < |r| && r[k].off == p && !r[k].used;
      assert bs[if k <= i then k else k - 1].off == p;
    }
  }

  lemma JoinFreeBlocks(g: Geometry, bs: seq<Block>, i: nat, p: nat)
    requires Chain(g, bs) && i + 1 < |bs| && !bs[i].used && !bs[i + 1].used && g.S > 0
    ensures IsFreeBlock(Join(bs, i), p) <==> IsFreeBlock(bs, p) && p != bs[i + 1].off
  {
    var r := Join(bs, i);
    JoinAt(bs, i);
    hide Join;
    if IsFreeBlock(bs, p) && p != bs[i + 1].off {
      var k :| 0 <= k < |bs| && bs[k].off == p && !bs[k].used;
      assert r[if k <= i then k else k - 1].off == p;
    }
    if IsFreeBlock(r, p) {
      var k :| 0 <= k < |r| && r[k].off == p && !r[k].used;
      var k' := if k <= i then k else k + 1;
      assert bs[k'].off == p;
      OffsDiffer(g, bs, k', i + 1);
    }
  }

  lemma ShiftFreeBlocks(g: Geometry, bs: seq<Block>, i: nat, cut: nat, p: nat)
    requires Chain(g, bs) && i + 1 < |bs| && bs[i].used && !bs[i + 1].used && g.S > 0
    requires bs[i].off + g.S <= cut && cut + g.S <= bs[i + 1].next
    ensures IsFreeBlock(Shift(bs, i, cut), p) <==> p == cut || (IsFreeBlock(bs, p) && p != bs[i + 1].off)
  {
    var r := Shift(bs, i, cut);
    assert r[i + 1].off == cut;
    if IsFreeBlock(bs, p) && p != bs[i + 1].off {
      var k :| 0 <= k < |bs| && bs[k].off == p && !bs[k].used;
      assert r[k].off == p;
    }
    if IsFreeBlock(r, p) && p != cut {
      var k :| 0 <= k < |r| && r[k].off == p && !r[k].used;
      assert bs[k].off == p;
      OffsDiffer(g, bs, k, i + 1);
    }
  }
}
