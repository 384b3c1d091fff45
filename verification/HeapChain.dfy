/** The block chain of the first-fit heaps in mem.c and varmem.c, as a sequence of blocks. */
module HeapChain {

  /** RT_ALIGN_SIZE is 8. */
  predicate Aligned(n: int) { n % 8 == 0 }

  /** RT_ALIGN(n, RT_ALIGN_SIZE), away from the top of the word. */
  function AlignUp(n: nat): (r: nat)
    ensures Aligned(r) && n <= r < n + 8
  {
    (n + 7) / 8 * 8
  }

  /** The sizes a heap is built from: of a block header, of the smallest block before and after
      alignment, and of the memory between the first header and the end marker. */
  datatype Geometry = Geometry(S: nat, RAW: nat, M: nat) {
    function Min(): nat { AlignUp(RAW) }

    /** The offset of the end marker. */
    function End(): nat { M + S }

    predicate Valid() {
      S > 0 && RAW > 0 && Aligned(S) && Aligned(M)
    }
  }

  datatype Block = Block(off: nat, next: nat, used: bool)

  /** The blocks tile [0, end) in order, each with room for its header. */
  ghost predicate Chain(g: Geometry, bs: seq<Block>) {
    && bs != [] && bs[0].off == 0 && bs[|bs| - 1].next == g.End()
    && (forall i :: 0 <= i < |bs| ==> bs[i].off + g.S <= bs[i].next <= g.End())
    && (forall i, j {:trigger bs[i].next, bs[j].off} :: 0 <= i && j == i + 1 && j < |bs| ==> bs[i].next == bs[j].off)
  }

  ghost predicate AllAligned(bs: seq<Block>) {
    forall i :: 0 <= i < |bs| ==> Aligned(bs[i].off)
  }

  /** No two neighbours are free. */
  ghost predicate Coalesced(bs: seq<Block>) {
    forall i, j {:trigger bs[i].used, bs[j].used} :: 0 <= i && j == i + 1 && j < |bs| ==> bs[i].used || bs[j].used
  }

  /** The bytes of all used blocks, headers included. */
  ghost function UsedBytes(bs: seq<Block>): int {
    if bs == [] then 0 else UsedBytes(bs[..|bs| - 1]) + Charge(bs[|bs| - 1])
  }

  ghost function Charge(b: Block): int {
    if b.used then b.next - b.off else 0
  }

  /** `l` is the offset of the lowest free block, or of the end marker if there is none. */
  ghost predicate IsLowestFree(g: Geometry, bs: seq<Block>, l: nat) {
    && (forall i :: 0 <= i < |bs| && !bs[i].used ==> l <= bs[i].off)
    && (l == g.End() || exists i :: 0 <= i < |bs| && !bs[i].used && bs[i].off == l)
  }

  /** A free block with room for `size` bytes. */
  predicate Fits(g: Geometry, b: Block, size: nat) {
    !b.used && b.off + g.S + size <= b.next
  }

  // ------------------------------------------------------------------------------------------
  // Elementary changes
  // ------------------------------------------------------------------------------------------

  ghost function Mark(bs: seq<Block>, i: nat, used: bool): seq<Block>
    requires i < |bs|
  {
    bs[i := bs[i].(used := used)]
  }

  /** Block `i` is cut at offset `cut`; the rest is free. */
  ghost function Split(bs: seq<Block>, i: nat, cut: nat): seq<Block>
    requires i < |bs|
  {
    bs[..i] + [bs[i].(next := cut), Block(cut, bs[i].next, false)] + bs[i + 1..]
  }

  /** Block `i` swallows its successor. */
  ghost function Join(bs: seq<Block>, i: nat): seq<Block>
    requires i + 1 < |bs|
  {
    bs[..i] + [bs[i].(next := bs[i + 1].next)] + bs[i + 2..]
  }

  lemma {:induction false} UsedConcat(a: seq<Block>, b: seq<Block>)
    ensures UsedBytes(a + b) == UsedBytes(a) + UsedBytes(b)
  {
    if b == [] {
      assert a + b == a;
    } else {
      assert (a + b)[..|a + b| - 1] == a + b[..|b| - 1];
      UsedConcat(a, b[..|b| - 1]);
    }
  }

  lemma UsedReplace(a: seq<Block>, b: seq<Block>, b': seq<Block>, c: seq<Block>)
    ensures UsedBytes(a + b' + c) - UsedBytes(b') == UsedBytes(a + b + c) - UsedBytes(b)
  {
    UsedConcat(a + b, c);
    UsedConcat(a, b);
    UsedConcat(a + b', c);
    UsedConcat(a, b');
  }

  lemma UsedOne(x: Block)
    ensures UsedBytes([x]) == Charge(x)
  {}

  lemma UsedTwo(x: Block, y: Block)
    ensures UsedBytes([x, y]) == Charge(x) + Charge(y)
  {
    assert [x, y] == [x] + [y];
    UsedConcat([x], [y]);
  }

  lemma MarkUsed(bs: seq<Block>, i: nat, used: bool)
    requires i < |bs|
    ensures UsedBytes(Mark(bs, i, used)) == UsedBytes(bs) - Charge(bs[i]) + Charge(bs[i].(used := used))
  {
    hide UsedBytes;
    var x := bs[i].(used := used);
    assert bs == bs[..i] + [bs[i]] + bs[i + 1..];
    assert Mark(bs, i, used) == bs[..i] + [x] + bs[i + 1..];
    UsedOne(bs[i]);
    UsedOne(x);
    UsedReplace(bs[..i], [bs[i]], [x], bs[i + 1..]);
  }

  lemma SplitUsed(bs: seq<Block>, i: nat, cut: nat)
    requires i < |bs|
    ensures UsedBytes(Split(bs, i, cut)) == UsedBytes(bs) - Charge(bs[i]) + Charge(bs[i].(next := cut))
  {
    hide UsedBytes;
    var x, y := bs[i].(next := cut), Block(cut, bs[i].next, false);
    assert bs == bs[..i] + [bs[i]] + bs[i + 1..];
    UsedOne(bs[i]);
    UsedTwo(x, y);
    UsedReplace(bs[..i], [bs[i]], [x, y], bs[i + 1..]);
  }

  lemma JoinUsed(bs: seq<Block>, i: nat)
    requires i + 1 < |bs| && !bs[i].used && !bs[i + 1].used
    ensures UsedBytes(Join(bs, i)) == UsedBytes(bs)
  {
    var x := bs[i].(next := bs[i + 1].next);
    assert bs == bs[..i] + [bs[i], bs[i + 1]] + bs[i + 2..];
    UsedReplace(bs[..i], [bs[i], bs[i + 1]], [x], bs[i + 2..]);
    UsedTwo(bs[i], bs[i + 1]);
  }

  lemma SplitAt(bs: seq<Block>, i: nat, cut: nat)
    requires i < |bs|
    ensures var r := Split(bs, i, cut);
      && |r| == |bs| + 1 && r[i] == bs[i].(next := cut) && r[i + 1] == Block(cut, bs[i].next, false)
      && (forall k :: 0 <= k < i ==> r[k] == bs[k])
      && (forall k :: i + 1 < k < |r| ==> r[k] == bs[k - 1])
  {}

  lemma JoinAt(bs: seq<Block>, i: nat)
    requires i + 1 < |bs|
    ensures var r := Join(bs, i);
      && |r| == |bs| - 1 && r[i] == bs[i].(next := bs[i + 1].next)
      && (forall k :: 0 <= k < i ==> r[k] == bs[k])
      && (forall k :: i < k < |r| ==> r[k] == bs[k + 1])
  {}

  lemma SplitChain(g: Geometry, bs: seq<Block>, i: nat, cut: nat)
    requires Chain(g, bs) && i < |bs| && bs[i].off + g.S <= cut && cut + g.S <= bs[i].next
    ensures Chain(g, Split(bs, i, cut))
  {
    SplitAt(bs, i, cut);
    hide Split;
  }

  lemma JoinChain(g: Geometry, bs: seq<Block>, i: nat)
    requires Chain(g, bs) && i + 1 < |bs|
    ensures Chain(g, Join(bs, i))
  {
    JoinAt(bs, i);
    hide Join;
  }

  lemma {:induction false} ChainOrdered(g: Geometry, bs: seq<Block>, i: nat, j: nat)
    requires Chain(g, bs) && i < j < |bs|
    ensures bs[i].next <= bs[j].off && bs[i].off + g.S <= bs[j].off
    decreases j - i
  {
    assert bs[i].next == bs[i + 1].off;
    if i + 1 < j {
      ChainOrdered(g, bs, i + 1, j);
    }
  }

  /** Two distinct blocks of a chain do not overlap. */
  lemma Apart(g: Geometry, bs: seq<Block>, i: nat, j: nat)
    requires Chain(g, bs) && i < |bs| && j < |bs| && i != j
    ensures bs[i].next <= bs[j].off || bs[j].next <= bs[i].off
  {
    if i < j {
      ChainOrdered(g, bs, i, j);
    } else {
      ChainOrdered(g, bs, j, i);
    }
  }

  lemma MarkChain(g: Geometry, bs: seq<Block>, i: nat, used: bool)
    requires Chain(g, bs) && i < |bs|
    ensures Chain(g, Mark(bs, i, used))
  {}

  lemma AlignmentKept(bs: seq<Block>, i: nat, cut: nat, used: bool)
    requires AllAligned(bs) && i < |bs|
    ensures Aligned(cut) ==> AllAligned(Split(bs, i, cut))
    ensures i + 1 < |bs| ==> AllAligned(Join(bs, i))
    ensures AllAligned(Mark(bs, i, used))
  {
    SplitAt(bs, i, cut);
    if i + 1 < |bs| {
      JoinAt(bs, i);
    }
    hide Aligned, Split, Join;
  }
}
