/** Whole runs of a memheap, on its chain, its free list and its account. */
module MemheapRuns {
  import opened HeapChain
  import opened HeapSteps
  import opened MemheapChain
  import opened MemheapSteps
  import opened MemoryHeap

  datatype Account = Account(bs: seq<Block>, fl: seq<nat>, available: int, max: int) {
    /** pool_size - available_size. */
    function Use(g: Geometry): int { g.M + 2 * g.S - available }
  }

  ghost predicate Right(g: Geometry, s: Account) {
    Good(g, s.bs, s.fl, s.available) && s.Use(g) <= s.max
  }

  ghost function Fresh(g: Geometry): Account {
    Account([Block(0, g.End(), false)], [0], g.M, 2 * g.S)
  }

  /** The elementary changes: every operation is one of them, and a moving realloc is two. */
  datatype Change = Take(i: nat, n: nat) | Release(i: nat) | Grow(i: nat, n: nat) | Shrink(i: nat, n: nat) | Nothing

  /** What each change does, as the source computes it. */
  ghost predicate Step(g: Geometry, s: Account, x: Change, t: Account) {
    match x
    case Nothing => t == s
    case Take(i, n) =>
      && n < s.available && FirstOnList(g, s.bs, s.fl, i, n) && Aligned(n)
      && t.bs == AllocAt(g, s.bs, i, n) && t.fl == AllocList(g, s.bs, s.fl, i, n)
      && t.available == (if Splits(g, s.bs[i], n) then s.available - n - g.S else s.available - Room(g, s.bs[i]))
      && t.max == Larger(s.max, t.Use(g))
    case Release(i) =>
      && i < |s.bs| && s.bs[i].used && t.bs == FreeAt(s.bs, i) && t.fl == FreeList(s.bs, s.fl, i) && t.max == s.max
      && t.available == s.available + (s.bs[i].next - s.bs[i].off - g.S)
           + (if LeftFree(s.bs, i) then g.S else 0) + (if RightFree(s.bs, i) then g.S else 0)
    case Grow(i, n) =>
      && i + 1 < |s.bs| && s.bs[i].used && !s.bs[i + 1].used && Aligned(n)
      && var cut := s.bs[i].off + g.S + n;
        && s.bs[i].next <= cut && cut + g.S <= s.bs[i + 1].next
        && t.bs == Shift(s.bs, i, cut) && t.fl == [cut] + Removed(s.fl, s.bs[i + 1].off)
        && t.available == s.available - (cut - s.bs[i].next) && t.max == Larger(s.max, t.Use(g))
    case Shrink(i, n) =>
      && i < |s.bs| && s.bs[i].used && Aligned(n)
      && var cut, merged := s.bs[i].off + g.S + n, RightFree(s.bs, i);
        && cut + g.S <= s.bs[i].next && t.bs == ShrinkAt(g, s.bs, i, n)
        && t.fl == [cut] + (if merged then Removed(s.fl, s.bs[i + 1].off) else s.fl)
        && t.available == s.available + (s.bs[i].next - cut - g.S) + (if merged then g.S else 0) && t.max == s.max
  }

  /** Every change keeps both lists and the account right. */
  lemma StepKeeps(g: Geometry, s: Account, x: Change, t: Account)
    requires g.Valid() && Right(g, s) && Step(g, s, x, t)
    ensures Right(g, t)
    ensures if x.Take? || x.Grow? then t.max == Larger(s.max, t.Use(g)) else t.max == s.max && t.Use(g) <= s.Use(g)
  {
    hide Good, FirstOnList, AllocAt, AllocList, FreeAt, FreeList, Shift, ShrinkAt, Removed, Room, Splits, Aligned,
      RightFree, LeftFree, Fits;
    match x
    case Nothing =>
    case Take(i, n) =>
      FirstFits(g, s.bs, s.fl, i, n);
      AllocGood(g, s.bs, s.fl, s.available, i, n);
    case Release(i) =>
      Span(g, s.bs, s.fl, s.available, i);
      TakesSpace(g);
      FreeGood(g, s.bs, s.fl, s.available, i);
    case Grow(i, n) =>
      GrowGood(g, s.bs, s.fl, s.available, i, n);
    case Shrink(i, n) =>
      ShrinkGood(g, s.bs, s.fl, s.available, i, n);
  }

  lemma FirstFits(g: Geometry, bs: seq<Block>, fl: seq<nat>, j: nat, n: nat)
    requires FirstOnList(g, bs, fl, j, n)
    ensures j < |bs| && Fits(g, bs[j], n) && !bs[j].used
  {}

  ghost predicate Run(g: Geometry, s: seq<Account>, xs: seq<Change>) {
    && |s| == |xs| + 1 && s[0] == Fresh(g)
    && forall k, l {:trigger s[k], s[l]} :: 0 <= k && l == k + 1 && l < |s| ==> Step(g, s[k], xs[k], s[l])
  }

  lemma FreshIsRight(g: Geometry)
    requires g.Valid()
    ensures Right(g, Fresh(g))
  {
    var bs := Fresh(g).bs;
    assert bs[0].off == 0;
    FreeOne(g, bs[0]);
    assert IsFreeBlock(bs, 0);
  }

  /** `m` is the largest use of all states. */
  ghost predicate IsPeak(g: Geometry, s: seq<Account>, m: int) {
    (forall k :: 0 <= k < |s| ==> s[k].Use(g) <= m) && (exists k :: 0 <= k < |s| && s[k].Use(g) == m)
  }

  lemma PeakGrows(g: Geometry, s: seq<Account>, m: int)
    requires s != [] && IsPeak(g, s[..|s| - 1], m)
    ensures IsPeak(g, s, Larger(m, s[|s| - 1].Use(g)))
  {
    var n := |s| - 1;
    var k :| 0 <= k < n && s[..n][k].Use(g) == m;
    assert s[k].Use(g) == m;
    forall j | 0 <= j < n ensures s[j].Use(g) <= m {
      assert s[j] == s[..n][j];
    }
  }

  /** In every run the free list holds exactly the free blocks, no two of which are neighbours,
      available_size is the sum of their payloads, and max_used_size is the largest use there ever was. */
  lemma {:induction false} RunKeeps(g: Geometry, s: seq<Account>, xs: seq<Change>)
    requires g.Valid() && Run(g, s, xs)
    ensures Right(g, s[|s| - 1]) && IsPeak(g, s, s[|s| - 1].max)
    decreases |s|
  {
    var n := |s| - 1;
    if n == 0 {
      FreshIsRight(g);
      assert s[0].Use(g) == s[0].max;
    } else {
      assert Run(g, s[..n], xs[..n - 1]);
      RunKeeps(g, s[..n], xs[..n - 1]);
      assert Step(g, s[n - 1], xs[n - 1], s[n]);
      hide Step, Run, IsPeak, Good;
      StepKeeps(g, s[n - 1], xs[n - 1], s[n]);
      PeakGrows(g, s, s[n - 1].max);
    }
  }

  /** A run that ends with no live block ends in the state it started from, up to max_used_size. */
  lemma RunIsBackWhereItStarted(g: Geometry, s: seq<Account>, xs: seq<Change>)
    requires g.Valid() && Run(g, s, xs) && NoneUsed(s[|s| - 1].bs)
    ensures s[|s| - 1] == Fresh(g).(max := s[|s| - 1].max)
  {
    RunKeeps(g, s, xs);
    var t := s[|s| - 1];
    hide Run;
    NothingUsed(g, t.bs);
    FreeOne(g, t.bs[0]);
    OnlyBlock(t.bs, t.fl);
  }

  lemma OnlyBlock(bs: seq<Block>, fl: seq<nat>)
    requires ListsFree(bs, fl) && |bs| == 1 && !bs[0].used
    ensures fl == [bs[0].off]
  {
    assert IsFreeBlock(bs, bs[0].off);
    assert bs[0].off in fl;
    forall k | 0 <= k < |fl| ensures fl[k] == bs[0].off {
      assert fl[k] in fl;
    }
    assert fl[0] == fl[|fl| - 1];
  }

  // ------------------------------------------------------------------------------------------
  // The operations are the changes runs are made of
  // ------------------------------------------------------------------------------------------

  ghost function State(h: Memheap): Account
    reads h
  {
    Account(h.bs, h.fl, h.available, h.maxUsed)
  }

  lemma NewIsFresh(h: Memheap)
    requires h.Valid() && h.bs == [Block(0, h.g.End(), false)] && h.fl == [0] && h.available == h.g.M
      && h.maxUsed == 2 * h.g.S
    ensures State(h) == Fresh(h.g)
  {}

  twostate lemma AllocIsStep(h: Memheap, n: nat, p: nat, i: nat)
    requires old(h.Valid()) && Aligned(n) && h.AllocDone(n, p, i)
    ensures Step(h.g, old(State(h)), if p == 0 then Nothing else Take(i, n), State(h))
  {
    hide Good, FirstOnList, AllocAt, AllocList, Splits, Room, Aligned, Fits, Memheap.Linked;
  }

  twostate lemma FreeIsStep(h: Memheap, i: nat)
    requires i < |old(h.bs)| && old(h.bs)[i].used && h.Freed(i)
    ensures Step(h.g, old(State(h)), Release(i), State(h))
  {
    hide FreeAt, FreeList, LeftFree, RightFree, Memheap.Intact;
  }

  /** The account is determined by the chain, so a release is known by chain and list. */
  lemma ReleaseStep(g: Geometry, s: Account, i: nat, t: Account)
    requires g.Valid() && Good(g, s.bs, s.fl, s.available) && Good(g, t.bs, t.fl, t.available)
    requires i < |s.bs| && s.bs[i].used && t.bs == FreeAt(s.bs, i) && t.fl == FreeList(s.bs, s.fl, i) && t.max == s.max
    ensures Step(g, s, Release(i), t)
  {
    hide Good, FreeAt, FreeList, Geometry.Valid, LeftFree, RightFree;
    TakesSpace(g);
    FreeGood(g, s.bs, s.fl, s.available, i);
    GoodUnique(g, t.bs, t.fl, t.available, s.available + (s.bs[i].next - s.bs[i].off - g.S)
      + (if LeftFree(s.bs, i) then g.S else 0) + (if RightFree(s.bs, i) then g.S else 0));
  }

  lemma GoodUnique(g: Geometry, bs: seq<Block>, fl: seq<nat>, available: int, other: int)
    requires Good(g, bs, fl, available) && Good(g, bs, fl, other)
    ensures available == other
  {}

  /** The state after the allocation a move begins with. */
  lemma TakeStep(g: Geometry, s: Account, j: nat, n: nat) returns (t: Account)
    requires g.Valid() && Good(g, s.bs, s.fl, s.available) && n < s.available && FirstOnList(g, s.bs, s.fl, j, n)
      && Aligned(n)
    ensures Step(g, s, Take(j, n), t) && Good(g, t.bs, t.fl, t.available) && j < |s.bs| && !s.bs[j].used
    ensures t.bs == AllocAt(g, s.bs, j, n) && t.fl == AllocList(g, s.bs, s.fl, j, n)
    ensures t.max == Larger(s.max, g.M + 2 * g.S - FreeBytes(g, t.bs))
  {
    hide Good, FirstOnList, AllocAt, AllocList, Splits, Room, Aligned, Geometry.Valid, Fits, FreeBytes;
    FirstFits(g, s.bs, s.fl, j, n);
    AllocGood(g, s.bs, s.fl, s.available, j, n);
    var rest := if Splits(g, s.bs[j], n) then s.available - n - g.S else s.available - Room(g, s.bs[j]);
    t := Account(AllocAt(g, s.bs, j, n), AllocList(g, s.bs, s.fl, j, n), rest, Larger(s.max, g.M + 2 * g.S - rest));
    GoodFree(g, t.bs, t.fl, rest);
  }

  /** A block moves by one allocation and one release. */
  lemma MoveSteps(g: Geometry, s: Account, i: nat, n: nat, j: nat, t: Account) returns (m: Account)
    requires g.Valid() && Good(g, s.bs, s.fl, s.available) && Good(g, t.bs, t.fl, t.available)
    requires n < s.available && FirstOnList(g, s.bs, s.fl, j, n) && Aligned(n) && i < |s.bs| && s.bs[i].used
      && j < |s.bs|
    requires var r, f, k := AllocAt(g, s.bs, j, n), AllocList(g, s.bs, s.fl, j, n), Shifted(g, s.bs, j, n, i);
      && k < |r| && t.bs == FreeAt(r, k) && t.fl == FreeList(r, f, k)
      && t.max == Larger(s.max, g.M + 2 * g.S - FreeBytes(g, r))
    ensures Step(g, s, Take(j, n), m) && Step(g, m, Release(Shifted(g, s.bs, j, n, i)), t)
  {
    hide Good, FirstOnList, AllocAt, AllocList, FreeAt, FreeList, Aligned, Geometry.Valid, Step, Shifted, FreeBytes;
    m := TakeStep(g, s, j, n);
    ShiftedIs(g, s.bs, j, n, i);
    ReleaseStep(g, m, Shifted(g, s.bs, j, n, i), t);
  }

  twostate lemma MoveIsTwoSteps(h: Memheap, i: nat, n: nat, len: int, p: nat, j: nat) returns (s: Account)
    requires old(h.Valid()) && h.Valid() && Aligned(n) && i < |old(h.bs)| && old(h.bs)[i].used
      && h.Moved(i, n, len, p, j)
    ensures Step(h.g, old(State(h)), Take(j, n), s)
    ensures Step(h.g, s, Release(Shifted(h.g, old(h.bs), j, n, i)), State(h))
  {
    hide Good, FirstOnList, FreeAt, FreeList, Aligned, FreeBytes, Memheap.Intact, Memheap.Linked, AllocAt, AllocList,
      Step, Shifted;
    s := MoveSteps(h.g, old(State(h)), i, n, j, State(h));
  }

  twostate lemma GrowIsStep(h: Memheap, i: nat, n: nat)
    requires i + 1 < |old(h.bs)| && old(h.bs)[i].used && !old(h.bs)[i + 1].used && Aligned(n)
    requires old(h.bs)[i].next <= old(h.bs)[i].off + h.g.S + n
      && old(h.bs)[i].off + h.g.S + n + h.g.S <= old(h.bs)[i + 1].next
    requires h.Grown(i, n) && h.poolSize == h.g.M + 2 * h.g.S
    ensures Step(h.g, old(State(h)), Grow(i, n), State(h))
  {
    hide Shift, Removed, Memheap.Intact, Aligned;
  }

  twostate lemma ShrinkIsStep(h: Memheap, i: nat, n: nat)
    requires i < |old(h.bs)| && old(h.bs)[i].used && Aligned(n)
      && old(h.bs)[i].off + h.g.S + n + h.g.S <= old(h.bs)[i].next
    requires h.Shrunk(i, n)
    ensures Step(h.g, old(State(h)), Shrink(i, n), State(h))
  {
    hide ShrinkAt, Removed, Memheap.Intact, Aligned;
  }
}
