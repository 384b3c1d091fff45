/** Whole runs of the small heap, on the chain and the account kept beside it. */
module HeapRuns {
  import opened HeapChain
  import opened HeapSteps

  datatype Account = Account(bs: seq<Block>, lfree: nat, used: int, max: int)

  ghost predicate Good(g: Geometry, s: Account) {
    Sound(g, s.bs) && IsLowestFree(g, s.bs, s.lfree) && s.used == UsedBytes(s.bs) && s.used <= s.max
  }

  ghost function Fresh(g: Geometry): Account {
    Account([Block(0, g.End(), false)], 0, 0, 0)
  }

  /** The elementary changes: every operation of the heap is a run of at most two of them. */
  datatype Change = Take(size: nat) | Release(i: nat) | Cut(i: nat, n: nat) | Nothing

  /** What each change does to chain, lfree and account, as the source computes them. */
  ghost predicate Step(g: Geometry, s: Account, x: Change, t: Account) {
    match x
    case Nothing => t == s
    case Take(size) =>
      var i := FirstFit(g, s.bs, size);
      && Aligned(size) && i < |s.bs| && t.bs == AllocAt(g, s.bs, i, size)
      && t.lfree == TakenLfree(g, s.bs, t.bs, i, s.lfree)
      && t.used == s.used + (t.bs[i].next - t.bs[i].off) && t.max == Larger(s.max, t.used)
    case Release(i) =>
      && i < |s.bs| && s.bs[i].used && t.bs == FreeAt(s.bs, i)
      && t.lfree == PluggedLfree(Mark(s.bs, i, false), i, Smaller(s.bs[i].off, s.lfree))
      && t.used == s.used - (s.bs[i].next - s.bs[i].off) && t.max == s.max
    case Cut(i, n) =>
      && i < |s.bs| && s.bs[i].used && Aligned(n) && s.bs[i].off + g.S + n + g.S <= s.bs[i].next
      && t.bs == ShrinkAt(g, s.bs, i, n)
      && t.lfree == PluggedLfree(Split(s.bs, i, s.bs[i].off + g.S + n), i + 1, Smaller(s.bs[i].off + g.S + n, s.lfree))
      && t.used == s.used - (s.bs[i].next - s.bs[i].off - g.S - n) && t.max == s.max
  }

  /** Every change keeps chain and account right and lfree the lowest free block. */
  lemma StepKeeps(g: Geometry, s: Account, x: Change, t: Account)
    requires g.Valid() && Good(g, s) && Step(g, s, x, t)
    ensures Good(g, t)
  {
    hide Sound, UsedBytes, IsLowestFree, AllocAt, FreeAt, ShrinkAt, TakenLfree, PluggedLfree, Geometry.Valid, Aligned,
      Split, Mark;
    SoundChain(g, s.bs);
    match x
    case Nothing =>
    case Take(size) =>
      AllocKeeps(g, s.bs, FirstFit(g, s.bs, size), size);
      TakenLfreeIsLowest(g, s.bs, FirstFit(g, s.bs, size), size, s.lfree);
    case Release(i) =>
      SpanPositive(g, s.bs, i);
      FreeKeeps(g, s.bs, i);
      ReleasedLfreeIsLowest(g, s.bs, i, s.lfree);
    case Cut(i, n) =>
      ShrinkKeeps(g, s.bs, i, n);
      CutLfreeIsLowest(g, s.bs, i, n, s.lfree);
  }

  lemma SoundChain(g: Geometry, bs: seq<Block>)
    requires Sound(g, bs) && g.Valid()
    ensures Chain(g, bs) && g.S > 0
  {}

  lemma SpanPositive(g: Geometry, bs: seq<Block>, i: nat)
    requires Sound(g, bs) && i < |bs|
    ensures bs[i].off <= bs[i].next
  {}

  ghost predicate Run(g: Geometry, s: seq<Account>, xs: seq<Change>) {
    && |s| == |xs| + 1 && s[0] == Fresh(g)
    && forall k, l {:trigger s[k], s[l]} :: 0 <= k && l == k + 1 && l < |s| ==> Step(g, s[k], xs[k], s[l])
  }

  ghost function Peak(s: seq<Account>): int
    requires s != []
  {
    if |s| == 1 then s[0].used
    else Larger(Peak(s[..|s| - 1]), s[|s| - 1].used)
  }

  lemma FreshIsGood(g: Geometry)
    requires g.Valid()
    ensures Good(g, Fresh(g))
  {
    var bs := Fresh(g).bs;
    assert bs[0].off == 0;
    UsedOne(bs[0]);
  }

  /** In every run the chain stays sound, lfree stays the lowest free block, `used` stays the sum of
      the live spans, and `max` is the largest `used` there ever was. */
  lemma {:induction false} RunKeeps(g: Geometry, s: seq<Account>, xs: seq<Change>)
    requires g.Valid() && Run(g, s, xs)
    ensures Good(g, s[|s| - 1]) && s[|s| - 1].max == Peak(s)
    decreases |s|
  {
    var n := |s| - 1;
    if n == 0 {
      FreshIsGood(g);
    } else {
      assert Run(g, s[..n], xs[..n - 1]);
      RunKeeps(g, s[..n], xs[..n - 1]);
      assert Step(g, s[n - 1], xs[n - 1], s[n]);
      StepKeeps(g, s[n - 1], xs[n - 1], s[n]);
      hide AllocAt, FreeAt, ShrinkAt, Run, IsLowestFree;
      assert s[..n][n - 1] == s[n - 1];
      OnlyTakeRaises(g, s[n - 1], xs[n - 1], s[n]);
    }
  }

  lemma OnlyTakeRaises(g: Geometry, s: Account, x: Change, t: Account)
    requires g.Valid() && Good(g, s) && Step(g, s, x, t)
    ensures x.Take? ==> t.max == Larger(s.max, t.used)
    ensures !x.Take? ==> t.used <= s.used && t.max == s.max
  {
    hide AllocAt, FreeAt, ShrinkAt, IsLowestFree, UsedBytes;
    if x.Release? {
      SpanPositive(g, s.bs, x.i);
    }
  }

  /** A run that ends with no live block ends in the state it started from, up to `max`. */
  lemma RunIsBackWhereItStarted(g: Geometry, s: seq<Account>, xs: seq<Change>)
    requires g.Valid() && Run(g, s, xs)
    requires NoneUsed(s[|s| - 1].bs)
    ensures s[|s| - 1] == Fresh(g).(max := Peak(s))
  {
    RunKeeps(g, s, xs);
    var t := s[|s| - 1];
    hide Run;
    NothingUsed(g, t.bs);
    UsedOne(t.bs[0]);
  }

  /** Freeing a block right after it was allocated restores the chain, lfree and `used`. */
  lemma FreeAfterTake(g: Geometry, s: Account, size: nat, t: Account, u: Account)
    requires g.Valid() && Good(g, s) && Step(g, s, Take(size), t) && Step(g, t, Release(FirstFit(g, s.bs, size)), u)
    ensures u == s.(max := u.max)
  {
    var i := FirstFit(g, s.bs, size);
    StepKeeps(g, s, Take(size), t);
    StepKeeps(g, t, Release(i), u);
    FreeUndoesAlloc(g, s.bs, i, size);
    hide AllocAt, FreeAt, FirstFit, UsedBytes, IsLowestFree, TakenLfree, PluggedLfree, Mark, Coalesced, AllAligned;
    assert u.bs == s.bs;
    LowestFreeIsUnique(g, s.bs, s.lfree, u.lfree);
  }
}
