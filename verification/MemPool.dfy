/** The memory pool of mempool.c: blocks of one size, the free ones chained through their own first word. */
module MemPool {
  import opened Sequences
  import opened SuspendList

  const NULL := -1

  /** What the first word of a block holds while it is allocated: the address of the pool. */
  const POOL := -2

  datatype Reply = Got(block: nat) | TimedOut | Waits

  /** Following the words from `head` visits exactly the blocks `q`. */
  ghost predicate IsChain(words: seq<int>, head: int, q: seq<nat>) {
    && head == At(q, 0, NULL)
    && (forall k :: 0 <= k < |q| ==> q[k] < |words|)
    && (forall k {:trigger words[q[k]]} :: 0 <= k < |q| ==> words[q[k]] == At(q, k + 1, NULL))
  }

  /** Every block is in the chain once, or allocated and marked with the pool it belongs to. */
  ghost predicate Partition(words: seq<int>, q: seq<nat>, taken: set<nat>) {
    && Distinct(q)
    && (forall b :: b in q ==> b !in taken)
    && (forall b :: b in taken ==> b < |words| && words[b] == POOL)
    && (forall b :: 0 <= b < |words| ==> b in q || b in taken)
  }

  lemma TakeFirst(words: seq<int>, head: int, q: seq<nat>, taken: set<nat>)
    requires IsChain(words, head, q) && Partition(words, q, taken) && q != []
    ensures head == q[0] < |words| && q[0] !in taken
    ensures var w := words[head := POOL]; IsChain(w, words[head], q[1..]) && Partition(w, q[1..], taken + {q[0]})
  {
    var r := q[1..];
    assert forall k :: 0 <= k < |r| ==> r[k] == q[k + 1];
    assert q == [q[0]] + r;
    assert q[0] in q;
  }

  lemma GiveBack(words: seq<int>, head: int, q: seq<nat>, taken: set<nat>, b: nat)
    requires IsChain(words, head, q) && Partition(words, q, taken) && b in taken
    ensures b < |words| && b !in q
    ensures var w := words[b := head]; IsChain(w, b, [b] + q) && Partition(w, [b] + q, taken - {b})
  {
    var r := [b] + q;
    assert forall k :: 1 <= k < |r| ==> r[k] == q[k - 1];
  }

  class Pool {
    const words: array<int>
    /** block_list and block_free_count. */
    var blockList: int
    var freeCount: nat
    var waiting: seq<Thread>
    ghost var free: seq<nat>
    ghost var taken: set<nat>
    /** The threads woken that have not run since. */
    ghost var woken: set<Thread>

    ghost predicate Valid()
      reads this, words
    {
      && IsChain(words[..], blockList, free) && Partition(words[..], free, taken)
      && freeCount == |free| && Fair(Fifo, waiting, woken, freeCount)
    }

    /** rt_mp_init, for at least one block. */
    constructor (blocks: nat)
      requires blocks > 0
      ensures Valid() && |free| == blocks && (forall k :: 0 <= k < blocks ==> free[k] == k)
      ensures taken == {} && waiting == [] && fresh(words) && words.Length == blocks
    {
      words := new int[blocks](_ => 0);
      blockList, freeCount, waiting := 0, blocks, [];
      free, taken, woken := seq(blocks, k requires 0 <= k < blocks => k), {}, {};
      new;
      for offset := 0 to blocks
        modifies words
        invariant forall k :: 0 <= k < offset ==> words[k] == k + 1
      {
        words[offset] := offset + 1;
      }
      words[blocks - 1] := NULL;
      forall b | 0 <= b < blocks ensures b in free {
        assert free[b] == b;
      }
    }

    /** rt_mp_alloc, also when a woken thread comes back: take the first free block, or give up, or be
        suspended, always in first-come order. */
    method Alloc(t: Thread, noWait: bool) returns (r: Reply)
      requires Valid() && t !in waiting
      modifies this, words
      ensures Valid() && woken == old(woken) - {t}
      ensures old(free) != [] ==>
        r == Got(old(free)[0]) && free == old(free)[1..] && taken == old(taken) + {old(free)[0]}
      ensures old(free) != [] ==> old(free)[0] !in old(taken) && unchanged(`waiting)
      ensures old(free) == [] ==> r == (if noWait then TimedOut else Waits) && unchanged(`free, `taken)
      ensures old(free) == [] ==> waiting == if noWait then old(waiting) else old(waiting) + [t]
    {
      hide Fair, IsChain, Partition, Suspended;
      if freeCount == 0 {
        if noWait {
          GiveUpFair(Fifo, waiting, woken, t);
          r := TimedOut;
        } else {
          SuspendFair(Fifo, waiting, woken, t);
          FirstCome(waiting, t);
          waiting := Enqueue(waiting, t, Fifo);
          r := Waits;
        }
        woken := woken - {t};
        return;
      }
      TakeFirst(words[..], blockList, free, taken);
      TakeFair(Fifo, waiting, woken, freeCount, t);
      woken := woken - {t};
      freeCount := freeCount - 1;
      var block := blockList;
      blockList := words[block];
      ghost var w := words[..];
      words[block] := POOL;
      assert words[..] == w[block := POOL];
      free, taken := free[1..], taken + {free[0]};
      r := Got(block);
    }

    /** rt_mp_free, of an allocated block. */
    method Free(block: nat)
      requires Valid() && block in taken
      modifies this, words
      ensures Valid() && free == [block] + old(free) && taken == old(taken) - {block}
      ensures old(waiting) == [] ==> waiting == [] && woken == old(woken)
      ensures old(waiting) != [] ==> waiting == old(waiting)[1..] && woken == old(woken) + {old(waiting)[0]}
    {
      hide Fair, IsChain, Partition;
      GiveBack(words[..], blockList, free, taken, block);
      WakeFair(Fifo, waiting, woken, freeCount);
      freeCount := freeCount + 1;
      ghost var w := words[..];
      words[block] := blockList;
      assert words[..] == w[block := blockList];
      blockList := block;
      free, taken := [block] + free, taken - {block};
      if waiting != [] {
        woken := woken + {waiting[0]};
        waiting := waiting[1..];
      }
    }

    /** The timer of a waiting thread expires. */
    method Expire(k: nat)
      requires Valid() && k < |waiting|
      modifies this`waiting
      ensures Valid() && waiting == old(waiting)[..k] + old(waiting)[k + 1..]
    {
      hide Fair, IsChain, Partition;
      ExpireFair(Fifo, waiting, woken, freeCount, k);
      waiting := waiting[..k] + waiting[k + 1..];
    }
  }

  lemma FirstCome(list: seq<Thread>, t: Thread)
    ensures Suspended(Fifo, list, t) == list + [t]
  {}
}
