/** The lock-less list of rtatomic.h, with any number of producers and one consumer.

    Each method is one atomic step: a load, a store or a compare-exchange.  A method asks only that the
    list is valid and that the thread is at the step, so the steps interleave in every possible way. */
module LockFreeList {
  import opened Sequences

  type Node = nat

  /** A pointer; null ends the list. */
  datatype Ptr = Null | To(node: Node)

  /** Where a producer is: it loaded `exp` for its node, or it has stored it in the node as well. */
  datatype Producer = Loaded(node: Node, exp: Ptr) | Stored(node: Node, exp: Ptr)

  /** Where the consumer is: idle, or it loaded `exp`, or it has loaded the next field of that node too. */
  datatype Consumer = Idle | Seen(exp: Ptr) | Ahead(head: Node, next: Ptr)

  ghost predicate IsStack(next: map<Node, Ptr>, top: Ptr, s: seq<Node>) {
    && (top == if s == [] then Null else To(s[0]))
    && (forall k :: 0 <= k < |s| ==> s[k] in next)
    && (forall k {:trigger next[s[k]]} :: 0 <= k < |s| ==> next[s[k]] == if k + 1 < |s| then To(s[k + 1]) else Null)
  }

  /** Every node pushed is on the stack or was popped, as often. */
  ghost predicate Conserved(pushed: seq<Node>, s: seq<Node>, popped: seq<Node>) {
    multiset(pushed) == multiset(s) + multiset(popped)
  }

  lemma PushConserves(pushed: seq<Node>, s: seq<Node>, popped: seq<Node>, n: Node)
    requires Conserved(pushed, s, popped)
    ensures Conserved(pushed + [n], [n] + s, popped)
  {}

  lemma PopConserves(pushed: seq<Node>, s: seq<Node>, popped: seq<Node>)
    requires Conserved(pushed, s, popped) && s != []
    ensures Conserved(pushed, s[1..], popped + [s[0]])
  {
    assert s == [s[0]] + s[1..];
  }

  lemma SameStack(next: map<Node, Ptr>, next': map<Node, Ptr>, top: Ptr, s: seq<Node>)
    requires IsStack(next, top, s) && forall n :: n in s && n in next ==> n in next' && next'[n] == next[n]
    ensures IsStack(next', top, s)
  {
    forall k | 0 <= k < |s| ensures s[k] in next' && next'[s[k]] == if k + 1 < |s| then To(s[k + 1]) else Null {
      assert next[s[k]] == if k + 1 < |s| then To(s[k + 1]) else Null;
    }
  }

  lemma Push(next: map<Node, Ptr>, top: Ptr, s: seq<Node>, n: Node)
    requires IsStack(next, top, s) && Distinct(s) && n !in s && n in next && next[n] == top
    ensures IsStack(next, To(n), [n] + s) && Distinct([n] + s)
  {
    var r := [n] + s;
    forall k | 0 <= k < |r| ensures r[k] in next && next[r[k]] == if k + 1 < |r| then To(r[k + 1]) else Null {
      if k > 0 {
        assert r[k] == s[k - 1] && next[s[k - 1]] == if k < |s| then To(s[k]) else Null;
      }
    }
  }

  lemma Pop(next: map<Node, Ptr>, top: Ptr, s: seq<Node>)
    requires IsStack(next, top, s) && Distinct(s) && s != []
    ensures s[0] in next && IsStack(next, next[s[0]], s[1..]) && Distinct(s[1..])
    ensures forall n :: n in s <==> n == s[0] || n in s[1..]
    ensures s[0] !in s[1..]
  {
    var r := s[1..];
    assert s == [s[0]] + r;
    assert next[s[0]] == if 1 < |s| then To(s[1]) else Null;
    forall k | 0 <= k < |r| ensures next[r[k]] == if k + 1 < |r| then To(r[k + 1]) else Null {
      assert next[s[k + 1]] == if k + 2 < |s| then To(s[k + 2]) else Null;
    }
  }

  class List {
    /** l->next. */
    var top: Ptr
    var next: map<Node, Ptr>
    var producers: map<nat, Producer>
    var consumer: Consumer
    /** The abstract stack. */
    ghost var stack: seq<Node>
    /** The nodes linked in and taken off, latest last, since the list was made. */
    ghost var pushed: seq<Node>
    ghost var popped: seq<Node>

    ghost predicate Valid()
      reads this
    {
      && IsStack(next, top, stack) && Distinct(stack)
      // no node is lost or duplicated
      && Conserved(pushed, stack, popped)
      // a producer's node is its own until it is linked
      && (forall p :: p in producers ==> producers[p].node !in stack)
      && (forall p, q {:trigger producers[p], producers[q]} :: p in producers && q in producers && p != q ==>
        producers[p].node != producers[q].node)
      && (forall p :: p in producers && producers[p].Stored? ==>
          producers[p].node in next && next[producers[p].node] == producers[p].exp)
      // what the consumer has seen stays on the stack, with the next field it has read
      && (consumer.Seen? && consumer.exp.To? ==> consumer.exp.node in stack)
      && (consumer.Ahead? ==> consumer.head in stack && consumer.head in next && next[consumer.head] == consumer.next)
    }

    /** rt_ll_slist_init. */
    constructor ()
      ensures Valid() && stack == pushed == popped == [] && producers == map[] && consumer == Idle
    {
      top, next, producers, consumer := Null, map[], map[], Idle;
      stack, pushed, popped := [], [], [];
    }

    // ----------------------------------------------------------------------------------------
    // rt_ll_slist_enqueue
    // ----------------------------------------------------------------------------------------

    /** The first load, for a node that is neither on the list nor held by another producer. */
    method EnqueueLoad(p: nat, n: Node)
      requires Valid() && p !in producers && n !in stack && forall q :: q in producers ==> producers[q].node != n
      modifies this`producers
      ensures Valid() && producers == old(producers)[p := Loaded(n, top)]
    {
      producers := producers[p := Loaded(n, top)];
    }

    /** n->next = exp. */
    method EnqueueStore(p: nat)
      requires Valid() && p in producers && producers[p].Loaded?
      modifies this`producers, this`next
      ensures Valid() && producers == old(producers)[p := Stored(old(producers)[p].node, old(producers)[p].exp)]
    {
      var n := producers[p].node;
      SameStack(next, next[n := producers[p].exp], top, stack);
      hide IsStack;
      next := next[n := producers[p].exp];
      producers := producers[p := Stored(n, producers[p].exp)];
    }

    /** The compare-exchange: the node is pushed, or the loop starts over with the value found. */
    method EnqueueExchange(p: nat) returns (done: bool)
      requires Valid() && p in producers && producers[p].Stored?
      modifies this`producers, this`top, this`stack, this`pushed
      ensures Valid() && done == (old(top) == old(producers)[p].exp)
      ensures done ==> stack == [old(producers)[p].node] + old(stack) && producers == old(producers) - {p}
      ensures pushed == if done then old(pushed) + [old(producers)[p].node] else old(pushed)
      ensures !done ==>
        stack == old(stack) && producers == old(producers)[p := Loaded(old(producers)[p].node, old(top))]
    {
      hide Conserved;
      var n := producers[p].node;
      if top == producers[p].exp {
        Push(next, top, stack, n);
        PushConserves(pushed, stack, popped, n);
        hide IsStack, Distinct;
        top := To(n);
        stack, pushed := [n] + stack, pushed + [n];
        producers := producers - {p};
        done := true;
      } else {
        producers := producers[p := Loaded(n, top)];
        done := false;
      }
    }

    // ----------------------------------------------------------------------------------------
    // rt_ll_slist_dequeue
    // ----------------------------------------------------------------------------------------

    /** The first load; null is returned at once if the list is empty. */
    method DequeueLoad() returns (empty: bool)
      requires Valid() && consumer == Idle
      modifies this`consumer
      ensures Valid() && empty == (stack == []) && consumer == if empty then Idle else Seen(top)
    {
      empty := top == Null;
      consumer := if empty then Idle else Seen(top);
    }

    /** head->next is loaded. */
    method DequeueNext()
      requires Valid() && consumer.Seen? && consumer.exp.To?
      modifies this`consumer
      ensures Valid() && consumer == Ahead(old(consumer).exp.node, next[old(consumer).exp.node])
    {
      StackLinked(next, top, stack, consumer.exp.node);
      consumer := Ahead(consumer.exp.node, next[consumer.exp.node]);
    }

    /** The compare-exchange: the top of the stack is taken, or the loop starts over with the node found,
        which is never null, as nobody else takes nodes away. */
    method DequeueExchange() returns (r: Ptr)
      requires Valid() && consumer.Ahead?
      modifies this`consumer, this`top, this`stack, this`popped
      ensures Valid() && old(stack) != []
      ensures old(top) == To(old(consumer).head) ==>
        r == To(old(stack)[0]) && stack == old(stack)[1..] && popped == old(popped) + [old(stack)[0]]
        && consumer == Idle
      ensures old(top) != To(old(consumer).head) ==>
        r == Null && stack == old(stack) && popped == old(popped) && consumer == Seen(To(old(stack)[0]))
    {
      hide Conserved;
      if top == To(consumer.head) {
        Pop(next, top, stack);
        PopConserves(pushed, stack, popped);
        hide IsStack, Distinct;
        r := top;
        popped := popped + [stack[0]];
        top := consumer.next;
        stack := stack[1..];
        consumer := Idle;
      } else {
        consumer := Seen(top);
        r := Null;
      }
    }
  }

  lemma StackLinked(next: map<Node, Ptr>, top: Ptr, s: seq<Node>, n: Node)
    requires IsStack(next, top, s) && n in s
    ensures n in next
  {}
}
