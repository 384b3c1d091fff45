/** The waits-for graph of the mutexes, and what the local invariant means for it: every thread that is
    not part of a deadlock runs at the most urgent initial priority among itself and all threads that
    wait for it, directly or through others. */
module WaitsFor {
  import opened PriorityInheritance
  import opened PriorityWalk
  import opened MutexSteps
  import opened MutexKernel

  /** The thread that `t` waits for, if any. */
  ghost function Next(s: Sys, t: ThreadCb): ThreadCb? {
    if t in s.threads && s.threads[t].suspended && s.threads[t].pending in s.mutexes
    then s.mutexes[s.threads[t].pending].owner else null
  }

  /** `b` is reached from `a` by `n` steps along the chain of owners. */
  ghost predicate Reaches(s: Sys, a: ThreadCb, b: ThreadCb, n: nat) {
    if n == 0 then a == b else Next(s, a) != null && Reaches(s, Next(s, a), b, n - 1)
  }

  /** `a` is `b`, or waits for it directly or through others. */
  ghost predicate Depends(s: Sys, a: ThreadCb, b: ThreadCb) {
    exists n: nat :: Reaches(s, a, b, n)
  }

  /** `t` waits, directly or through others, for itself. */
  ghost predicate OnCycle(s: Sys, t: ThreadCb) {
    exists n: nat :: n >= 1 && Reaches(s, t, t, n)
  }

  ghost predicate Acyclic(s: Sys) {
    forall t :: t in s.threads ==> !OnCycle(s, t)
  }

  /** `p` is the minimum of the initial priorities of `t` and of all threads blocked by it. */
  ghost predicate IsMostUrgent(s: Sys, t: ThreadCb, p: Prio) {
    && (forall u | u in s.threads && Depends(s, u, t) :: p <= s.threads[u].initPrio)
    && (exists u :: u in s.threads && Depends(s, u, t) && s.threads[u].initPrio == p)
  }

  lemma {:induction false} ReachesOn(s: Sys, a: ThreadCb, b: ThreadCb, c: ThreadCb, m: nat, n: nat)
    requires Reaches(s, a, b, m) && Reaches(s, b, c, n)
    ensures Reaches(s, a, c, m + n)
  {
    if m > 0 {
      ReachesOn(s, Next(s, a), b, c, m - 1, n);
    }
  }

  lemma WaiterAtLeast(s: Sys, t: ThreadCb)
    requires Settled(s) && t in s.threads && Next(s, t) != null
    ensures Next(s, t) in s.threads && s.threads[Next(s, t)].prio <= s.threads[t].prio
  {
    var m := s.threads[t].pending;
    var o := Next(s, t);
    StructureWaits(s, t);
    assert QueueOk(s.threads, s.mutexes[m]) && OwnerOk(s, o);
    var q := s.mutexes[m].waiters;
    var i :| 0 <= i < |q| && q[i] == t;
    assert i > 0 ==> Before(s.threads[q[0]], s.threads[q[i]]);
  }

  lemma AtLeastInitial(s: Sys, t: ThreadCb)
    requires Settled(s) && t in s.threads
    ensures s.threads[t].prio <= s.threads[t].initPrio
  {
    assert OwnerOk(s, t);
  }

  /** A thread is at least as urgent as every thread it blocks, however far away. */
  lemma {:induction false} BlockerAtLeast(s: Sys, u: ThreadCb, t: ThreadCb, n: nat)
    requires Settled(s) && u in s.threads && Reaches(s, u, t, n)
    ensures t in s.threads && s.threads[t].prio <= s.threads[u].prio
    ensures s.threads[t].prio <= s.threads[u].initPrio
    decreases n
  {
    hide Settled;
    AtLeastInitial(s, u);
    if n > 0 {
      WaiterAtLeast(s, u);
      BlockerAtLeast(s, Next(s, u), t, n - 1);
    }
  }

  /** A thread above its initial priority has a waiter at exactly that priority. */
  lemma Lender(s: Sys, t: ThreadCb) returns (u: ThreadCb)
    requires Settled(s) && t in s.threads && s.threads[t].prio != s.threads[t].initPrio
    ensures u in s.threads && Next(s, u) == t && s.threads[u].prio == s.threads[t].prio
  {
    assert OwnerOk(s, t);
    var m :| m in s.threads[t].taken && s.mutexes[m].priority == s.threads[t].prio;
    assert QueueOk(s.threads, s.mutexes[m]);
    u := s.mutexes[m].waiters[0];
    assert u in s.mutexes[m].waiters;
  }

  lemma DependsFurther(s: Sys, w: ThreadCb, c: ThreadCb, v: ThreadCb)
    requires Next(s, w) == c && Depends(s, c, v)
    ensures Depends(s, w, v)
  {
    var j: nat :| Reaches(s, c, v, j);
    assert Reaches(s, w, v, j + 1);
  }

  /** Whatever is reached from a cycle lies on it: every thread waits for at most one other. */
  lemma {:induction false} CycleClosed(s: Sys, c: ThreadCb, t: ThreadCb, n: nat)
    requires OnCycle(s, c) && Reaches(s, c, t, n)
    ensures OnCycle(s, t)
    decreases n
  {
    if n > 0 {
      var k: nat :| k >= 1 && Reaches(s, c, c, k);
      var d := Next(s, c);
      assert Reaches(s, c, d, 1) by { assert Reaches(s, d, d, 0); }
      ReachesOn(s, d, c, d, k - 1, 1);
      CycleClosed(s, d, t, n - 1);
    }
  }

  /** A thread that leads to `t`, which is on no cycle, is reached by none of those that wait for it. */
  lemma NoWayBack(s: Sys, w: ThreadCb, c: ThreadCb, t: ThreadCb)
    requires !OnCycle(s, t) && Depends(s, c, t) && Next(s, w) == c
    ensures !Depends(s, c, w)
  {
    var n: nat :| Reaches(s, c, t, n);
    forall j: nat ensures !Reaches(s, c, w, j) {
      if Reaches(s, c, w, j) {
        assert Reaches(s, w, c, 1) by { assert Reaches(s, c, c, 0); }
        ReachesOn(s, c, w, c, j, 1);
        CycleClosed(s, c, t, n);
      }
    }
  }

  /** Off the cycles, following the lenders ends at a thread whose own priority is being used. */
  lemma {:induction false} SourceOfPriority(s: Sys, t: ThreadCb, c: ThreadCb, unseen: set<ThreadCb>)
    returns (u: ThreadCb)
    requires Settled(s) && !OnCycle(s, t) && t in s.threads && c in s.threads
    requires Depends(s, c, t) && s.threads[c].prio == s.threads[t].prio
    requires forall v :: v in s.threads && v !in unseen ==> Depends(s, c, v)
    ensures u in s.threads && Depends(s, u, t) && s.threads[u].initPrio == s.threads[t].prio
    decreases unseen
  {
    if s.threads[c].prio == s.threads[c].initPrio {
      u := c;
    } else {
      var w := Lender(s, c);
      NoWayBack(s, w, c, t);
      hide Settled, OnCycle, Next;
      DependsFurther(s, w, c, t);
      forall v | v in s.threads && v !in unseen - {w} ensures Depends(s, w, v) {
        if v == w {
          assert Reaches(s, w, w, 0);
        } else {
          DependsFurther(s, w, c, v);
        }
      }
      u := SourceOfPriority(s, t, w, unseen - {w});
    }
  }

  /** The closed form: in a settled state, every thread that is not part of a deadlock runs at the most
      urgent initial priority among itself and all threads transitively blocked by it. */
  lemma ClosedForm(s: Sys, t: ThreadCb)
    requires Settled(s) && t in s.threads && !OnCycle(s, t)
    ensures IsMostUrgent(s, t, s.threads[t].prio)
  {
    forall u | u in s.threads && Depends(s, u, t) ensures s.threads[t].prio <= s.threads[u].initPrio {
      var n: nat :| Reaches(s, u, t, n);
      BlockerAtLeast(s, u, t, n);
    }
    assert Reaches(s, t, t, 0);
    var u := SourceOfPriority(s, t, t, s.threads.Keys);
  }

  lemma {:induction false} SameReach(s: Sys, s': Sys, a: ThreadCb, b: ThreadCb, n: nat)
    requires (forall u :: Next(s', u) == Next(s, u)) && Reaches(s, a, b, n)
    ensures Reaches(s', a, b, n)
  {
    hide Next;
    if n > 0 {
      SameReach(s, s', Next(s, a), b, n - 1);
    }
  }

  /** The waits-for graph and the initial priorities determine the priority of every thread that is not
      part of a deadlock. */
  lemma GraphDeterminesPriorities(s: Sys, s': Sys, t: ThreadCb)
    requires Settled(s) && Settled(s') && t in s.threads && !OnCycle(s, t)
    requires s'.threads.Keys == s.threads.Keys && forall u :: u in s.threads ==>
      s'.threads[u].initPrio == s.threads[u].initPrio
    requires forall u :: Next(s', u) == Next(s, u)
    ensures s'.threads[t].prio == s.threads[t].prio
  {
    ClosedForm(s, t);
    forall n: nat | n >= 1 ensures !Reaches(s', t, t, n) {
      if Reaches(s', t, t, n) {
        SameReach(s', s, t, t, n);
      }
    }
    ClosedForm(s', t);
    hide Settled, Next;
    forall u ensures Depends(s, u, t) <==> Depends(s', u, t) {
      if Depends(s, u, t) {
        var n: nat :| Reaches(s, u, t, n);
        SameReach(s, s', u, t, n);
      }
      if Depends(s', u, t) {
        var n: nat :| Reaches(s', u, t, n);
        SameReach(s', s, u, t, n);
      }
    }
  }
}
