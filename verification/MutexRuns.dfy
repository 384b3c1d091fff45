/** Runs of the mutex operations: in every state of every run, the priorities have their closed form at all
    threads that are not part of a deadlock, and a deadlock comes only from a blocking take that closes a
    cycle. */
module MutexRuns {
  import opened PriorityInheritance
  import opened PriorityWalk
  import opened MutexSteps
  import opened MutexEffects
  import opened MutexKernel
  import opened WaitsFor

  // ------------------------------------------------------------------------------------------
  // Edges of the waits-for graph
  // ------------------------------------------------------------------------------------------

  /** Every edge of `s'` is an edge of `s` or leads to `n`, from which no edge leads on. */
  ghost predicate Redirected(s: Sys, s': Sys, n: ThreadCb?) {
    && s'.threads.Keys == s.threads.Keys
    && (forall u | u in s.threads ::
          Next(s', u) == null || Next(s', u) == Next(s, u) || (n != null && Next(s', u) == n))
    && (n != null ==> Next(s', n) == null)
  }

  lemma {:induction false} RedirectedReach(s: Sys, s': Sys, n: ThreadCb?, a: ThreadCb, b: ThreadCb, k: nat)
    requires Redirected(s, s', n) && Reaches(s', a, b, k)
    ensures Reaches(s, a, b, k) || (k > 0 && b == n)
  {
    if k > 0 {
      RedirectedReach(s, s', n, Next(s', a), b, k - 1);
    }
  }

  lemma RedirectedAcyclic(s: Sys, s': Sys, n: ThreadCb?)
    requires Acyclic(s) && Redirected(s, s', n)
    ensures Acyclic(s')
  {
    hide Next;
    forall t | t in s'.threads ensures !OnCycle(s', t) {
      if OnCycle(s', t) {
        var k: nat :| k >= 1 && Reaches(s', t, t, k);
        assert !OnCycle(s, t);
        RedirectedReach(s, s', n, t, t, k);
      }
    }
  }

  /** The only new edge of `s'` leads from `t`, which had none, to `o`. */
  ghost predicate Joined(s: Sys, s': Sys, t: ThreadCb, o: ThreadCb) {
    && s'.threads.Keys == s.threads.Keys
    && (forall u | u in s.threads :: u != t ==> Next(s', u) == Next(s, u))
    && Next(s, t) == null && Next(s', t) == o
  }

  lemma {:induction false} JoinedReach(s: Sys, s': Sys, t: ThreadCb, o: ThreadCb, a: ThreadCb, b: ThreadCb, k: nat)
    requires Joined(s, s', t, o) && Reaches(s', a, b, k)
    ensures Reaches(s, a, b, k) || (Depends(s, a, t) && Depends(s, o, b)) || Depends(s, o, t)
  {
    if k > 0 {
      var c := Next(s', a);
      JoinedReach(s, s', t, o, c, b, k - 1);
      if a == t {
        assert Reaches(s, t, t, 0);
      } else if Depends(s, c, t) {
        DependsFurther(s, a, c, t);
      }
    }
  }

  lemma {:induction false} JoinedReachOld(s: Sys, s': Sys, t: ThreadCb, o: ThreadCb, a: ThreadCb, b: ThreadCb, k: nat)
    requires Joined(s, s', t, o) && Reaches(s, a, b, k)
    ensures Reaches(s', a, b, k)
  {
    if k > 0 {
      JoinedReachOld(s, s', t, o, Next(s, a), b, k - 1);
    }
  }

  /** Blocking keeps the graph acyclic exactly when the owner does not already depend on the new
      waiter. */
  lemma JoinedAcyclic(s: Sys, s': Sys, t: ThreadCb, o: ThreadCb)
    requires Acyclic(s) && Joined(s, s', t, o) && t in s.threads
    ensures Acyclic(s') <==> !Depends(s, o, t)
  {
    hide Next;
    if Depends(s, o, t) {
      var n: nat :| Reaches(s, o, t, n);
      JoinedReachOld(s, s', t, o, o, t, n);
      assert Reaches(s', t, t, n + 1);
      assert OnCycle(s', t);
    } else {
      forall x | x in s'.threads ensures !OnCycle(s', x) {
        if OnCycle(s', x) {
          var k: nat :| k >= 1 && Reaches(s', x, x, k);
          assert !OnCycle(s, x);
          JoinedReach(s, s', t, o, x, x, k);
          var i: nat :| Reaches(s, x, t, i);
          var j: nat :| Reaches(s, o, x, j);
          ReachesOn(s, o, x, t, j, i);
        }
      }
    }
  }

  lemma NextOfShape(s: Sys, s': Sys, u: ThreadCb)
    requires SameShape(s, s')
    ensures Next(s', u) == Next(s, u)
  {
    assert u in s.threads ==> SameThread(s.threads[u], s'.threads[u]);
    assert u in s.threads && s.threads[u].pending in s.mutexes ==>
        SameMutex(s.mutexes[s.threads[u].pending], s'.mutexes[s.threads[u].pending]);
  }

  lemma BlockJoins(s: Sys, s': Sys, t: ThreadCb, m: MutexCb)
    requires Running(s, t) && m in s.mutexes && s.mutexes[m].owner != null && Known(s.threads, s.mutexes[m].waiters)
    requires SameShape(Lower(Suspend(s, t, m), m, s.threads[t].prio), s')
    ensures Joined(s, s', t, s.mutexes[m].owner)
  {
    var s1 := Lower(Suspend(s, t, m), m, s.threads[t].prio);
    SuspendFields(s, t, m);
    hide Suspend, Lower, SameShape;
    forall u | u in s.threads ensures Next(s', u) == if u == t then s.mutexes[m].owner else Next(s, u) {
      NextOfShape(s1, s', u);
    }
    ShapeKeys(s1, s');
  }

  lemma ShapeKeys(s: Sys, s': Sys)
    requires SameShape(s, s')
    ensures s'.threads.Keys == s.threads.Keys
  {}

  lemma ReleaseRedirects(s: Sys, t: ThreadCb, m: MutexCb, p: Prio)
    requires Structure(s) && Running(s, t) && m in s.mutexes && s.mutexes[m].owner == t
      && Known(s.threads, s.mutexes[m].waiters)
    ensures var q := s.mutexes[m].waiters;
      Redirected(s, ReleaseLast(s, t, m, p), if q == [] then null else q[0])
  {
    var q, s' := s.mutexes[m].waiters, ReleaseLast(s, t, m, p);
    assert q != [] ==> q[0] in q;
  }

  lemma TimeoutRedirects(s: Sys, s': Sys, t: ThreadCb, q: Prio)
    requires Waits(s, t) && RelaxedFrom(Forget(Wake(s, t), t), s', q)
    ensures Redirected(s, s', null)
  {
    var s1 := Forget(Wake(s, t), t);
    hide Remove, HeadPrio;
    forall u | u in s.threads ensures Next(s', u) == null || Next(s', u) == Next(s, u) {
      NextOfShape(s1, s', u);
    }
  }

  lemma TakeFreeRedirects(s: Sys, t: ThreadCb, m: MutexCb)
    requires Structure(s) && Running(s, t) && m in s.mutexes && s.mutexes[m].owner == null
    ensures Redirected(s, TakeFree(s, t, m), null)
  {
    assert forall u :: u in s.threads && s.threads[u].suspended && s.threads[u].pending != null ==>
      u in s.mutexes[s.threads[u].pending].waiters;
  }

  // ------------------------------------------------------------------------------------------
  // Runs
  // ------------------------------------------------------------------------------------------

  datatype Call =
    | Take(t: ThreadCb, m: MutexCb, timeout: int)
    | Release(t: ThreadCb, m: MutexCb)
    | Timeout(t: ThreadCb)

  /** What the call makes of `s`, field by field and turn by turn as the source computes it.  The methods
      of `Kernel` are proved to do this: `TakeIsStep`, `ReleaseIsStep` and `TimeoutIsStep`. */
  ghost predicate Step(s: Sys, c: Call, s': Sys) {
    match c
    case Take(t, m, timeout) => Running(s, t) && m in s.mutexes && exists r :: TakeEffect(s, s', t, m, timeout, r)
    case Release(t, m) => Running(s, t) && m in s.mutexes && exists ok, p :: ReleaseEffect(s, s', t, m, ok, p)
    case Timeout(t) => TimedOut(s, t, s')
  }

  /** The call would make a thread wait for a mutex whose owner already depends on that thread. */
  ghost predicate Deadlocks(s: Sys, c: Call) {
    && c.Take? && c.m in s.mutexes
    && s.mutexes[c.m].owner != null && s.mutexes[c.m].owner != c.t && c.timeout != 0
    && Depends(s, s.mutexes[c.m].owner, c.t)
  }

  /** All mutexes free, nobody waiting, everyone at its initial priority. */
  ghost predicate Initial(s: Sys) {
    && (forall t :: t in s.threads ==>
          var v := s.threads[t]; v.prio == v.initPrio && v.pending == null && v.taken == {} && v.stamp < s.clock)
    && (forall m :: m in s.mutexes ==> s.mutexes[m] == MutexView(null, NO_WAITER, 0, []))
  }

  /** Runs start where the constructor of `Kernel` leaves off. */
  lemma FreshIsInitial(threads: set<ThreadCb>, mutexes: set<MutexCb>)
    ensures Initial(FreshSys(threads, mutexes))
  {
    var s := FreshSys(threads, mutexes);
    assert s.threads.Keys == threads && s.mutexes.Keys == mutexes;
  }

  lemma InitialIsSettled(s: Sys)
    requires Initial(s)
    ensures Inv(s) && Acyclic(s)
  {
    forall t, n | t in s.threads && n >= 1 ensures !Reaches(s, t, t, n) {
      assert Next(s, t) == null;
    }
    forall t | t in s.threads ensures OwnerOk(s, t) {}
  }

  // ------------------------------------------------------------------------------------------
  // Every call keeps the invariant
  // ------------------------------------------------------------------------------------------

  lemma BlockedKeeps(s: Sys, s': Sys, t: ThreadCb, m: MutexCb)
    requires Inv(s) && Running(s, t) && m in s.mutexes && s.mutexes[m].owner != null
      && Known(s.threads, s.mutexes[m].waiters)
    requires Informed(Suspend(s, t, m), m, s.threads[t].prio, s')
    ensures Inv(s') && m in Suspend(s, t, m).mutexes
    ensures BoostedTo(Lower(Suspend(s, t, m), m, s.threads[t].prio), s', s.threads[t].prio)
  {
    hide Settled, Quiet, Suspend, Lower, Informed, BoostedTo, Known, Due;
    SuspendOwners(s, t, m);
    DueKnows(Suspend(s, t, m), m, s.mutexes[m].owner, s.threads[t].prio);
    InformedKeeps(Suspend(s, t, m), m, s.mutexes[m].owner, s.threads[t].prio, s');
    BlockKeeps(s, s', t, m);
  }

  lemma DueKnows(s: Sys, m: MutexCb, o: ThreadCb, p: Prio)
    requires Due(s, m, o, p)
    ensures m in s.mutexes
  {}

  lemma TakeKeeps(s: Sys, s': Sys, t: ThreadCb, m: MutexCb, timeout: int, r: TakeResult)
    requires Inv(s) && Running(s, t) && m in s.mutexes && TakeEffect(s, s', t, m, timeout, r)
    ensures Inv(s')
  {
    hide Inv, SetHold, TakeFree, Suspend, Informed, Known;
    var v := s.mutexes[m];
    if r == Blocked {
      BlockedKeeps(s, s', t, m);
    } else if v.owner == null {
      TakeFreeKeeps(s, t, m);
    } else if r == Taken {
      SetHoldKeeps(s, m, v.hold + 1);
    }
  }

  lemma ReleaseKeepsInv(s: Sys, s': Sys, t: ThreadCb, m: MutexCb, ok: bool, p: Prio)
    requires Inv(s) && Running(s, t) && m in s.mutexes && ReleaseEffect(s, s', t, m, ok, p)
    ensures Inv(s')
  {
    hide Inv, SetHold, ReleaseLast, Known, LeftWith;
    if ok && s.mutexes[m].hold > 1 {
      SetHoldKeeps(s, m, s.mutexes[m].hold - 1);
    } else if ok {
      ReleasedKeeps(s, t, m, p);
    }
  }

  lemma RelievedKeeps(s: Sys, m: MutexCb, o: ThreadCb, q: Prio, s': Sys)
    requires Owed(s, m, o, q) && Relieved(s, o, q, s')
    ensures Settled(s') && RelaxedFrom(s, s', q)
  {
    OwedClosed(s, m, o, q);
    Untouching(s, q);
    if s.threads[o].prio == q {
      var p :| IsInherited(s, o, p) && if p == q then s' == s else Walk(s, o, p, s');
      hide Settled, IsInherited, RelaxedFrom, Walked, Walk, Relieved, Unsettled;
      OwedRises(s, m, o, q, p);
      if p != q {
        WalkKeeps(s, o, p, s');
        WalkedOneWay(s, s', q, p);
      }
    }
  }

  lemma TimeoutKeeps(s: Sys, t: ThreadCb, s': Sys)
    requires Inv(s) && TimedOut(s, t, s')
    ensures Inv(s') && RelaxedFrom(Forget(Wake(s, t), t), s', s.threads[t].prio)
  {
    hide Settled, Wake, RelaxedFrom, SameShape, Quiet, Owed, Relieved;
    var m, q := s.threads[t].pending, s.threads[t].prio;
    var s1 := Remember(s', t, m);
    assert Forget(s1, t).threads == s'.threads;
    hide Waits;
    WakeOwed(s, t);
    WakeQuiet(s, t);
    RelievedKeeps(Wake(s, t), m, s.mutexes[m].owner, q, s1);
    RelaxedShape(Wake(s, t), s1, q);
    ShapeQuiet(Wake(s, t), s1, t);
    ForgetShape(Wake(s, t), s1, t, q);
    ForgetKeeps(s1, t);
  }

  /** Every call keeps the invariant. */
  lemma StepKeeps(s: Sys, c: Call, s': Sys)
    requires Inv(s) && Step(s, c, s')
    ensures Inv(s')
  {
    hide Inv, TakeEffect, ReleaseEffect, TimedOut;
    match c
    case Take(t, m, timeout) =>
      var r :| TakeEffect(s, s', t, m, timeout, r);
      TakeKeeps(s, s', t, m, timeout, r);
    case Release(t, m) =>
      var ok, p :| ReleaseEffect(s, s', t, m, ok, p);
      ReleaseKeepsInv(s, s', t, m, ok, p);
    case Timeout(t) =>
      TimeoutKeeps(s, t, s');
  }

  // ------------------------------------------------------------------------------------------
  // The methods take these steps
  // ------------------------------------------------------------------------------------------

  twostate lemma TakeIsStep(k: Kernel, t: ThreadCb, m: MutexCb, timeout: int, r: TakeResult)
    requires Running(old(k.sys), t) && m in old(k.sys).mutexes && TakeEffect(old(k.sys), k.sys, t, m, timeout, r)
    ensures Step(old(k.sys), Take(t, m, timeout), k.sys)
  {
    hide TakeEffect;
  }

  twostate lemma ReleaseIsStep(k: Kernel, t: ThreadCb, m: MutexCb, ok: bool, p: Prio)
    requires Running(old(k.sys), t) && m in old(k.sys).mutexes && ReleaseEffect(old(k.sys), k.sys, t, m, ok, p)
    ensures Step(old(k.sys), Release(t, m), k.sys)
  {
    hide ReleaseEffect;
  }

  twostate lemma TimeoutIsStep(k: Kernel, t: ThreadCb)
    requires TimedOut(old(k.sys), t, k.sys)
    ensures Step(old(k.sys), Timeout(t), k.sys)
  {
    hide TimedOut;
  }

  // ------------------------------------------------------------------------------------------
  // Where cycles come from
  // ------------------------------------------------------------------------------------------

  lemma TakeKeepsAcyclic(s: Sys, s': Sys, t: ThreadCb, m: MutexCb, timeout: int, r: TakeResult)
    requires Inv(s) && Acyclic(s) && Running(s, t) && m in s.mutexes && TakeEffect(s, s', t, m, timeout, r)
    ensures Acyclic(s') <==> !Deadlocks(s, Take(t, m, timeout))
  {
    hide Inv, Acyclic, Suspend, Lower, Redirected, Joined, Informed, BoostedTo, SameShape, Depends, Known, SetHold,
      TakeFree;
    var o := s.mutexes[m].owner;
    if r == Blocked {
      BlockedKeeps(s, s', t, m);
      BoostedShape(Lower(Suspend(s, t, m), m, s.threads[t].prio), s', s.threads[t].prio);
      BlockJoins(s, s', t, m);
      JoinedAcyclic(s, s', t, o);
    } else if o == null {
      InvStructure(s);
      TakeFreeRedirects(s, t, m);
      RedirectedAcyclic(s, s', null);
    } else {
      HoldRedirects(s, s', m);
      RedirectedAcyclic(s, s', null);
    }
  }

  lemma BoostedShape(s: Sys, s': Sys, p: Prio)
    requires BoostedTo(s, s', p)
    ensures SameShape(s, s')
  {}

  lemma InvStructure(s: Sys)
    requires Inv(s)
    ensures Structure(s) && Settled(s)
  {}

  lemma HoldRedirects(s: Sys, s': Sys, m: MutexCb)
    requires m in s.mutexes && (s' == s || exists n: Prio :: s' == SetHold(s, m, n))
    ensures Redirected(s, s', null)
  {}

  lemma ReleaseKeepsAcyclic(s: Sys, s': Sys, t: ThreadCb, m: MutexCb, ok: bool, p: Prio)
    requires Inv(s) && Acyclic(s) && Running(s, t) && m in s.mutexes && ReleaseEffect(s, s', t, m, ok, p)
    ensures Acyclic(s')
  {
    hide Inv, Acyclic, Redirected, ReleaseLast, SetHold;
    if ok && s.mutexes[m].hold <= 1 {
      InvStructure(s);
      ReleaseRedirects(s, t, m, p);
      ReleaseDomain(s, t, m, p);
      var q := s.mutexes[m].waiters;
      RedirectedAcyclic(s, s', if q == [] then null else q[0]);
    } else {
      HoldRedirects(s, s', m);
      RedirectedAcyclic(s, s', null);
    }
  }

  /** A step keeps the graph acyclic exactly when it is not a blocking take that closes a cycle. */
  lemma StepKeepsAcyclic(s: Sys, c: Call, s': Sys)
    requires Inv(s) && Acyclic(s) && Step(s, c, s')
    ensures Acyclic(s') <==> !Deadlocks(s, c)
  {
    hide Inv, Acyclic, TakeEffect, ReleaseEffect, Deadlocks, RelaxedFrom, Wake, Forget, Relieved;
    match c
    case Take(t, m, timeout) =>
      var r :| TakeEffect(s, s', t, m, timeout, r);
      TakeKeepsAcyclic(s, s', t, m, timeout, r);
    case Release(t, m) =>
      var ok, p :| ReleaseEffect(s, s', t, m, ok, p);
      ReleaseKeepsAcyclic(s, s', t, m, ok, p);
      OnlyTakesDeadlock(s, c);
    case Timeout(t) =>
      TimeoutKeeps(s, t, s');
      TimeoutRedirects(s, s', t, s.threads[t].prio);
      RedirectedAcyclic(s, s', null);
      OnlyTakesDeadlock(s, c);
  }

  lemma OnlyTakesDeadlock(s: Sys, c: Call)
    requires !c.Take?
    ensures !Deadlocks(s, c)
  {}

  // ------------------------------------------------------------------------------------------
  // All runs
  // ------------------------------------------------------------------------------------------

  ghost predicate IsRun(states: seq<Sys>, calls: seq<Call>) {
    && |states| == |calls| + 1 && Initial(states[0])
    && forall k :: 0 <= k < |calls| ==> Step(states[k], calls[k], states[k + 1])
  }

  lemma {:induction false} RunKeeps(states: seq<Sys>, calls: seq<Call>, i: nat)
    requires IsRun(states, calls) && i < |states|
    ensures Inv(states[i])
  {
    hide Initial, Step, Inv, Acyclic;
    if i == 0 {
      InitialIsSettled(states[0]);
    } else {
      RunKeeps(states, calls, i - 1);
      StepKeeps(states[i - 1], calls[i - 1], states[i]);
    }
  }

  /** In every state of every run, with or without deadlocks, every thread that is not itself part of a
      deadlock runs at the most urgent initial priority among itself and those it blocks. */
  lemma RunsAreFair(states: seq<Sys>, calls: seq<Call>, i: nat, t: ThreadCb)
    requires IsRun(states, calls) && i < |states| && t in states[i].threads && !OnCycle(states[i], t)
    ensures IsMostUrgent(states[i], t, states[i].threads[t].prio)
  {
    hide IsRun, IsMostUrgent, OnCycle;
    RunKeeps(states, calls, i);
    InvStructure(states[i]);
    ClosedForm(states[i], t);
  }

  /** A run in which no blocking take closes a cycle has no deadlock. */
  lemma {:induction false} RunStaysAcyclic(states: seq<Sys>, calls: seq<Call>, i: nat)
    requires IsRun(states, calls) && i < |states|
    requires forall k :: 0 <= k < i ==> !Deadlocks(states[k], calls[k])
    ensures Acyclic(states[i])
  {
    hide Initial, Step, Deadlocks, Inv, Acyclic;
    if i == 0 {
      InitialIsSettled(states[0]);
    } else {
      RunStaysAcyclic(states, calls, i - 1);
      RunKeeps(states, calls, i - 1);
      StepKeepsAcyclic(states[i - 1], calls[i - 1], states[i]);
    }
  }
}
