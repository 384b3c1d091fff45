/** The effect of taking, releasing and giving up on a mutex, on state values. */
module MutexSteps {
  import opened Sequences
  import opened PriorityInheritance
  import opened PriorityWalk

  /** A thread that can call into the mutex code: it is known and not suspended. */
  ghost predicate Running(s: Sys, t: ThreadCb) {
    t in s.threads && !s.threads[t].suspended
  }

  // ------------------------------------------------------------------------------------------
  // What a change of a few fields leaves alone
  // ------------------------------------------------------------------------------------------

  /** A list only sees priorities and turns. */
  lemma SamePriosQueue(ts: Threads, ts': Threads, m: MutexView, m': MutexView)
    requires QueueOk(ts, m) && m'.waiters == m.waiters && m'.priority == m.priority
    requires forall u :: u in m.waiters ==> u in ts' && ts'[u].prio == ts[u].prio && ts'[u].stamp == ts[u].stamp
    ensures QueueOk(ts', m')
  {
    var q := m.waiters;
    forall i, j | 0 <= i < j < |q| ensures Before(ts'[q[i]], ts'[q[j]]) {
      assert Before(ts[q[i]], ts[q[j]]);
    }
  }

  /** `t` waits for no mutex but `m`, and apart from `m` and the turn of `t` no list has changed. */
  lemma QueuesFrame(s: Sys, s': Sys, t: ThreadCb, m: MutexCb)
    requires Queues(s) && s'.mutexes.Keys == s.mutexes.Keys && s.threads.Keys <= s'.threads.Keys
    requires forall n :: n in s.mutexes && n != m ==>
      s'.mutexes[n].waiters == s.mutexes[n].waiters && s'.mutexes[n].priority == s.mutexes[n].priority
    requires forall n :: n in s.mutexes && n != m ==> t !in s.mutexes[n].waiters
    requires forall u :: u in s.threads && u != t ==>
      s'.threads[u].prio == s.threads[u].prio && s'.threads[u].stamp == s.threads[u].stamp
    requires m in s'.mutexes ==> QueueOk(s'.threads, s'.mutexes[m])
    ensures Queues(s')
  {
    forall n | n in s'.mutexes && n != m ensures QueueOk(s'.threads, s'.mutexes[n]) {
      var q := s.mutexes[n].waiters;
      assert QueueOk(s.threads, s.mutexes[n]);
      forall u | u in q ensures u in s.threads {}
      SamePriosQueue(s.threads, s'.threads, s.mutexes[n], s'.mutexes[n]);
    }
  }

  /** No list changes when no priority, turn, cache or list does. */
  lemma QueuesSame(s: Sys, s': Sys)
    requires Queues(s) && s'.mutexes.Keys == s.mutexes.Keys && s.threads.Keys <= s'.threads.Keys
    requires forall n :: n in s.mutexes ==>
      s'.mutexes[n].waiters == s.mutexes[n].waiters && s'.mutexes[n].priority == s.mutexes[n].priority
    requires forall u :: u in s.threads ==>
      s'.threads[u].prio == s.threads[u].prio && s'.threads[u].stamp == s.threads[u].stamp
    ensures Queues(s')
  {
    forall n | n in s'.mutexes ensures QueueOk(s'.threads, s'.mutexes[n]) {
      assert QueueOk(s.threads, s.mutexes[n]);
      SamePriosQueue(s.threads, s'.threads, s.mutexes[n], s'.mutexes[n]);
    }
  }

  /** The owners other than `o` inherit from mutexes whose cached priority has not changed. */
  lemma OwnersFrame(s: Sys, s': Sys, m: MutexCb, o: ThreadCb)
    requires Closed(s) && Closed(s') && OwnersBut(s, {}) && s'.threads.Keys == s.threads.Keys
    requires forall u :: u in s.threads && u != o ==>
      && s'.threads[u].prio == s.threads[u].prio && s'.threads[u].initPrio == s.threads[u].initPrio
      && s'.threads[u].taken == s.threads[u].taken && m !in s.threads[u].taken
    requires forall n :: n in s.mutexes && n != m ==> n in s'.mutexes && s'.mutexes[n].priority == s.mutexes[n].priority
    ensures OwnersBut(s', {o})
  {
    forall u | u in s'.threads && u != o ensures OwnerOk(s', u) {
      assert OwnerOk(s, u);
    }
  }

  lemma OwnerTakes(s: Sys, t: ThreadCb, m: MutexCb)
    requires Structure(s) && t in s.threads && m in s.mutexes && s.mutexes[m].owner == t
    ensures m in s.threads[t].taken
    ensures forall u :: u in s.threads && u != t ==> m !in s.threads[u].taken
    ensures Known(s.threads, s.mutexes[m].waiters)
  {
    var q := s.mutexes[m].waiters;
    forall i | 0 <= i < |q| ensures q[i] in s.threads { assert q[i] in q; }
  }

  lemma RunningWaitsNowhere(s: Sys, t: ThreadCb)
    requires Structure(s) && Running(s, t)
    ensures forall n :: n in s.mutexes ==> t !in s.mutexes[n].waiters
  {}

  // ------------------------------------------------------------------------------------------
  // Taking
  // ------------------------------------------------------------------------------------------

  /** A free mutex is taken. */
  ghost function TakeFree(s: Sys, t: ThreadCb, m: MutexCb): Sys
    requires t in s.threads && m in s.mutexes
  {
    s.(threads := s.threads[t := s.threads[t].(taken := s.threads[t].taken + {m})],
       mutexes := s.mutexes[m := s.mutexes[m].(owner := t, priority := NO_WAITER, hold := 1)])
  }

  lemma TakeFreeStructure(s: Sys, t: ThreadCb, m: MutexCb)
    requires Structure(s) && t in s.threads && m in s.mutexes && s.mutexes[m].owner == null
    ensures Structure(TakeFree(s, t, m)) && Closed(TakeFree(s, t, m))
    ensures forall u :: u in s.threads ==> m !in s.threads[u].taken
    ensures s.mutexes[m].waiters == []
  {}

  lemma TakeFreeOwners(s: Sys, t: ThreadCb, m: MutexCb)
    requires t in s.threads && m in s.mutexes && Closed(s) && Closed(TakeFree(s, t, m)) && OwnersBut(s, {})
    requires forall u :: u in s.threads ==> m !in s.threads[u].taken
    ensures OwnersBut(TakeFree(s, t, m), {})
  {
    var s' := TakeFree(s, t, m);
    forall u | u in s'.threads ensures OwnerOk(s', u) {
      assert OwnerOk(s, u);
    }
  }

  lemma TakeFreeKeeps(s: Sys, t: ThreadCb, m: MutexCb)
    requires Inv(s) && t in s.threads && m in s.mutexes && s.mutexes[m].owner == null
    ensures Inv(TakeFree(s, t, m))
  {
    TakeFreeStructure(s, t, m);
    TakeFreeOwners(s, t, m);
    assert QueueOk(s.threads, s.mutexes[m]);
    hide Structure, Queues, OwnersBut, QueueOk;
    QueuesSame(s, TakeFree(s, t, m));
  }

  /** The owner takes the mutex again, or gives up one of several holds. */
  ghost function SetHold(s: Sys, m: MutexCb, n: Prio): Sys
    requires m in s.mutexes
  {
    PutMutex(s, m, s.mutexes[m].(hold := n))
  }

  lemma SetHoldStructure(s: Sys, m: MutexCb, n: Prio)
    requires Structure(s) && m in s.mutexes && s.mutexes[m].owner != null && n > 0
    ensures Structure(SetHold(s, m, n)) && Closed(SetHold(s, m, n))
  {}

  lemma SetHoldKeeps(s: Sys, m: MutexCb, n: Prio)
    requires Inv(s) && m in s.mutexes && s.mutexes[m].owner != null && n > 0
    ensures Inv(SetHold(s, m, n))
  {
    var s' := SetHold(s, m, n);
    SetHoldStructure(s, m, n);
    hide Structure, Queues;
    QueuesSame(s, s');
    forall u | u in s'.threads ensures OwnerOk(s', u) {
      assert OwnerOk(s, u);
    }
  }

  /** rt_thread_suspend_to_list: `t` stops running and waits for `m`. */
  ghost function Suspend(s: Sys, t: ThreadCb, m: MutexCb): Sys
    requires t in s.threads && m in s.mutexes && Known(s.threads, s.mutexes[m].waiters)
  {
    Enqueue(PutThread(s, t, s.threads[t].(suspended := true, pending := m)), m, t)
  }

  /** The cache of `m` follows a new waiter of priority `p`. */
  ghost function Lower(s: Sys, m: MutexCb, p: Prio): Sys
    requires m in s.mutexes
  {
    if p < s.mutexes[m].priority then PutMutex(s, m, s.mutexes[m].(priority := p)) else s
  }

  lemma SuspendStructure(s: Sys, t: ThreadCb, m: MutexCb)
    requires Structure(s) && Running(s, t) && m in s.mutexes && s.mutexes[m].owner != null
    requires Known(s.threads, s.mutexes[m].waiters)
    ensures t !in s.mutexes[m].waiters
    ensures Structure(Suspend(s, t, m)) && Closed(Suspend(s, t, m))
  {
    var q, s' := s.mutexes[m].waiters, Suspend(s, t, m);
    assert t !in q;
    var ts := s.threads[t := s.threads[t].(suspended := true, pending := m)];
    InsertMembers(q, InsertPos(ts, q, s.threads[t].prio), t);
    assert s'.mutexes[m].waiters == Insert(q, InsertPos(ts, q, s.threads[t].prio), t);
    hide Insert, InsertPos, Distinct;
    assert Closed(s');
  }

  lemma LowerStructure(s: Sys, m: MutexCb, p: Prio)
    requires Structure(s) && m in s.mutexes
    ensures Structure(Lower(s, m, p)) && Closed(Lower(s, m, p))
  {}

  /** A new waiter sorted in, and the cache lowered to its priority if that is more urgent. */
  lemma InsertedQueue(ts: Threads, m: MutexView, t: ThreadCb, now: nat, ts': Threads, m': MutexView)
    requires QueueOk(ts, m) && t in ts && t !in m.waiters && (forall u :: u in m.waiters ==> ts[u].stamp < now)
    requires m'.waiters == Insert(m.waiters, InsertPos(ts, m.waiters, ts[t].prio), t)
    requires m'.priority == if ts[t].prio < m.priority then ts[t].prio else m.priority
    requires ts'.Keys == ts.Keys && forall u :: u in ts ==>
      ts'[u].prio == ts[u].prio && ts'[u].stamp == if u == t then now else ts[u].stamp
    ensures QueueOk(ts', m')
  {
    var q, k := m.waiters, InsertPos(ts, m.waiters, ts[t].prio);
    InsertSorted(ts, q, t, now);
    assert m'.waiters[0] == if k == 0 then t else q[0];
    assert q != [] && k == 0 ==> ts[t].prio < ts[q[0]].prio;
    var ts0 := ts[t := ts[t].(stamp := now)];
    assert QueueOk(ts0, m');
    hide Insert, InsertPos, Sorted, HeadPrio;
    SamePriosQueue(ts0, ts', m', m');
  }

  lemma SuspendedIs(s: Sys, t: ThreadCb, m: MutexCb)
    requires t in s.threads && m in s.mutexes && Known(s.threads, s.mutexes[m].waiters)
    ensures var s', p := Lower(Suspend(s, t, m), m, s.threads[t].prio), s.threads[t].prio;
      && s'.threads == s.threads[t := s.threads[t].(suspended := true, pending := m, stamp := s.clock)]
      && s'.mutexes.Keys == s.mutexes.Keys && (forall n :: n in s.mutexes && n != m ==> s'.mutexes[n] == s.mutexes[n])
      && s'.mutexes[m].waiters == Insert(s.mutexes[m].waiters, InsertPos(s.threads, s.mutexes[m].waiters, p), t)
      && s'.mutexes[m].priority == if p < s.mutexes[m].priority then p else s.mutexes[m].priority
  {
    hide Insert, InsertPos;
    InsertPosFrame(s.threads, s.threads[t := s.threads[t].(suspended := true, pending := m)], s.mutexes[m].waiters,
        s.threads[t].prio);
  }

  lemma SuspendQueues(s: Sys, t: ThreadCb, m: MutexCb)
    requires Structure(s) && Queues(s) && Running(s, t) && m in s.mutexes && Known(s.threads, s.mutexes[m].waiters)
    ensures Queues(Lower(Suspend(s, t, m), m, s.threads[t].prio))
  {
    assert forall u :: u in s.threads ==> s.threads[u].stamp < s.clock;
    hide Structure, Queues, Insert, QueueOk, InsertPos, Suspend, Lower;
    RunningWaitsNowhere(s, t);
    QueueOf(s, m);
    SuspendedIs(s, t, m);
    var s' := Lower(Suspend(s, t, m), m, s.threads[t].prio);
    InsertedQueue(s.threads, s.mutexes[m], t, s.clock, s'.threads, s'.mutexes[m]);
    QueuesFrame(s, s', t, m);
  }

  lemma InsertPosFrame(ts: Threads, ts': Threads, q: seq<ThreadCb>, p: Prio)
    requires Known(ts, q) && Known(ts', q) && forall i :: 0 <= i < |q| ==> ts'[q[i]].prio == ts[q[i]].prio
    ensures InsertPos(ts', q, p) == InsertPos(ts, q, p)
  {
  }

  lemma SuspendOwner(s: Sys, s': Sys, o: ThreadCb, m: MutexCb, p: Prio)
    requires Closed(s) && Closed(s') && o in s.threads && o in s'.threads && m in s.threads[o].taken && OwnerOk(s, o)
    requires s'.threads[o].taken == s.threads[o].taken && s'.threads[o].initPrio == s.threads[o].initPrio
    requires s'.threads[o].prio == s.threads[o].prio
    requires forall n :: n in s.mutexes && n != m ==> n in s'.mutexes && s'.mutexes[n].priority == s.mutexes[n].priority
    requires s'.mutexes[m].priority == if p < s.mutexes[m].priority then p else s.mutexes[m].priority
    ensures if p < s.mutexes[m].priority && p < s.threads[o].prio then IsInherited(s', o, p) else OwnerOk(s', o)
  {}

  lemma SuspendFields(s: Sys, t: ThreadCb, m: MutexCb)
    requires t in s.threads && m in s.mutexes && Known(s.threads, s.mutexes[m].waiters)
    ensures var s1 := Suspend(s, t, m);
      && s1.mutexes.Keys == s.mutexes.Keys && s1.threads.Keys == s.threads.Keys
      && s1.mutexes[m].priority == s.mutexes[m].priority && s1.mutexes[m].owner == s.mutexes[m].owner
      && forall u :: u in s.threads ==> s1.threads[u].prio == s.threads[u].prio
    ensures var s' := Lower(Suspend(s, t, m), m, s.threads[t].prio);
      && s'.threads == s.threads[t := s.threads[t].(suspended := true, pending := m, stamp := s.clock)]
      && s'.mutexes.Keys == s.mutexes.Keys && s'.mutexes == s.mutexes[m := s'.mutexes[m]]
      && s'.mutexes[m].owner == s.mutexes[m].owner && s'.mutexes[m].hold == s.mutexes[m].hold
  {
    hide Insert, InsertPos;
  }

  lemma SuspendUnsettles(s: Sys, t: ThreadCb, m: MutexCb)
    requires Settled(s) && Running(s, t) && m in s.mutexes && s.mutexes[m].owner != null
    requires Known(s.threads, s.mutexes[m].waiters)
    requires Structure(Lower(Suspend(s, t, m), m, s.threads[t].prio))
    ensures Unsettled(Lower(Suspend(s, t, m), m, s.threads[t].prio), s.mutexes[m].owner)
  {
    var s', o := Lower(Suspend(s, t, m), m, s.threads[t].prio), s.mutexes[m].owner;
    SuspendQueues(s, t, m);
    SuspendFields(s, t, m);
    OwnerTakes(s, o, m);
    OwnerKnown(s, m);
    hide Suspend, Lower;
    OwnersFrame(s, s', m, o);
    hide *;
    SettleOwner(s', o);
  }

  lemma OwnerKnown(s: Sys, m: MutexCb)
    requires Closed(s) && m in s.mutexes && s.mutexes[m].owner != null
    ensures s.mutexes[m].owner in s.threads
  {}

  lemma SuspendDue(s: Sys, t: ThreadCb, m: MutexCb)
    requires Settled(s) && t in s.threads && m in s.mutexes && s.mutexes[m].owner != null
    requires Known(s.threads, s.mutexes[m].waiters) && Closed(Lower(Suspend(s, t, m), m, s.threads[t].prio))
    ensures var s', o, p := Lower(Suspend(s, t, m), m, s.threads[t].prio), s.mutexes[m].owner, s.threads[t].prio;
      && o in s.threads && o in s'.threads && s'.threads[o].prio == s.threads[o].prio
      && if p < s.mutexes[m].priority && p < s.threads[o].prio then IsInherited(s', o, p) else OwnerOk(s', o)
  {
    var o := s.mutexes[m].owner;
    assert OwnerOk(s, o);
    OwnerTakes(s, o, m);
    hide Structure, Queues, OwnersBut, Insert, InsertPos, Settled;
    SuspendOwner(s, Lower(Suspend(s, t, m), m, s.threads[t].prio), o, m, s.threads[t].prio);
  }

  /** Lowering the cache of `m` to `p` may only unsettle its owner `o`, and only when `p` is more
      urgent than both; the priority to give the owner is then simply `p`. */
  ghost predicate Due(s: Sys, m: MutexCb, o: ThreadCb, p: Prio) {
    && m in s.mutexes && s.mutexes[m].owner == o && o in s.threads
    && var s' := Lower(s, m, p);
      && Unsettled(s', o) && s'.threads[o].prio == s.threads[o].prio
      && if p < s.mutexes[m].priority && p < s.threads[o].prio then IsInherited(s', o, p) else Settled(s')
  }

  lemma SuspendOwners(s: Sys, t: ThreadCb, m: MutexCb)
    requires Settled(s) && Running(s, t) && m in s.mutexes && s.mutexes[m].owner != null
    requires Known(s.threads, s.mutexes[m].waiters)
    ensures s.mutexes[m].owner in s.threads && Due(Suspend(s, t, m), m, s.mutexes[m].owner, s.threads[t].prio)
  {
    SuspendStructure(s, t, m);
    LowerStructure(Suspend(s, t, m), m, s.threads[t].prio);
    SuspendUnsettles(s, t, m);
    SuspendDue(s, t, m);
    SuspendFields(s, t, m);
    var s', o := Lower(Suspend(s, t, m), m, s.threads[t].prio), s.mutexes[m].owner;
    hide Structure, Queues, OwnersBut, Unsettled, Settled, Suspend, Lower, IsInherited, Known;
    if OwnerOk(s', o) {
      UnsettledIsSettled(s', o);
    }
  }

  lemma UnsettledIsSettled(s: Sys, o: ThreadCb)
    requires Unsettled(s, o) && OwnerOk(s, o)
    ensures Settled(s)
  {
    hide Structure, Queues;
  }

  lemma SettleOwner(s: Sys, o: ThreadCb)
    requires Structure(s) && Queues(s) && o in s.threads && OwnersBut(s, {o})
    ensures Unsettled(s, o) && (OwnerOk(s, o) ==> Settled(s))
  {
    hide Structure, Queues;
  }

  // ------------------------------------------------------------------------------------------
  // Releasing
  // ------------------------------------------------------------------------------------------

  /** The mutex leaves the taken list of its owner. */
  ghost function Untake(s: Sys, t: ThreadCb, m: MutexCb): Sys
    requires t in s.threads && m in s.mutexes
  {
    s.(threads := s.threads[t := s.threads[t].(taken := s.threads[t].taken - {m})],
       mutexes := s.mutexes[m := s.mutexes[m].(hold := 0)])
  }

  /** The head of the suspend list, if any, becomes the owner. */
  ghost function PassOn(s: Sys, m: MutexCb): Sys
    requires m in s.mutexes && Known(s.threads, s.mutexes[m].waiters)
  {
    var q := s.mutexes[m].waiters;
    if q == [] then
      PutMutex(s, m, MutexView(null, NO_WAITER, 0, []))
    else
      var n := q[0];
      var v := s.threads[n];
      s.(threads := s.threads[n := v.(suspended := false, pending := null, taken := v.taken + {m})],
         mutexes := s.mutexes[m := MutexView(n, HeadPrio(s.threads, q[1..]), 1, q[1..])])
  }

  /** The last release of `m` by `t`, which then runs at `p`. */
  ghost function ReleaseLast(s: Sys, t: ThreadCb, m: MutexCb, p: Prio): Sys
    requires t in s.threads && m in s.mutexes && Known(s.threads, s.mutexes[m].waiters)
  {
    PassOn(SetPrio(Untake(s, t, m), t, p), m)
  }

  lemma UntakeClosed(s: Sys, t: ThreadCb, m: MutexCb)
    requires Closed(s) && t in s.threads && m in s.mutexes
    ensures Closed(Untake(s, t, m))
  {}

  /** The shortcut of _check_and_update_prio is sound: when the releasing owner runs at another
      priority than the one cached in the mutex, losing the mutex does not change what it inherits. */
  lemma SkipIsSound(s: Sys, t: ThreadCb, m: MutexCb)
    requires Closed(s) && t in s.threads && m in s.mutexes && OwnerOk(s, t) && Closed(Untake(s, t, m))
    requires s.threads[t].prio != s.mutexes[m].priority
    ensures IsInherited(Untake(s, t, m), t, s.threads[t].prio)
  {
    var p := s.threads[t].prio;
    if p != s.threads[t].initPrio {
      var n :| n in s.threads[t].taken && p == s.mutexes[n].priority;
      assert n in Untake(s, t, m).threads[t].taken;
    }
  }

  lemma ReleaseClosed(s: Sys, t: ThreadCb, m: MutexCb, p: Prio)
    requires Closed(s) && t in s.threads && m in s.mutexes && Known(s.threads, s.mutexes[m].waiters)
    ensures Closed(ReleaseLast(s, t, m, p))
  {
    var q := s.mutexes[m].waiters;
    assert q != [] ==> forall u :: u in q[1..] ==> u in q;
  }

  lemma ReleaseWaits(s: Sys, t: ThreadCb, m: MutexCb, p: Prio)
    requires Closed(s) && WaitsMatch(s) && Running(s, t) && m in s.mutexes && Known(s.threads, s.mutexes[m].waiters)
    requires Closed(ReleaseLast(s, t, m, p))
    ensures WaitsMatch(ReleaseLast(s, t, m, p))
  {
    hide Closed;
    var q := s.mutexes[m].waiters;
    if q != [] {
      assert q[0] in q && q[0] != t;
      assert forall u :: u in q <==> u == q[0] || u in q[1..];
      assert Distinct(q[1..]) && q[0] !in q[1..];
    }
  }

  lemma ReleaseOwned(s: Sys, t: ThreadCb, m: MutexCb, p: Prio)
    requires Closed(s) && OwnersMatch(s) && m in s.mutexes && s.mutexes[m].owner == t
    requires Known(s.threads, s.mutexes[m].waiters) && Closed(ReleaseLast(s, t, m, p))
    requires s.mutexes[m].waiters != [] ==> s.mutexes[m].waiters[0] != t
    ensures OwnersMatch(ReleaseLast(s, t, m, p))
  {}

  lemma ReleaseStructure(s: Sys, t: ThreadCb, m: MutexCb, p: Prio)
    requires Structure(s) && Running(s, t) && m in s.mutexes && s.mutexes[m].owner == t
    requires Known(s.threads, s.mutexes[m].waiters)
    ensures Structure(ReleaseLast(s, t, m, p)) && Closed(ReleaseLast(s, t, m, p))
  {
    RunningWaitsNowhere(s, t);
    var q, s' := s.mutexes[m].waiters, ReleaseLast(s, t, m, p);
    assert q != [] ==> q[0] in q;
    hide Closed, WaitsMatch, OwnersMatch;
    ReleaseClosed(s, t, m, p);
    ReleaseWaits(s, t, m, p);
    ReleaseOwned(s, t, m, p);
  }

  lemma QueueOf(s: Sys, m: MutexCb)
    requires Queues(s) && m in s.mutexes
    ensures QueueOk(s.threads, s.mutexes[m])
  {}

  lemma ReleaseQueues(s: Sys, t: ThreadCb, m: MutexCb, p: Prio)
    requires Structure(s) && Queues(s) && Running(s, t) && m in s.mutexes && s.mutexes[m].owner == t
    requires Known(s.threads, s.mutexes[m].waiters)
    ensures Queues(ReleaseLast(s, t, m, p))
  {
    hide Structure, Queues;
    RunningWaitsNowhere(s, t);
    QueueOf(s, m);
    var q, s' := s.mutexes[m].waiters, ReleaseLast(s, t, m, p);
    if q != [] {
      assert Sorted(s.threads, q[1..]);
      assert forall u :: u in q[1..] ==> u in q;
      SamePriosQueue(s.threads, s'.threads, MutexView(q[0], HeadPrio(s.threads, q[1..]), 1, q[1..]), s'.mutexes[m]);
    }
    QueuesFrame(s, s', t, m);
  }

  /** The owners other than the old and the new one do not notice. */
  lemma ReleaseOthers(s: Sys, t: ThreadCb, m: MutexCb, p: Prio, u: ThreadCb)
    requires Closed(s) && u in s.threads && t in s.threads && m in s.mutexes && OwnerOk(s, u)
    requires Known(s.threads, s.mutexes[m].waiters) && Closed(ReleaseLast(s, t, m, p))
    requires u != t && m !in s.threads[u].taken && (s.mutexes[m].waiters != [] ==> u != s.mutexes[m].waiters[0])
    ensures OwnerOk(ReleaseLast(s, t, m, p), u)
  {}

  /** The new owner needs no change: everyone left in the list is at most as urgent as it is. */
  lemma ReleaseNewOwner(s: Sys, t: ThreadCb, m: MutexCb, p: Prio)
    requires Closed(s) && t in s.threads && m in s.mutexes && QueueOk(s.threads, s.mutexes[m])
      && s.mutexes[m].waiters != []
    requires OwnerOk(s, s.mutexes[m].waiters[0]) && t != s.mutexes[m].waiters[0]
      && m !in s.threads[s.mutexes[m].waiters[0]].taken
    requires Closed(ReleaseLast(s, t, m, p)) && t !in s.mutexes[m].waiters
    ensures OwnerOk(ReleaseLast(s, t, m, p), s.mutexes[m].waiters[0])
  {
    var q, s' := s.mutexes[m].waiters, ReleaseLast(s, t, m, p);
    var n := q[0];
    assert |q| > 1 ==> Before(s.threads[q[0]], s.threads[q[1]]) && q[1] in q;
    assert s.threads[n].prio <= s'.mutexes[m].priority;
    if s.threads[n].prio != s.threads[n].initPrio {
      var k :| k in s.threads[n].taken && s.threads[n].prio == s.mutexes[k].priority;
      assert k in s'.threads[n].taken;
    }
  }

  /** The old owner inherits from the mutexes it still holds. */
  lemma ReleaseOldOwner(s: Sys, t: ThreadCb, m: MutexCb, p: Prio)
    requires t in s.threads && m in s.mutexes && Known(s.threads, s.mutexes[m].waiters)
    requires Closed(ReleaseLast(s, t, m, p)) && (s.mutexes[m].waiters != [] ==> t != s.mutexes[m].waiters[0])
    requires Closed(Untake(s, t, m)) && IsInherited(Untake(s, t, m), t, p)
    ensures OwnerOk(ReleaseLast(s, t, m, p), t)
  {
    var s' := ReleaseLast(s, t, m, p);
    assert s'.threads[t].taken == s.threads[t].taken - {m} && s'.threads[t].prio == p;
    forall n | n in s'.threads[t].taken ensures s'.mutexes[n].priority == s.mutexes[n].priority {}
  }

  lemma ReleaseKeeps(s: Sys, t: ThreadCb, m: MutexCb, p: Prio)
    requires Inv(s) && Running(s, t) && m in s.mutexes && s.mutexes[m].owner == t
    requires Known(s.threads, s.mutexes[m].waiters)
    requires Closed(Untake(s, t, m)) && IsInherited(Untake(s, t, m), t, p)
    ensures Inv(ReleaseLast(s, t, m, p))
  {
    var q, s' := s.mutexes[m].waiters, ReleaseLast(s, t, m, p);
    ReleaseQueues(s, t, m, p);
    ReleaseStructure(s, t, m, p);
    OwnerTakes(s, t, m);
    RunningWaitsNowhere(s, t);
    assert QueueOk(s.threads, s.mutexes[m]) && Closed(s) && OwnersBut(s, {});
    assert q != [] ==> q[0] in q;
    hide Structure, Queues, ReleaseLast, Closed, QueueOk, IsInherited, Untake;
    forall u | u in s'.threads ensures OwnerOk(s', u) {
      ReleaseDomain(s, t, m, p);
      assert OwnerOk(s, u);
      if u == t {
        ReleaseOldOwner(s, t, m, p);
      } else if q != [] && u == q[0] {
        ReleaseNewOwner(s, t, m, p);
      } else {
        ReleaseOthers(s, t, m, p, u);
      }
    }
    ReleaseQuiet(s, t, m, p);
  }

  lemma ReleaseDomain(s: Sys, t: ThreadCb, m: MutexCb, p: Prio)
    requires t in s.threads && m in s.mutexes && Known(s.threads, s.mutexes[m].waiters)
    ensures ReleaseLast(s, t, m, p).threads.Keys == s.threads.Keys
  {}

  lemma ReleaseQuiet(s: Sys, t: ThreadCb, m: MutexCb, p: Prio)
    requires Quiet(s, {}) && t in s.threads && m in s.mutexes && Known(s.threads, s.mutexes[m].waiters)
    ensures Quiet(ReleaseLast(s, t, m, p), {})
  {}

  // ------------------------------------------------------------------------------------------
  // Giving up
  // ------------------------------------------------------------------------------------------

  /** The timer of the waiting thread `t` expires: it leaves the list and becomes ready. */
  ghost function Wake(s: Sys, t: ThreadCb): Sys
    requires Waits(s, t)
  {
    var m := s.threads[t].pending;
    RemoveMembers(s.mutexes[m].waiters, t);
    MembersKnown(s.threads, s.mutexes[m].waiters, Remove(s.mutexes[m].waiters, t));
    var q := Remove(s.mutexes[m].waiters, t);
    s.(threads := s.threads[t := s.threads[t].(suspended := false)],
       mutexes := s.mutexes[m := s.mutexes[m].(waiters := q, priority := HeadPrio(s.threads, q))])
  }

  lemma WakeStructure(s: Sys, t: ThreadCb)
    requires Structure(s) && Waits(s, t)
    ensures Structure(Wake(s, t)) && Closed(Wake(s, t))
  {
    RemoveMembers(s.mutexes[s.threads[t].pending].waiters, t);
    hide Remove, HeadPrio;
  }

  lemma WakeQueues(s: Sys, t: ThreadCb)
    requires Structure(s) && Queues(s) && Waits(s, t)
    ensures Queues(Wake(s, t))
  {
    var m, s' := s.threads[t].pending, Wake(s, t);
    var q := s.mutexes[m].waiters;
    assert QueueOk(s.threads, s.mutexes[m]);
    RemoveMembers(q, t);
    RemoveSorted(s.threads, q, t);
    assert forall n :: n in s.mutexes && n != m ==> t !in s.mutexes[n].waiters;
    assert QueueOk(s.threads, s'.mutexes[m]);
    hide Remove, Structure, Queues, Sorted, HeadPrio;
    SamePriosQueue(s.threads, s'.threads, s'.mutexes[m], s'.mutexes[m]);
    QueuesFrame(s, s', t, m);
  }

  lemma WakeHead(s: Sys, t: ThreadCb)
    requires Queues(s) && Waits(s, t)
    ensures var m := s.threads[t].pending;
      var before, after := s.mutexes[m].priority, Wake(s, t).mutexes[m].priority;
      before <= after && (before == after || before == s.threads[t].prio)
  {
    var q := s.mutexes[s.threads[t].pending].waiters;
    assert QueueOk(s.threads, s.mutexes[s.threads[t].pending]);
    RemoveMembers(q, t);
    assert |q| > 1 ==> Before(s.threads[q[0]], s.threads[q[1]]);
  }

  lemma WakeOwner(s: Sys, s': Sys, o: ThreadCb, m: MutexCb, p: Prio)
    requires Closed(s) && Closed(s') && o in s.threads && o in s'.threads && m in s.threads[o].taken && OwnerOk(s, o)
    requires s'.threads[o].taken == s.threads[o].taken && s'.threads[o].initPrio == s.threads[o].initPrio
    requires s'.threads[o].prio == s.threads[o].prio
    requires forall n :: n in s.mutexes && n != m ==> n in s'.mutexes && s'.mutexes[n].priority == s.mutexes[n].priority
    requires s.mutexes[m].priority <= s'.mutexes[m].priority
    requires s.mutexes[m].priority == s'.mutexes[m].priority || s.mutexes[m].priority == p
    ensures s.threads[o].prio != p ==> OwnerOk(s', o)
  {}

  /** Only the owner can be unsettled, and only when it ran at the priority of the leaving thread:
      the test `need_update` misses nothing. */
  lemma WakeOwners(s: Sys, t: ThreadCb)
    requires Settled(s) && Waits(s, t)
    ensures var s', o := Wake(s, t), s.mutexes[s.threads[t].pending].owner;
      && Structure(s') && Unsettled(s', o) && s'.threads[o].prio == s.threads[o].prio
      && (s.threads[o].prio != s.threads[t].prio || OwnerOk(s', o) ==> Settled(s'))
  {
    var s', m := Wake(s, t), s.threads[t].pending;
    var o := s.mutexes[m].owner;
    StructureWaits(s, t);
    WakeStructure(s, t);
    WakeQueues(s, t);
    WakeHead(s, t);
    OwnerTakes(s, o, m);
    assert OwnerOk(s, o) && Closed(s);
    hide Structure, Queues, OwnersBut, Closed, Remove, HeadPrio, IsInherited;
    OwnersFrame(s, s', m, o);
    WakeOwner(s, s', o, m, s.threads[t].prio);
    SettleOwner(s', o);
  }

  lemma WakeQuiet(s: Sys, t: ThreadCb)
    requires Quiet(s, {}) && Waits(s, t)
    ensures Quiet(Wake(s, t), {t}) && Running(Wake(s, t), t)
  {
    hide Remove, HeadPrio;
  }

  /** A walk only moves priorities, so it wakes nobody and makes nobody forget. */
  lemma ShapeQuiet(s: Sys, s': Sys, t: ThreadCb)
    requires SameShape(s, s') && Quiet(s, {t}) && Running(s, t)
    ensures Quiet(s', {t}) && Running(s', t)
  {
    forall u | u in s'.threads && u !in {t} && s'.threads[u].pending != null ensures s'.threads[u].suspended {
      assert SameThread(s.threads[u], s'.threads[u]);
    }
  }

  /** Forgetting commutes with a walk. */
  lemma ForgetShape(s: Sys, s': Sys, t: ThreadCb, q: Prio)
    requires RelaxedFrom(s, s', q) && t in s.threads
    ensures t in s'.threads && RelaxedFrom(Forget(s, t), Forget(s', t), q)
  {
    forall u | u in s.threads ensures SameThread(Forget(s, t).threads[u], Forget(s', t).threads[u]) {
      assert SameThread(s.threads[u], s'.threads[u]);
    }
  }

  lemma BlockQuiet(s: Sys, s': Sys, t: ThreadCb, m: MutexCb)
    requires Quiet(s, {}) && t in s.threads && m in s.mutexes && Known(s.threads, s.mutexes[m].waiters)
    requires SameShape(Lower(Suspend(s, t, m), m, s.threads[t].prio), s')
    ensures Quiet(s', {})
  {
    var s1 := Lower(Suspend(s, t, m), m, s.threads[t].prio);
    SuspendFields(s, t, m);
    hide Suspend, Lower;
    forall u | u in s'.threads && u !in {} && s'.threads[u].pending != null ensures s'.threads[u].suspended {
      assert SameThread(s1.threads[u], s'.threads[u]);
    }
  }

  /** The woken thread forgets what it waited for. */
  ghost function Forget(s: Sys, t: ThreadCb): Sys
    requires t in s.threads
  {
    PutThread(s, t, s.threads[t].(pending := null))
  }

  lemma ForgetStructure(s: Sys, t: ThreadCb)
    requires Structure(s) && Running(s, t)
    ensures Structure(Forget(s, t)) && Closed(Forget(s, t))
  {}

  lemma ForgetKeeps(s: Sys, t: ThreadCb)
    requires Settled(s) && Running(s, t) && Quiet(s, {t})
    ensures Inv(Forget(s, t))
  {
    var s' := Forget(s, t);
    ForgetStructure(s, t);
    hide Structure, Queues;
    QueuesSame(s, s');
    forall u | u in s'.threads ensures OwnerOk(s', u) {
      assert OwnerOk(s, u);
    }
  }

  // ------------------------------------------------------------------------------------------
  // Whole calls
  // ------------------------------------------------------------------------------------------

  /** The mutex and its owner learn of a waiter of priority `p`: the owner is told only if the waiter is
      more urgent than all others and than the owner. */
  ghost predicate Informed(s: Sys, m: MutexCb, p: Prio, s': Sys) {
    && m in s.mutexes && s.mutexes[m].owner in s.threads
    && var o := s.mutexes[m].owner;
      if p < s.mutexes[m].priority && p < s.threads[o].prio then Walk(Lower(s, m, p), o, p, s')
        else s' == Lower(s, m, p)
  }

  lemma InformedKeeps(s: Sys, m: MutexCb, o: ThreadCb, p: Prio, s': Sys)
    requires Due(s, m, o, p) && Informed(s, m, p, s')
    ensures Settled(s') && BoostedTo(Lower(s, m, p), s', p)
  {
    hide Settled, Unsettled, IsInherited, BoostedTo, Walked, Walk;
    var s1 := Lower(s, m, p);
    Untouching(s1, p);
    if p < s.mutexes[m].priority && p < s.threads[o].prio {
      WalkKeeps(s1, o, p, s');
      WalkedOneWay(s1, s', s.threads[o].prio, p);
    }
  }

  /** The priority _check_and_update_prio leaves a thread with that gave up `m`. */
  ghost predicate LeftWith(s: Sys, t: ThreadCb, m: MutexCb, p: Prio)
    requires t in s.threads && m in s.mutexes
  {
    if s.threads[t].prio == s.mutexes[m].priority then Closed(Untake(s, t, m)) && IsInherited(Untake(s, t, m), t, p)
    else p == s.threads[t].prio
  }

  lemma ReleasedKeeps(s: Sys, t: ThreadCb, m: MutexCb, p: Prio)
    requires Inv(s) && Running(s, t) && m in s.mutexes && s.mutexes[m].owner == t
      && Known(s.threads, s.mutexes[m].waiters)
    requires LeftWith(s, t, m, p)
    ensures Inv(ReleaseLast(s, t, m, p))
  {
    UntakeClosed(s, t, m);
    assert OwnerOk(s, t);
    hide Settled, IsInherited, ReleaseLast, Known;
    if s.threads[t].prio != s.mutexes[m].priority {
      SkipIsSound(s, t, m);
    }
    ReleaseKeeps(s, t, m, p);
  }

  /** The owner gives up priority `q` if it runs at it and owes it to nobody any more. */
  ghost predicate Relieved(s: Sys, o: ThreadCb, q: Prio, s': Sys) {
    o in s.threads &&
    if s.threads[o].prio == q then
      Closed(s) && exists p :: IsInherited(s, o, p) && if p == q then s' == s else Walk(s, o, p, s')
    else s' == s
  }

  /** What the call of `t` had noted before it forgot that it waited for `m`. */
  ghost function Remember(s: Sys, t: ThreadCb, m: MutexCb): Sys
    requires t in s.threads
  {
    PutThread(s, t, s.threads[t].(pending := m))
  }

  /** The timer of the waiting thread `t` expires, and `t` cleans up. */
  ghost predicate TimedOut(s: Sys, t: ThreadCb, s': Sys) {
    && Waits(s, t) && t in s'.threads && s'.threads[t].pending == null
    && var m := s.threads[t].pending;
      && s.mutexes[m].owner != null
      && Relieved(Wake(s, t), s.mutexes[m].owner, s.threads[t].prio, Remember(s', t, m))
  }
}
