/** What rt_mutex_take, rt_mutex_release and the time-out of a waiting thread make of the fields of the
    mutex and of the threads. */
module MutexEffects {
  import opened Sequences
  import opened PriorityInheritance
  import opened PriorityWalk
  import opened MutexSteps

  /** How far a call of rt_mutex_take gets before it returns or gives up the processor. */
  datatype TakeResult = Taken | Overflow | Unavailable | Blocked

  /** What Take does, by cases. */
  ghost predicate TakeEffect(s: Sys, s': Sys, t: ThreadCb, m: MutexCb, timeout: int, r: TakeResult)
    requires t in s.threads && m in s.mutexes
  {
    var v := s.mutexes[m];
    if v.owner == t then
      if v.hold < HOLD_MAX then r == Taken && s' == SetHold(s, m, v.hold + 1) else r == Overflow && s' == s
    else if v.owner == null then r == Taken && s' == TakeFree(s, t, m)
    else if timeout == 0 then r == Unavailable && s' == s
    else r == Blocked && Known(s.threads, v.waiters)
         && Informed(Suspend(s, t, m), m, s.threads[t].prio, s')
  }

  /** What Release does, by cases; `p` is the priority the thread is left with. */
  ghost predicate ReleaseEffect(s: Sys, s': Sys, t: ThreadCb, m: MutexCb, ok: bool, p: Prio)
    requires t in s.threads && m in s.mutexes
  {
    var v := s.mutexes[m];
    if v.owner != t then !ok && s' == s
    else if v.hold > 1 then ok && s' == SetHold(s, m, v.hold - 1)
    else ok && Known(s.threads, v.waiters) && LeftWith(s, t, m, p) && s' == ReleaseLast(s, t, m, p)
  }

  lemma ReleaseBy(s: Sys, s': Sys, t: ThreadCb, m: MutexCb, ok: bool, p: Prio)
    requires t in s.threads && m in s.mutexes && ok == (s.mutexes[m].owner == t)
      && Known(s.threads, s.mutexes[m].waiters)
    requires !ok ==> s' == s
    requires ok && s.mutexes[m].hold > 1 ==> s' == SetHold(s, m, s.mutexes[m].hold - 1)
    requires ok && s.mutexes[m].hold <= 1 ==> s' == ReleaseLast(s, t, m, p) && LeftWith(s, t, m, p)
    ensures ReleaseEffect(s, s', t, m, ok, p)
  {
    hide SetHold, ReleaseLast, Known, LeftWith;
  }

  // ------------------------------------------------------------------------------------------
  // The effects, field by field
  // ------------------------------------------------------------------------------------------

  /** All threads but those of `ts` and all mutexes but `m` are as they were. */
  ghost predicate Apart(s: Sys, s': Sys, ts: set<ThreadCb>, m: MutexCb) {
    && s'.threads.Keys == s.threads.Keys && s'.mutexes.Keys == s.mutexes.Keys
    && (forall u :: u in s.threads && u !in ts ==> s'.threads[u] == s.threads[u])
    && (forall n :: n in s.mutexes && n != m ==> s'.mutexes[n] == s.mutexes[n])
  }

  /** Nobody but `t` starts or stops waiting, and no mutex changes hands or is held more or less often. */
  ghost predicate SameHolds(s: Sys, s': Sys, t: ThreadCb) {
    && s'.threads.Keys == s.threads.Keys && s'.mutexes.Keys == s.mutexes.Keys
    && (forall u :: u in s.threads ==> s'.threads[u].taken == s.threads[u].taken)
    && (forall u :: u in s.threads && u != t ==>
          s'.threads[u].suspended == s.threads[u].suspended && s'.threads[u].pending == s.threads[u].pending)
    && (forall n :: n in s.mutexes ==>
          s'.mutexes[n].owner == s.mutexes[n].owner && s'.mutexes[n].hold == s.mutexes[n].hold)
  }

  lemma ShapeHolds(s: Sys, s1: Sys, s': Sys, t: ThreadCb)
    requires SameHolds(s, s1, t) && SameShape(s1, s') && t in s.threads
    ensures SameHolds(s, s', t)
    ensures s'.threads[t].suspended == s1.threads[t].suspended && s'.threads[t].pending == s1.threads[t].pending
  {
    forall u | u in s.threads ensures SameThread(s1.threads[u], s'.threads[u]) {}
    forall n | n in s.mutexes ensures SameMutex(s1.mutexes[n], s'.mutexes[n]) {}
  }

  /** The owner takes the mutex again: it is held once more, or, when the counter is at its end, not. */
  lemma NestedTake(s: Sys, s': Sys, t: ThreadCb, m: MutexCb, timeout: int, r: TakeResult)
    requires t in s.threads && m in s.mutexes && TakeEffect(s, s', t, m, timeout, r) && s.mutexes[m].owner == t
    ensures Apart(s, s', {}, m)
    ensures if s.mutexes[m].hold < HOLD_MAX then
              r == Taken && s'.mutexes[m] == s.mutexes[m].(hold := s.mutexes[m].hold + 1)
            else r == Overflow && s'.mutexes[m] == s.mutexes[m]
  {}

  /** A free mutex is then held once, by the thread that took it. */
  lemma FirstTake(s: Sys, s': Sys, t: ThreadCb, m: MutexCb, timeout: int, r: TakeResult)
    requires Inv(s) && t in s.threads && m in s.mutexes && TakeEffect(s, s', t, m, timeout, r)
    requires s.mutexes[m].owner == null
    ensures r == Taken && Apart(s, s', {t}, m) && s'.mutexes[m] == MutexView(t, NO_WAITER, 1, [])
    ensures s'.threads[t] == s.threads[t].(taken := s.threads[t].taken + {m})
  {
    assert s.mutexes[m].waiters == [];
  }

  /** A thread that finds a mutex of another waits for it. */
  lemma BlockedTake(s: Sys, s': Sys, t: ThreadCb, m: MutexCb, timeout: int, r: TakeResult)
    requires Inv(s) && Inv(s') && Running(s, t) && m in s.mutexes && TakeEffect(s, s', t, m, timeout, r)
    requires s.mutexes[m].owner != null && s.mutexes[m].owner != t && timeout != 0
    requires Known(s.threads, s.mutexes[m].waiters)
    requires SameShape(Lower(Suspend(s, t, m), m, s.threads[t].prio), s')
    ensures r == Blocked && SameHolds(s, s', t) && s'.threads[t].suspended && s'.threads[t].pending == m
    ensures forall u :: u in s'.mutexes[m].waiters <==> u == t || u in s.mutexes[m].waiters
  {
    hide Lower, Suspend, Informed, SameShape, Inv, SameHolds;
    SuspendHolds(s, t, m);
    ShapeHolds(s, Lower(Suspend(s, t, m), m, s.threads[t].prio), s', t);
    WaitersChange(s, s', t, m);
  }

  lemma SuspendHolds(s: Sys, t: ThreadCb, m: MutexCb)
    requires t in s.threads && m in s.mutexes && Known(s.threads, s.mutexes[m].waiters)
    ensures m in Suspend(s, t, m).mutexes
    ensures var s1 := Lower(Suspend(s, t, m), m, s.threads[t].prio);
      SameHolds(s, s1, t) && s1.threads[t].suspended && s1.threads[t].pending == m
  {
    SuspendFields(s, t, m);
    hide Lower, Suspend;
  }

  /** Only `t` starts or stops waiting for `m`. */
  lemma WaitersChange(s: Sys, s': Sys, t: ThreadCb, m: MutexCb)
    requires Inv(s) && Inv(s') && SameHolds(s, s', t) && m in s.mutexes && t in s.threads
    ensures forall u :: u != t ==> (u in s'.mutexes[m].waiters <==> u in s.mutexes[m].waiters)
    ensures t in s'.mutexes[m].waiters <==> s'.threads[t].suspended && s'.threads[t].pending == m
    ensures t in s.mutexes[m].waiters <==> s.threads[t].suspended && s.threads[t].pending == m
  {
    hide Inv;
    WaitersAre(s, m);
    WaitersAre(s', m);
  }

  /** What Take does, field by field. */
  lemma TakeSeen(s: Sys, s': Sys, t: ThreadCb, m: MutexCb, timeout: int, r: TakeResult)
    requires Inv(s) && Inv(s') && Running(s, t) && m in s.mutexes && TakeEffect(s, s', t, m, timeout, r)
    requires r == Blocked ==>
      Known(s.threads, s.mutexes[m].waiters) && m in Suspend(s, t, m).mutexes
      && BoostedTo(Lower(Suspend(s, t, m), m, s.threads[t].prio), s', s.threads[t].prio)
    ensures var v := s.mutexes[m];
      && (v.owner == t && v.hold < HOLD_MAX ==>
            r == Taken && Apart(s, s', {}, m) && s'.mutexes[m] == v.(hold := v.hold + 1))
      && (v.owner == t && v.hold == HOLD_MAX ==> r == Overflow && s' == s)
      && (v.owner == null ==>
            && r == Taken && Apart(s, s', {t}, m) && s'.mutexes[m] == MutexView(t, NO_WAITER, 1, [])
            && s'.threads[t] == s.threads[t].(taken := s.threads[t].taken + {m}))
      && (v.owner != null && v.owner != t && timeout == 0 ==> r == Unavailable && s' == s)
      && (v.owner != null && v.owner != t && timeout != 0 ==>
            && r == Blocked && SameHolds(s, s', t) && s'.threads[t].suspended && s'.threads[t].pending == m
            && forall u :: u in s'.mutexes[m].waiters <==> u == t || u in v.waiters)
  {
    hide Inv, SetHold, TakeFree, Suspend, Lower, Informed, Known, SameShape, Apart, SameHolds;
    if s.mutexes[m].owner == t {
      NestedTake(s, s', t, m, timeout, r);
    } else if s.mutexes[m].owner == null {
      FirstTake(s, s', t, m, timeout, r);
    } else if timeout != 0 {
      BlockedTake(s, s', t, m, timeout, r);
    }
  }

  lemma WaitersAre(s: Sys, m: MutexCb)
    requires Inv(s) && m in s.mutexes
    ensures forall u :: u in s.mutexes[m].waiters <==>
      u in s.threads && s.threads[u].suspended && s.threads[u].pending == m
  {}

  /** Of several holds one is given up; all else stays. */
  lemma NestedRelease(s: Sys, s': Sys, t: ThreadCb, m: MutexCb, ok: bool, p: Prio)
    requires t in s.threads && m in s.mutexes && ReleaseEffect(s, s', t, m, ok, p)
    requires s.mutexes[m].owner == t && s.mutexes[m].hold > 1
    ensures ok && Apart(s, s', {}, m) && s'.mutexes[m] == s.mutexes[m].(hold := s.mutexes[m].hold - 1)
  {}

  /** With the last hold a mutex nobody waits for becomes free. */
  lemma LastRelease(s: Sys, s': Sys, t: ThreadCb, m: MutexCb, ok: bool, p: Prio)
    requires t in s.threads && m in s.mutexes && ReleaseEffect(s, s', t, m, ok, p)
    requires s.mutexes[m].owner == t && s.mutexes[m].hold == 1 && s.mutexes[m].waiters == []
    ensures ok && Apart(s, s', {t}, m) && s'.mutexes[m] == MutexView(null, NO_WAITER, 0, [])
    ensures s'.threads.Keys == s.threads.Keys
    ensures s'.threads[t] == s.threads[t].(taken := s.threads[t].taken - {m}, prio := s'.threads[t].prio)
  {
    hide LeftWith;
  }

  /** One somebody waits for goes to the first waiter, which then holds it once and waits no longer. */
  lemma HandOver(s: Sys, s': Sys, t: ThreadCb, m: MutexCb, ok: bool, p: Prio)
    requires Inv(s) && Running(s, t) && m in s.mutexes && ReleaseEffect(s, s', t, m, ok, p)
    requires s.mutexes[m].owner == t && s.mutexes[m].hold == 1 && s.mutexes[m].waiters != []
    ensures var q := s.mutexes[m].waiters;
      && ok && q[0] != t && q[0] in s.threads && Apart(s, s', {t, q[0]}, m) && (|q| > 1 ==> q[1] in s.threads)
      && s'.mutexes[m] == MutexView(q[0], if |q| > 1 then s.threads[q[1]].prio else NO_WAITER, 1, q[1..])
      && s'.threads[q[0]] ==
           s.threads[q[0]].(suspended := false, pending := null, taken := s.threads[q[0]].taken + {m})
    ensures s'.threads.Keys == s.threads.Keys
    ensures s'.threads[t] == s.threads[t].(taken := s.threads[t].taken - {m}, prio := s'.threads[t].prio)
  {
    hide Inv, LeftWith, ReleaseLast, Known;
    FirstWaiters(s, t, m);
    HandedOver(s, t, m, p);
  }

  lemma HandedOver(s: Sys, t: ThreadCb, m: MutexCb, p: Prio)
    requires t in s.threads && m in s.mutexes && Known(s.threads, s.mutexes[m].waiters)
    requires s.mutexes[m].waiters != [] && t != s.mutexes[m].waiters[0]
    requires |s.mutexes[m].waiters| > 1 ==> t != s.mutexes[m].waiters[1]
    ensures var q, s' := s.mutexes[m].waiters, ReleaseLast(s, t, m, p);
      && q[0] in s.threads && Apart(s, s', {t, q[0]}, m) && (|q| > 1 ==> q[1] in s.threads)
      && s'.mutexes[m] == MutexView(q[0], if |q| > 1 then s.threads[q[1]].prio else NO_WAITER, 1, q[1..])
      && s'.threads[q[0]] ==
           s.threads[q[0]].(suspended := false, pending := null, taken := s.threads[q[0]].taken + {m})
      && s'.threads[t] == s.threads[t].(taken := s.threads[t].taken - {m}, prio := p)
  {
    var q, s1 := s.mutexes[m].waiters, SetPrio(Untake(s, t, m), t, p);
    assert s1.threads == s.threads[t := s.threads[t].(taken := s.threads[t].taken - {m}, prio := p)];
    assert s1.mutexes == s.mutexes[m := s.mutexes[m].(hold := 0)];
    assert ReleaseLast(s, t, m, p) == PassOn(s1, m);
    hide Untake, SetPrio, PassOn, ReleaseLast;
    PassedOn(s1, m);
  }

  lemma PassedOn(s: Sys, m: MutexCb)
    requires m in s.mutexes && Known(s.threads, s.mutexes[m].waiters) && s.mutexes[m].waiters != []
    ensures var q, s' := s.mutexes[m].waiters, PassOn(s, m);
      && q[0] in s.threads && (|q| > 1 ==> q[1] in s.threads)
      && s' == Sys(
           s.threads[q[0] :=
             s.threads[q[0]].(suspended := false, pending := null, taken := s.threads[q[0]].taken + {m})],
           s.mutexes[m := MutexView(q[0], if |q| > 1 then s.threads[q[1]].prio else NO_WAITER, 1, q[1..])],
           s.clock)
  {
    var q := s.mutexes[m].waiters;
    assert q[0] in s.threads && (|q| > 1 ==> q[1..][0] == q[1]);
  }

  lemma FirstWaiters(s: Sys, t: ThreadCb, m: MutexCb)
    requires Inv(s) && Running(s, t) && m in s.mutexes
    ensures var q := s.mutexes[m].waiters;
      && (q != [] ==> q[0] != t && q[0] in s.threads)
      && (|q| > 1 ==> q[1] != t && q[1] != q[0] && q[1] in s.threads && q[1..][0] == q[1])
  {
    var q := s.mutexes[m].waiters;
    assert q != [] ==> q[0] in q;
    assert |q| > 1 ==> q[1] in q;
    assert Distinct(q);
  }

  /** What Release does, field by field. */
  lemma ReleaseSeen(s: Sys, s': Sys, t: ThreadCb, m: MutexCb, ok: bool, p: Prio)
    requires Inv(s) && Running(s, t) && m in s.mutexes && ReleaseEffect(s, s', t, m, ok, p)
    ensures s.mutexes[m].owner != t ==> !ok && s' == s
    ensures s.mutexes[m].owner == t && s.mutexes[m].hold != 1 ==>
      && ok && Apart(s, s', {}, m) && s'.mutexes[m] == s.mutexes[m].(hold := s.mutexes[m].hold - 1)
      && s'.mutexes[m].hold > 0
    ensures s.mutexes[m].owner == t && s.mutexes[m].hold == 1 ==>
      && ok && s'.threads.Keys == s.threads.Keys
      && s'.threads[t] == s.threads[t].(taken := s.threads[t].taken - {m}, prio := s'.threads[t].prio)
    ensures s.mutexes[m].owner == t && s.mutexes[m].hold == 1 && s.mutexes[m].waiters == [] ==>
      Apart(s, s', {t}, m) && s'.mutexes[m] == MutexView(null, NO_WAITER, 0, [])
    ensures s.mutexes[m].owner == t && s.mutexes[m].hold == 1 && s.mutexes[m].waiters != [] ==>
      var q := s.mutexes[m].waiters;
      && q[0] != t && q[0] in s.threads && Apart(s, s', {t, q[0]}, m) && (|q| > 1 ==> q[1] in s.threads)
      && s'.mutexes[m] == MutexView(q[0], if |q| > 1 then s.threads[q[1]].prio else NO_WAITER, 1, q[1..])
      && s'.threads[q[0]] ==
           s.threads[q[0]].(suspended := false, pending := null, taken := s.threads[q[0]].taken + {m})
  {
    hide ReleaseLast, SetHold, Known, LeftWith, Apart;
    if s.mutexes[m].owner == t {
      OwnedIsHeld(s, m);
      hide Inv;
      if s.mutexes[m].hold > 1 {
        NestedRelease(s, s', t, m, ok, p);
      } else if s.mutexes[m].waiters == [] {
        LastRelease(s, s', t, m, ok, p);
      } else {
        HandOver(s, s', t, m, ok, p);
      }
    }
  }

  lemma OwnedIsHeld(s: Sys, m: MutexCb)
    requires Inv(s) && m in s.mutexes && s.mutexes[m].owner != null
    ensures s.mutexes[m].hold >= 1
  {}

  /** A thread whose time is up waits no longer and has forgotten the mutex; no mutex changes hands. */
  lemma TimeoutSeen(s: Sys, s': Sys, t: ThreadCb)
    requires Inv(s) && Inv(s') && TimedOut(s, t, s') && Waits(s, t)
    requires SameShape(Forget(Wake(s, t), t), s')
    ensures SameHolds(s, s', t) && !s'.threads[t].suspended && s'.threads[t].pending == null
    ensures var m := s.threads[t].pending;
      m in s'.mutexes && m in s.mutexes
      && forall u :: u in s'.mutexes[m].waiters <==> u != t && u in s.mutexes[m].waiters
  {
    hide Wake, Forget, SameShape, TimedOut, Inv, SameHolds;
    WakeHolds(s, t);
    ShapeHolds(s, Forget(Wake(s, t), t), s', t);
    WaitersChange(s, s', t, s.threads[t].pending);
  }

  lemma WakeHolds(s: Sys, t: ThreadCb)
    requires Waits(s, t)
    ensures t in Wake(s, t).threads
    ensures var s1 := Forget(Wake(s, t), t);
      SameHolds(s, s1, t) && !s1.threads[t].suspended && s1.threads[t].pending == null
  {
    hide Remove, HeadPrio;
  }
}
