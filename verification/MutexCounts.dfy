/** How often a mutex is held, over whole runs: after as many nested takes as you like, the owner keeps the
    mutex until it has released it once more often than it took it again, and then loses it. */
module MutexCounts {
  import opened PriorityInheritance
  import opened PriorityWalk
  import opened MutexSteps
  import opened MutexEffects
  import opened MutexRuns

  /** What one call means for the mutex `m` and the thread `t`. */
  ghost predicate Counted(v: MutexView, c: Call, v': MutexView, t: ThreadCb, m: MutexCb) {
    && (v.owner == t && IsTake(c, t, m) ==>
          v'.owner == t && v'.hold == if v.hold < HOLD_MAX then v.hold + 1 else v.hold)
    && (v.owner == t && c == Release(t, m) ==>
          if v.hold == 1 then v'.owner != t && v'.owner == if v.waiters == [] then null else v.waiters[0]
          else v'.owner == t && v'.hold == v.hold - 1)
    && (v.owner == t && !IsTake(c, t, m) && c != Release(t, m) ==>
          v'.owner == t && v'.hold == v.hold)
    && (v.owner != t && v'.owner == t ==> v'.hold == 1)
  }

  lemma TakeCounts(s: Sys, s': Sys, c: Call, r: TakeResult, t: ThreadCb, m: MutexCb)
    requires c.Take? && Inv(s) && Running(s, c.t) && c.m in s.mutexes && m in s.mutexes
    requires TakeEffect(s, s', c.t, c.m, c.timeout, r)
    ensures m in s'.mutexes && Counted(s.mutexes[m], c, s'.mutexes[m], t, m)
  {
    hide Inv, Running, BoostedTo, SetHold, TakeFree, Suspend, Lower, Informed, Known, Counted;
    TakeKeeps(s, s', c.t, c.m, c.timeout, r);
    if r == Blocked {
      BlockedKeeps(s, s', c.t, c.m);
    }
    hide TakeEffect;
    TakeSeen(s, s', c.t, c.m, c.timeout, r);
    TakeCounted(s, s', c, t, m);
  }

  lemma TakeCounted(s: Sys, s': Sys, c: Call, t: ThreadCb, m: MutexCb)
    requires c.Take? && c.m in s.mutexes && m in s.mutexes
    requires var v := s.mutexes[c.m];
      || (v.owner == c.t && Apart(s, s', {}, c.m)
          && s'.mutexes[c.m] == v.(hold := if v.hold < HOLD_MAX then v.hold + 1 else v.hold))
      || (v.owner == null && Apart(s, s', {c.t}, c.m)
          && s'.mutexes[c.m].owner == c.t && s'.mutexes[c.m].hold == 1)
      || (v.owner != c.t && (s' == s || SameHolds(s, s', c.t)))
    ensures m in s'.mutexes && Counted(s.mutexes[m], c, s'.mutexes[m], t, m)
  {
    assert m in s'.mutexes;
  }

  lemma ReleaseCounts(s: Sys, s': Sys, c: Call, ok: bool, p: Prio, t: ThreadCb, m: MutexCb)
    requires c.Release? && Inv(s) && Running(s, c.t) && c.m in s.mutexes && m in s.mutexes
    requires ReleaseEffect(s, s', c.t, c.m, ok, p)
    ensures m in s'.mutexes && Counted(s.mutexes[m], c, s'.mutexes[m], t, m)
  {
    hide Inv, Running, ReleaseEffect;
    ReleaseSeen(s, s', c.t, c.m, ok, p);
    assert m in s'.mutexes;
  }

  lemma StepCounts(s: Sys, c: Call, s': Sys, t: ThreadCb, m: MutexCb)
    requires Inv(s) && Step(s, c, s') && m in s.mutexes
    ensures m in s'.mutexes && Counted(s.mutexes[m], c, s'.mutexes[m], t, m)
  {
    hide Inv, TakeEffect, ReleaseEffect, Wake, Forget, Relieved, RelaxedFrom, SameShape;
    match c
    case Take(_, _, _) =>
      var r :| TakeEffect(s, s', c.t, c.m, c.timeout, r);
      TakeCounts(s, s', c, r, t, m);
    case Release(_, _) =>
      var ok, p :| ReleaseEffect(s, s', c.t, c.m, ok, p);
      ReleaseCounts(s, s', c, ok, p, t, m);
    case Timeout(u) =>
      TimeoutKeeps(s, u, s');
      WakeHolds(s, u);
      RelaxedIsShape(Forget(Wake(s, u), u), s', s.threads[u].prio);
      TimeoutSeen(s, s', u);
  }

  lemma RelaxedIsShape(s: Sys, s': Sys, q: Prio)
    requires RelaxedFrom(s, s', q)
    ensures SameShape(s, s')
  {}

  // ------------------------------------------------------------------------------------------
  // Runs
  // ------------------------------------------------------------------------------------------

  /** The number of times `t` takes `m` again, when it held it once before: a take that finds the counter
      full is refused. */
  ghost function Takes(calls: seq<Call>, t: ThreadCb, m: MutexCb): nat {
    if calls == [] then 0
    else
      var c, before := calls[|calls| - 1], calls[..|calls| - 1];
      Takes(before, t, m)
      + if IsTake(c, t, m) && 1 + Takes(before, t, m) - Releases(before, t, m) < HOLD_MAX then 1 else 0
  }

  predicate IsTake(c: Call, t: ThreadCb, m: MutexCb) {
    c.Take? && c.t == t && c.m == m
  }

  ghost function Releases(calls: seq<Call>, t: ThreadCb, m: MutexCb): nat {
    if calls == [] then 0
    else
      Releases(calls[..|calls| - 1], t, m) + if calls[|calls| - 1] == Release(t, m) then 1 else 0
  }

  /** The thread got the mutex in the call before state `i`. */
  ghost predicate GotIt(states: seq<Sys>, calls: seq<Call>, i: nat, t: ThreadCb, m: MutexCb) {
    && IsRun(states, calls) && 0 < i < |states| && m in states[i - 1].mutexes && m in states[i].mutexes
    && states[i - 1].mutexes[m].owner != t && states[i].mutexes[m].owner == t
  }

  lemma OneCallMore(calls: seq<Call>, i: nat, j: nat, t: ThreadCb, m: MutexCb)
    requires i <= j < |calls|
    ensures Takes(calls[i..j + 1], t, m) ==
      Takes(calls[i..j], t, m)
      + if IsTake(calls[j], t, m) && 1 + Takes(calls[i..j], t, m) - Releases(calls[i..j], t, m) < HOLD_MAX then 1 else 0
    ensures Releases(calls[i..j + 1], t, m) == Releases(calls[i..j], t, m) + if calls[j] == Release(t, m) then 1 else 0
  {
    assert calls[i..j + 1][..j - i] == calls[i..j];
  }

  /** As long as the thread has not released the mutex more often than it took it again, it owns the mutex,
      and the counter is one more than the difference. */
  lemma {:induction false} HoldsAreCounted(
      states: seq<Sys>, calls: seq<Call>, i: nat, j: nat, t: ThreadCb, m: MutexCb)
    requires GotIt(states, calls, i, t, m) && i <= j < |states|
    requires forall k :: i <= k <= j ==> Releases(calls[i..k], t, m) <= Takes(calls[i..k], t, m)
    ensures m in states[j].mutexes && states[j].mutexes[m].owner == t
    ensures states[j].mutexes[m].hold == 1 + Takes(calls[i..j], t, m) - Releases(calls[i..j], t, m)
    decreases j
  {
    hide Inv, Step, Initial;
    if i == j {
      RunKeeps(states, calls, i - 1);
      StepCounts(states[i - 1], calls[i - 1], states[i], t, m);
    } else {
      HoldsAreCounted(states, calls, i, j - 1, t, m);
      RunKeeps(states, calls, j - 1);
      StepCounts(states[j - 1], calls[j - 1], states[j], t, m);
      OneCallMore(calls, i, j - 1, t, m);
      assert Releases(calls[i..j], t, m) <= Takes(calls[i..j], t, m);
    }
  }

  /** With k takes, counting the one that got it the mutex, exactly the k-th release gives the mutex away:
      to the first waiter, if there is one. */
  lemma LastReleaseGivesAway(states: seq<Sys>, calls: seq<Call>, i: nat, j: nat, t: ThreadCb, m: MutexCb)
    requires GotIt(states, calls, i, t, m) && i <= j < |calls|
    requires forall k :: i <= k <= j ==> Releases(calls[i..k], t, m) <= Takes(calls[i..k], t, m)
    ensures m in states[j].mutexes && m in states[j + 1].mutexes
    ensures states[j + 1].mutexes[m].owner == t <==>
      Releases(calls[i..j + 1], t, m) <= Takes(calls[i..j + 1], t, m)
    ensures Releases(calls[i..j + 1], t, m) > Takes(calls[i..j + 1], t, m) ==>
      var q := states[j].mutexes[m].waiters;
      && calls[j] == Release(t, m) && states[j + 1].mutexes[m].owner == (if q == [] then null else q[0])
      && states[j + 1].mutexes[m].owner != t
  {
    hide Inv, Step, Initial;
    HoldsAreCounted(states, calls, i, j, t, m);
    RunKeeps(states, calls, j);
    StepCounts(states[j], calls[j], states[j + 1], t, m);
    OneCallMore(calls, i, j, t, m);
  }
}
