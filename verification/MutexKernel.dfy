/** The mutex operations of ipc.c on thread and mutex control blocks.

    Each method is written as the source writes it, field by field; `sys` repeats the fields as one
    value, and what an operation keeps is stated on that value. */
module MutexKernel {
  import opened Sequences
  import opened PriorityInheritance
  import opened PriorityWalk
  import opened MutexSteps
  import opened MutexEffects

  class Kernel {
    ghost const threads: set<ThreadCb>
    ghost const mutexes: set<MutexCb>
    /** The fields of all control blocks, as one value. */
    ghost var sys: Sys

    ghost predicate Valid()
      reads this, threads, mutexes
    {
      && sys.threads.Keys == threads && sys.mutexes.Keys == mutexes
      && (forall t {:trigger t.initPrio} :: t in threads ==> t.initPrio == sys.threads[t].initPrio)
      && (forall t {:trigger t.prio} :: t in threads ==> t.prio == sys.threads[t].prio)
      && (forall t {:trigger t.suspended} :: t in threads ==> t.suspended == sys.threads[t].suspended)
      && (forall t {:trigger t.pending} :: t in threads ==> t.pending == sys.threads[t].pending)
      && (forall t {:trigger t.taken} :: t in threads ==> t.taken == sys.threads[t].taken)
      && (forall m {:trigger m.owner} :: m in mutexes ==> m.owner == sys.mutexes[m].owner)
      && (forall m {:trigger m.priority} :: m in mutexes ==> m.priority == sys.mutexes[m].priority)
      && (forall m {:trigger m.hold} :: m in mutexes ==> m.hold == sys.mutexes[m].hold)
      && (forall m {:trigger m.waiters} :: m in mutexes ==> m.waiters == sys.mutexes[m].waiters)
    }

    /** Threads and mutexes as their own constructors leave them. */
    constructor (threads: set<ThreadCb>, mutexes: set<MutexCb>)
      requires forall t :: t in threads ==> t.prio == t.initPrio && !t.suspended && t.pending == null && t.taken == {}
      requires forall m :: m in mutexes ==> m.owner == null && m.priority == NO_WAITER && m.hold == 0 && m.waiters == []
      ensures Valid() && this.threads == threads && this.mutexes == mutexes && sys == FreshSys(threads, mutexes)
    {
      this.threads, this.mutexes := threads, mutexes;
      sys := FreshSys(threads, mutexes);
    }

    /** rt_sched_thread_change_priority, as far as the mutex code sees it. */
    method ChangePriority(t: ThreadCb, p: Prio)
      requires Valid() && t in sys.threads
      modifies this, threads
      ensures Valid() && sys == SetPrio(old(sys), t, p)
    {
      t.prio := p;
      sys := SetPrio(sys, t, p);
    }

    /** rt_list_remove of a thread standing in the suspend list of `m`. */
    method ListRemove(m: MutexCb, t: ThreadCb)
      requires Valid() && m in sys.mutexes && t in sys.mutexes[m].waiters && Distinct(sys.mutexes[m].waiters)
      modifies this, mutexes
      ensures Valid() && sys == Drop(old(sys), m, t)
    {
      var j :| 0 <= j < |m.waiters| && m.waiters[j] == t;
      m.waiters := m.waiters[..j] + m.waiters[j + 1..];
      sys := Drop(sys, m, t);
    }

    /** rt_susp_list_enqueue with RT_IPC_FLAG_PRIO. */
    method SuspListEnqueue(m: MutexCb, t: ThreadCb)
      requires Valid() && m in sys.mutexes && t in sys.threads && Known(sys.threads, sys.mutexes[m].waiters)
      modifies this, mutexes
      ensures Valid() && sys == Enqueue(old(sys), m, t)
    {
      var n := 0;
      while n < |m.waiters|
        invariant n <= |m.waiters|
        invariant forall i :: 0 <= i < n ==> m.waiters[i].prio <= t.prio
      {
        var sthread := m.waiters[n];
        if t.prio < sthread.prio {
          break;
        }
        n := n + 1;
      }
      m.waiters := m.waiters[..n] + [t] + m.waiters[n..];
      sys := Enqueue(sys, m, t);
    }

    /** _mutex_update_priority */
    method MutexUpdatePriority(m: MutexCb)
      requires Valid() && m in sys.mutexes && Known(sys.threads, sys.mutexes[m].waiters)
      modifies this, mutexes
      ensures Valid() && sys == Recache(old(sys), m)
    {
      if m.waiters != [] {
        var thread := m.waiters[0];
        m.priority := thread.prio;
      } else {
        m.priority := NO_WAITER;
      }
      sys := Recache(sys, m);
    }

    /** _thread_get_mutex_priority, without priority ceilings. */
    method GetMutexPriority(t: ThreadCb) returns (priority: Prio)
      requires Valid() && t in sys.threads && Closed(sys)
      ensures IsInherited(sys, t, priority)
    {
      priority := t.initPrio;
      var rest := t.taken;
      ghost var best: MutexCb? := null;
      while rest != {}
        invariant rest <= t.taken && priority <= t.initPrio
        invariant forall m :: m in t.taken - rest ==> m in mutexes && priority <= m.priority
        invariant best == null ==> priority == t.initPrio
        invariant best != null ==> best in t.taken && best in mutexes && priority == best.priority
      {
        var mutex :| mutex in rest;
        rest := rest - {mutex};
        assert mutex in sys.threads[t].taken;
        if priority > mutex.priority {
          priority := mutex.priority;
          best := mutex;
        }
      }
      assert best != null ==> best in sys.threads[t].taken;
    }

    /** rt_sched_thread_get_curr_prio */
    method GetCurrPrio(t: ThreadCb) returns (p: Prio)
      requires Valid() && t in sys.threads
      ensures p == sys.threads[t].prio
    {
      p := t.prio;
    }

    /** The waiting thread is sorted into its new place and the cache of its mutex refreshed. */
    method Reposition(thread: ThreadCb) returns (owner: ThreadCb?)
      requires Valid() && Waits(sys, thread)
      modifies this, threads, mutexes
      ensures Valid() && owner == old(sys).mutexes[old(sys).threads[thread].pending].owner
        && sys == Requeue(old(sys), thread)
    {
      ghost var s := sys;
      var pendingMutex := thread.pending;
      owner := pendingMutex.owner;
      RequeueIsRecache(s, thread);
      hide Requeue, Enqueue, Recache, Known;
      ListRemove(pendingMutex, thread);
      assert thread in threads;
      SuspListEnqueue(pendingMutex, thread);
      MutexUpdatePriority(pendingMutex);
    }

    /** Reposition a waiting thread and look up what the owner of its mutex should run at. */
    method OwnerDue(thread: ThreadCb) returns (owner: ThreadCb, due: Prio, current: Prio)
      requires Valid() && Waits(sys, thread) && Closed(Requeue(sys, thread))
      requires sys.mutexes[sys.threads[thread].pending].owner != null
      requires sys.mutexes[sys.threads[thread].pending].owner in Requeue(sys, thread).threads
      modifies this, threads, mutexes
      ensures Valid() && sys == Requeue(old(sys), thread)
      ensures owner == old(sys).mutexes[old(sys).threads[thread].pending].owner
      ensures current == sys.threads[owner].prio && IsInherited(sys, owner, due)
    {
      hide Valid, Requeue, Closed, IsInherited, Waits;
      owner := Reposition(thread);
      due := GetMutexPriority(owner);
      current := GetCurrPrio(owner);
    }

    /** The body of the loop of _thread_update_priority for a thread that waits for a mutex: the
        owner is changed and is next, or nothing more has to change. */
    method UpdateOwner(thread: ThreadCb, ghost s0: Sys, ghost q0: Prio, ghost p0: Prio, ghost q: Prio)
      returns (ret: bool, next: ThreadCb, ghost q': Prio, ghost p: Prio)
      requires Valid() && Carrying(s0, sys, q0, p0, thread, q) && Waits(sys, thread)
      modifies this, threads, mutexes
      ensures Valid() && Turned(s0, old(sys), sys, q0, p0, ret, next, q') && Turn(old(sys), thread, ret, next, p, sys)
    {
      ghost var s := sys;
      WalkTurn(s0, s, q0, p0, thread, q);
      hide Valid, Carrying, Requeue, Waits, Turned, IsInherited;
      var owner, due, current := OwnerDue(thread);
      next, q', p, ret := owner, current, due, due != current;
      if due != current {
        WalkAdvances(s0, s, q0, p0, thread, q, owner, due);
        ChangePriority(owner, due);
      } else {
        WalkStops(s0, s, q0, p0, thread, owner);
      }
    }

    /** _thread_update_priority: change the priority of `target` and carry the change along the
        chain of owners.  No assumption on cycles is needed: no thread is changed twice. */
    method ThreadUpdatePriority(target: ThreadCb, priority: Prio)
      requires Valid() && Unsettled(sys, target) && IsInherited(sys, target, priority) && priority != target.prio
      modifies this, threads, mutexes
      ensures Valid() && Settled(sys)
      ensures Walked(old(sys), sys, old(sys).threads[target].prio, priority)
      ensures Walk(old(sys), target, priority, sys)
    {
      ghost var s0, q0, q := sys, target.prio, target.prio;
      ghost var s1, k: nat := SetPrio(sys, target, priority), 0;
      var thread := target;
      var ret := true;
      OwnerAdjusts(sys, thread, priority);
      WalkStarts(sys, thread, priority);
      ChangePriority(thread, priority);
      assert Carrying(s0, sys, q0, priority, thread, q);
      hide Carrying, Settled, Walked, Untouched, WalksTo, Turns, Turn;
      while ret && thread.suspended
        invariant Valid() && thread in threads
        invariant if ret then Carrying(s0, sys, q0, priority, thread, q)
          else Settled(sys) && Walked(s0, sys, q0, priority)
        invariant if ret then Turns(s1, target, k, sys, thread) else WalksTo(s1, target, k, sys)
        decreases Untouched(sys, priority, q0), ret
      {
        if thread.pending != null {
          CarryWaits(s0, sys, q0, priority, thread, q);
          ghost var s, t, p := sys, thread, priority;
          ret, thread, q, p := UpdateOwner(thread, s0, q0, priority, q);
          if ret {
            TurnsAppend(s1, target, k, s, t, thread, p, sys);
            k := k + 1;
          } else {
            TurnStops(s, t, thread, p, sys);
            TurnsEnd(s1, target, k, s, t, sys);
          }
        } else {
          CarryEnds(s0, sys, q0, priority, thread, q);
          NoTurn(sys, thread);
          TurnsEnd(s1, target, k, sys, thread, sys);
          ret := false;
        }
      }
      if ret {
        CarryEnds(s0, sys, q0, priority, thread, q);
        NoTurn(sys, thread);
        TurnsEnd(s1, target, k, sys, thread, sys);
      }
    }

    // ----------------------------------------------------------------------------------------
    // rt_mutex_take
    // ----------------------------------------------------------------------------------------

    method TakeFreeMutex(thread: ThreadCb, mutex: MutexCb)
      requires Valid() && thread in sys.threads && mutex in sys.mutexes
      modifies this, threads, mutexes
      ensures Valid() && sys == TakeFree(old(sys), thread, mutex)
    {
      mutex.owner := thread;
      mutex.priority := NO_WAITER;
      mutex.hold := 1;
      thread.taken := thread.taken + {mutex};
      sys := TakeFree(sys, thread, mutex);
    }

    method ChangeHold(mutex: MutexCb, n: Prio)
      requires Valid() && mutex in sys.mutexes
      modifies this, mutexes
      ensures Valid() && sys == SetHold(old(sys), mutex, n)
    {
      mutex.hold := n;
      sys := SetHold(sys, mutex, n);
    }

    /** One hold more, or one less but not the last. */
    method AdjustHold(mutex: MutexCb, n: Prio)
      requires Valid() && Inv(sys) && mutex in sys.mutexes && sys.mutexes[mutex].owner != null && n > 0
      modifies this, threads, mutexes
      ensures Valid() && Inv(sys) && sys == SetHold(old(sys), mutex, n)
    {
      SetHoldKeeps(sys, mutex, n);
      hide *;
      ChangeHold(mutex, n);
    }

    /** rt_thread_suspend_to_list, and the note of what the thread waits for. */
    method SuspendToList(thread: ThreadCb, mutex: MutexCb)
      requires Valid() && thread in sys.threads && mutex in sys.mutexes
        && Known(sys.threads, sys.mutexes[mutex].waiters)
      modifies this, threads, mutexes
      ensures Valid() && sys == Suspend(old(sys), thread, mutex)
    {
      thread.suspended := true;
      thread.pending := mutex;
      sys := PutThread(sys, thread, sys.threads[thread].(suspended := true, pending := mutex));
      hide Enqueue, InsertPos, Insert;
      SuspListEnqueue(mutex, thread);
    }

    /** The mutex learns of a waiter of priority `p`; the result says whether this made it more urgent. */
    method LowerMutex(mutex: MutexCb, p: Prio) returns (lowered: bool)
      requires Valid() && mutex in sys.mutexes
      modifies this, mutexes
      ensures Valid() && sys == Lower(old(sys), mutex, p) && lowered == (p < old(sys).mutexes[mutex].priority)
    {
      lowered := p < mutex.priority;
      if lowered {
        mutex.priority := p;
      }
      sys := Lower(sys, mutex, p);
    }

    /** The mutex and its owner learn of a waiter of priority `priority`. */
    method InformOwner(mutex: MutexCb, ghost o: ThreadCb, priority: Prio)
      requires Valid() && Due(sys, mutex, o, priority)
      modifies this, threads, mutexes
      ensures Valid() && Settled(sys) && BoostedTo(Lower(old(sys), mutex, priority), sys, priority)
      ensures Informed(old(sys), mutex, priority, sys)
    {
      var owner := mutex.owner;
      var current := owner.prio;
      LowerKeepsOwner(sys, mutex, o, priority);
      hide Valid, Unsettled, Settled, IsInherited, BoostedTo, Walked, Walk, Lower;
      var lowered := LowerMutex(mutex, priority);
      ghost var s1 := sys;
      Untouching(s1, priority);
      if lowered && priority < current {
        ThreadUpdatePriority(owner, priority);
        WalkedOneWay(s1, sys, current, priority);
      }
    }

    /** The branch of _rt_mutex_take in which the thread has to wait. */
    method Block(thread: ThreadCb, mutex: MutexCb)
      requires Valid() && Settled(sys) && Running(sys, thread) && mutex in sys.mutexes
        && sys.mutexes[mutex].owner != null
      requires Known(sys.threads, sys.mutexes[mutex].waiters)
      modifies this, threads, mutexes
      ensures Valid() && Settled(sys)
      ensures BoostedTo(Lower(Suspend(old(sys), thread, mutex), mutex, old(sys).threads[thread].prio), sys,
          old(sys).threads[thread].prio)
      ensures Informed(Suspend(old(sys), thread, mutex), mutex, old(sys).threads[thread].prio, sys)
    {
      SuspendOwners(sys, thread, mutex);
      ghost var o := sys.mutexes[mutex].owner;
      var priority := thread.prio;
      hide Valid, Suspend, Settled, Known, BoostedTo, Lower, Due, Informed;
      SuspendToList(thread, mutex);
      InformOwner(mutex, o, priority);
    }

    /** _rt_mutex_take, up to where the thread returns or gives up the processor. */
    method Take(thread: ThreadCb, mutex: MutexCb, timeout: int) returns (result: TakeResult)
      requires Valid() && Inv(sys) && Running(sys, thread) && mutex in sys.mutexes
      modifies this, threads, mutexes
      ensures Valid() && Inv(sys) && TakeEffect(old(sys), sys, thread, mutex, timeout, result)
      // The owner holds it once more, and nothing else changes.
      ensures old(mutex.owner) == thread && old(mutex.hold) < HOLD_MAX ==>
        && result == Taken && mutex.owner == thread && mutex.hold == old(mutex.hold) + 1
        && mutex.priority == old(mutex.priority) && mutex.waiters == old(mutex.waiters)
        && Apart(old(sys), sys, {}, mutex)
      ensures old(mutex.owner) == thread && old(mutex.hold) == HOLD_MAX ==> result == Overflow && sys == old(sys)
      // A free mutex is held once.
      ensures old(mutex.owner) == null ==>
        && result == Taken && mutex.owner == thread && mutex.hold == 1
        && mutex.priority == NO_WAITER && mutex.waiters == [] && Apart(old(sys), sys, {thread}, mutex)
        && sys.threads[thread] == old(sys).threads[thread].(taken := old(sys).threads[thread].taken + {mutex})
      ensures old(mutex.owner) != null && old(mutex.owner) != thread && timeout == 0 ==>
        result == Unavailable && sys == old(sys)
      // Otherwise the thread is one of those waiting.
      ensures old(mutex.owner) != null && old(mutex.owner) != thread && timeout != 0 ==>
        && result == Blocked && SameHolds(old(sys), sys, thread)
        && sys.threads[thread].suspended && sys.threads[thread].pending == mutex
        && forall u :: u in mutex.waiters <==> u == thread || u in old(mutex.waiters)
    {
      ghost var s := sys;
      TakeMeans(s, thread, mutex);
      Reads(mutex);
      result := TryTake(thread, mutex, timeout);
      Reads(mutex);
      hide Valid, Inv, TakeEffect, Known, BoostedTo, Lower, Suspend;
      TakeSeen(s, sys, thread, mutex, timeout, result);
    }

    lemma Reads(m: MutexCb)
      requires Valid() && m in sys.mutexes
      ensures MutexView(m.owner, m.priority, m.hold, m.waiters) == sys.mutexes[m]
    {}

    /** The branches of _rt_mutex_take. */
    method TryTake(thread: ThreadCb, mutex: MutexCb, timeout: int) returns (result: TakeResult)
      requires Valid() && Inv(sys) && Running(sys, thread) && mutex in sys.mutexes
      modifies this, threads, mutexes
      ensures Valid() && Inv(sys) && TakeEffect(old(sys), sys, thread, mutex, timeout, result)
      ensures result == Blocked ==>
        Known(old(sys).threads, old(sys).mutexes[mutex].waiters)
        && BoostedTo(Lower(Suspend(old(sys), thread, mutex), mutex, old(sys).threads[thread].prio), sys,
             old(sys).threads[thread].prio)
    {
      ghost var s := sys;
      TakeMeans(s, thread, mutex);
      var owner, hold := mutex.owner, mutex.hold;
      hide Valid, Inv, Settled, Suspend, Lower, BoostedTo, Informed, SetHold, TakeFree, Known, Quiet;
      if owner == thread {
        if hold < HOLD_MAX {
          AdjustHold(mutex, hold + 1);
          return Taken;
        } else {
          return Overflow;
        }
      } else if owner == null {
        TakeFreeKeeps(s, thread, mutex);
        TakeFreeMutex(thread, mutex);
        return Taken;
      } else if timeout == 0 {
        return Unavailable;
      } else {
        Block(thread, mutex);
        BlockKeeps(s, sys, thread, mutex);
        return Blocked;
      }
    }

    // ----------------------------------------------------------------------------------------
    // rt_mutex_release
    // ----------------------------------------------------------------------------------------

    method DropHold(thread: ThreadCb, mutex: MutexCb)
      requires Valid() && thread in sys.threads && mutex in sys.mutexes && sys.mutexes[mutex].hold == 1
      modifies this, threads, mutexes
      ensures Valid() && sys == Untake(old(sys), thread, mutex)
    {
      mutex.hold := mutex.hold - 1;
      thread.taken := thread.taken - {mutex};
      sys := Untake(sys, thread, mutex);
    }

    /** _check_and_update_prio, without priority ceilings: recompute only if the mutex may have
        given the thread its priority. */
    method CheckAndUpdatePrio(thread: ThreadCb, mutex: MutexCb) returns (ghost p: Prio)
      requires Valid() && Closed(sys) && thread in sys.threads && mutex in sys.mutexes
      modifies this, threads
      ensures Valid() && sys == SetPrio(old(sys), thread, p)
      ensures if old(sys).threads[thread].prio == old(sys).mutexes[mutex].priority then IsInherited(old(sys), thread, p)
              else p == old(sys).threads[thread].prio
    {
      p := thread.prio;
      assert SetPrio(sys, thread, p).threads == sys.threads;
      if thread.prio == mutex.priority {
        hide Valid, Closed, IsInherited, SetPrio;
        var priority := GetMutexPriority(thread);
        ChangePriority(thread, priority);
        p := priority;
      }
    }

    /** The thread is readied and becomes the owner. */
    method MakeOwner(mutex: MutexCb, next: ThreadCb)
      requires Valid() && next in sys.threads && mutex in sys.mutexes
      modifies this, threads, mutexes
      ensures Valid() && sys == Promote(old(sys), mutex, next)
    {
      next.suspended := false;
      mutex.owner := next;
      mutex.hold := 1;
      next.taken := next.taken + {mutex};
      next.pending := null;
      sys := Promote(sys, mutex, next);
    }

    method ClearOwner(mutex: MutexCb)
      requires Valid() && mutex in sys.mutexes && sys.mutexes[mutex].waiters == []
      modifies this, mutexes
      ensures Valid() && sys == PassOn(old(sys), mutex)
    {
      mutex.owner := null;
      mutex.priority := NO_WAITER;
      mutex.hold := 0;
      sys := PassOn(sys, mutex);
    }

    /** The mutex goes to the head of its suspend list, or is free. */
    method HandOver(mutex: MutexCb)
      requires Valid() && mutex in sys.mutexes && Known(sys.threads, sys.mutexes[mutex].waiters)
        && Distinct(sys.mutexes[mutex].waiters)
      modifies this, threads, mutexes
      ensures Valid() && sys == PassOn(old(sys), mutex)
    {
      if mutex.waiters != [] {
        var next := mutex.waiters[0];
        PassOnInSteps(sys, mutex);
        hide Drop, PassOn, Valid, Promote, Recache;
        ListRemove(mutex, next);
        MakeOwner(mutex, next);
        MutexUpdatePriority(mutex);
      } else {
        ClearOwner(mutex);
      }
    }

    /** The branch of rt_mutex_release in which the last hold is given up. */
    method GiveUp(thread: ThreadCb, mutex: MutexCb) returns (ghost p: Prio)
      requires Valid() && Inv(sys) && Running(sys, thread) && mutex in sys.mutexes
      requires sys.mutexes[mutex].owner == thread && sys.mutexes[mutex].hold == 1
        && Known(sys.threads, sys.mutexes[mutex].waiters)
      modifies this, threads, mutexes
      ensures Valid() && Inv(sys) && sys == ReleaseLast(old(sys), thread, mutex, p)
        && LeftWith(old(sys), thread, mutex, p)
    {
      ghost var s := sys;
      UntakeMeans(s, thread, mutex);
      hide Valid, Untake, Closed, IsInherited, SetPrio, PassOn, Inv, ReleaseLast, Known, Distinct;
      DropHold(thread, mutex);
      p := CheckAndUpdatePrio(thread, mutex);
      ReleaseLastMeans(s, thread, mutex, p);
      HandOver(mutex);
    }

    /** rt_mutex_release by `thread`; the result is whether it was the owner. */
    method Release(thread: ThreadCb, mutex: MutexCb) returns (ok: bool, ghost p: Prio)
      requires Valid() && Inv(sys) && Running(sys, thread) && mutex in sys.mutexes
      modifies this, threads, mutexes
      ensures Valid() && Inv(sys) && ReleaseEffect(old(sys), sys, thread, mutex, ok, p)
      ensures old(mutex.owner) != thread ==> !ok && sys == old(sys)
      // Of several holds one is given up, and nothing else changes.
      ensures old(mutex.owner) == thread && old(mutex.hold) != 1 ==>
        && ok && mutex.owner == thread && mutex.hold == old(mutex.hold) - 1 > 0
        && mutex.priority == old(mutex.priority) && mutex.waiters == old(mutex.waiters)
        && Apart(old(sys), sys, {}, mutex)
      // With the last one the mutex becomes free, or the first waiter holds it once and waits no longer.
      ensures old(mutex.owner) == thread && old(mutex.hold) == 1 ==>
        var v := old(sys).threads[thread];
        && ok && sys.threads.Keys == old(sys).threads.Keys
        && sys.threads[thread] == v.(taken := v.taken - {mutex}, prio := sys.threads[thread].prio)
      ensures old(mutex.owner) == thread && old(mutex.hold) == 1 && old(mutex.waiters) == [] ==>
        && mutex.owner == null && mutex.hold == 0 && mutex.priority == NO_WAITER && mutex.waiters == []
        && Apart(old(sys), sys, {thread}, mutex)
      ensures old(mutex.owner) == thread && old(mutex.hold) == 1 && old(mutex.waiters) != [] ==>
        var ts, q := old(sys).threads, old(mutex.waiters);
        && q[0] != thread && q[0] in ts && (|q| > 1 ==> q[1] in ts)
        && mutex.owner == q[0] && mutex.hold == 1 && mutex.waiters == q[1..]
        && mutex.priority == (if |q| > 1 then ts[q[1]].prio else NO_WAITER)
        && Apart(old(sys), sys, {thread, q[0]}, mutex)
        && sys.threads[q[0]] == ts[q[0]].(suspended := false, pending := null, taken := ts[q[0]].taken + {mutex})
    {
      ghost var s := sys;
      Reads(mutex);
      ok, p := TryRelease(thread, mutex);
      Reads(mutex);
      hide Valid, Inv, ReleaseEffect, Apart;
      ReleaseSeen(s, sys, thread, mutex, ok, p);
    }

    /** The branches of rt_mutex_release. */
    method TryRelease(thread: ThreadCb, mutex: MutexCb) returns (ok: bool, ghost p: Prio)
      requires Valid() && Inv(sys) && Running(sys, thread) && mutex in sys.mutexes
      modifies this, threads, mutexes
      ensures Valid() && Inv(sys) && ReleaseEffect(old(sys), sys, thread, mutex, ok, p)
    {
      ghost var s := sys;
      ReleaseMeans(s, thread, mutex);
      var owner, hold := mutex.owner, mutex.hold;
      p := thread.prio;
      assert owner == s.mutexes[mutex].owner && hold == s.mutexes[mutex].hold;
      hide Valid, Inv, ReleaseLast, SetHold, Known, ReleaseEffect, LeftWith;
      ok := owner == thread;
      if ok && hold > 1 {
        AdjustHold(mutex, hold - 1);
      } else if ok {
        p := GiveUp(thread, mutex);
      }
      ReleaseBy(s, sys, thread, mutex, ok, p);
    }

    // ----------------------------------------------------------------------------------------
    // The timeout of a waiting thread
    // ----------------------------------------------------------------------------------------

    /** The timer removes the thread from the list; the mutex reads its cache off the list again. */
    method WakeUp(thread: ThreadCb) returns (mutex: MutexCb)
      requires Valid() && Waits(sys, thread)
      modifies this, threads, mutexes
      ensures Valid() && sys == Wake(old(sys), thread) && mutex == old(sys).threads[thread].pending
    {
      ghost var s := sys;
      mutex := thread.pending;
      WakeInSteps(s, thread);
      thread.suspended := false;
      sys := PutThread(s, thread, s.threads[thread].(suspended := false));
      hide Drop, Recache, Wake;
      ListRemove(mutex, thread);
      MutexUpdatePriority(mutex);
    }

    method ForgetPending(thread: ThreadCb)
      requires Valid() && thread in sys.threads
      modifies this, threads
      ensures Valid() && sys == Forget(old(sys), thread)
    {
      thread.pending := null;
      sys := Forget(sys, thread);
    }

    /** The owner gives up priority `q` if it may owe it to a waiter that has left. */
    method RelaxOwner(mutex: MutexCb, ghost o: ThreadCb, q: Prio)
      requires Valid() && Owed(sys, mutex, o, q)
      modifies this, threads, mutexes
      ensures Valid() && Settled(sys) && RelaxedFrom(old(sys), sys, q) && Relieved(old(sys), o, q, sys)
    {
      ghost var s := sys;
      var owner := mutex.owner;
      var current := owner.prio;
      OwedClosed(s, mutex, o, q);
      hide Valid, Unsettled, Settled, RelaxedFrom, Walked, Walk, IsInherited, Closed;
      Untouching(s, q);
      if current == q {
        var priority := GetMutexPriority(owner);
        OwedRises(s, mutex, o, q, priority);
        if priority != current {
          ThreadUpdatePriority(owner, priority);
          WalkedOneWay(s, sys, current, priority);
        }
      }
    }

    /** The timer of a thread waiting for a mutex expires and the thread cleans up. */
    method TakeTimeout(thread: ThreadCb)
      requires Valid() && Inv(sys) && Waits(sys, thread)
      modifies this, threads, mutexes
      ensures Valid() && Inv(sys)
      ensures RelaxedFrom(Forget(Wake(old(sys), thread), thread), sys, old(sys).threads[thread].prio)
      ensures TimedOut(old(sys), thread, sys)
      // The thread is not one of those waiting any more; no mutex changes hands.
      ensures SameHolds(old(sys), sys, thread)
      ensures !sys.threads[thread].suspended && sys.threads[thread].pending == null
      ensures var m := old(sys).threads[thread].pending;
        && m in old(sys).mutexes && m in sys.mutexes
        && forall u :: u in sys.mutexes[m].waiters <==> u != thread && u in old(sys).mutexes[m].waiters
    {
      ghost var s := sys;
      Expire(thread);
      hide Valid, Inv, Wake, Forget, TimedOut, SameShape, SameHolds;
      TimeoutSeen(s, sys, thread);
    }

    method Expire(thread: ThreadCb)
      requires Valid() && Inv(sys) && Waits(sys, thread)
      modifies this, threads, mutexes
      ensures Valid() && Inv(sys)
      ensures RelaxedFrom(Forget(Wake(old(sys), thread), thread), sys, old(sys).threads[thread].prio)
      ensures TimedOut(old(sys), thread, sys)
    {
      ghost var s := sys;
      WakeOwed(s, thread);
      WakeQuiet(s, thread);
      ghost var o := sys.mutexes[sys.threads[thread].pending].owner;
      var q := thread.prio;
      hide Valid, Inv, Settled, Waits, Wake, Forget, RelaxedFrom, Relieved, SameShape, Quiet, Owed;
      var mutex := WakeUp(thread);
      ghost var s1 := sys;
      RelaxOwner(mutex, o, q);
      RelaxedShape(s1, sys, q);
      ShapeQuiet(s1, sys, thread);
      ForgetShape(s1, sys, thread, q);
      ForgetKeeps(sys, thread);
      ForgottenIs(s, sys, thread, q);
      ForgetPending(thread);
    }
  }

  ghost function FreshSys(threads: set<ThreadCb>, mutexes: set<MutexCb>): Sys {
    Sys(map t | t in threads :: ThreadView(t.initPrio, t.initPrio, false, null, {}, 0),
        map m | m in mutexes :: MutexView(null, NO_WAITER, 0, []), 1)
  }

  lemma TakeMeans(s: Sys, t: ThreadCb, m: MutexCb)
    requires Inv(s) && m in s.mutexes
    ensures s.mutexes[m].owner != null ==> Known(s.threads, s.mutexes[m].waiters)
    ensures Settled(s)
  {
    assert QueueOk(s.threads, s.mutexes[m]);
  }

  lemma ReleaseMeans(s: Sys, t: ThreadCb, m: MutexCb)
    requires Inv(s) && m in s.mutexes && t in s.threads
    ensures s.mutexes[m].owner == t ==> s.mutexes[m].hold >= 1
    ensures Known(s.threads, s.mutexes[m].waiters)
  {
    assert QueueOk(s.threads, s.mutexes[m]);
  }

  lemma UntakeMeans(s: Sys, t: ThreadCb, m: MutexCb)
    requires Inv(s) && m in s.mutexes && t in s.threads
    ensures Closed(Untake(s, t, m))
    ensures var s1 := Untake(s, t, m); t in s1.threads && m in s1.mutexes
  {
    UntakeClosed(s, t, m);
  }

  /** The priority _check_and_update_prio leaves the thread with is the inherited one, whether or not
      it was recomputed. */
  lemma ReleaseLastMeans(s: Sys, t: ThreadCb, m: MutexCb, p: Prio)
    requires Inv(s) && Running(s, t) && m in s.mutexes && s.mutexes[m].owner == t
      && Known(s.threads, s.mutexes[m].waiters)
    requires Closed(Untake(s, t, m))
    requires if Untake(s, t, m).threads[t].prio == Untake(s, t, m).mutexes[m].priority
             then IsInherited(Untake(s, t, m), t, p)
             else p == Untake(s, t, m).threads[t].prio
    ensures Inv(ReleaseLast(s, t, m, p))
    ensures var s1 := SetPrio(Untake(s, t, m), t, p);
      && m in s1.mutexes && Known(s1.threads, s1.mutexes[m].waiters) && Distinct(s1.mutexes[m].waiters)
      && PassOn(s1, m) == ReleaseLast(s, t, m, p)
  {
    assert OwnerOk(s, t) && Distinct(s.mutexes[m].waiters);
    if s.threads[t].prio != s.mutexes[m].priority {
      SkipIsSound(s, t, m);
    }
    hide Inv, IsInherited, Distinct;
    ReleaseKeeps(s, t, m, p);
  }

  lemma PassOnInSteps(s: Sys, m: MutexCb)
    requires m in s.mutexes && Known(s.threads, s.mutexes[m].waiters) && Distinct(s.mutexes[m].waiters)
      && s.mutexes[m].waiters != []
    ensures var n, s1 := s.mutexes[m].waiters[0], Drop(s, m, s.mutexes[m].waiters[0]);
      && n in s1.threads && m in s1.mutexes && m in Promote(s1, m, n).mutexes
      && Known(Promote(s1, m, n).threads, Promote(s1, m, n).mutexes[m].waiters)
      && Recache(Promote(s1, m, n), m) == PassOn(s, m)
  {
    var q := s.mutexes[m].waiters;
    RemoveMembers(q, q[0]);
    hide Remove, Distinct;
    assert Recache(Promote(Drop(s, m, q[0]), m, q[0]), m).mutexes == PassOn(s, m).mutexes;
  }

  /** `n` is readied and becomes the owner of `m`. */
  ghost function Promote(s: Sys, m: MutexCb, n: ThreadCb): Sys
    requires m in s.mutexes && n in s.threads
  {
    s.(threads := s.threads[n := s.threads[n].(suspended := false, pending := null, taken := s.threads[n].taken + {m})],
       mutexes := s.mutexes[m := s.mutexes[m].(owner := n, hold := 1)])
  }

  lemma BlockKeeps(s: Sys, s': Sys, t: ThreadCb, m: MutexCb)
    requires Inv(s) && Settled(s') && t in s.threads && m in s.mutexes && Known(s.threads, s.mutexes[m].waiters)
    requires BoostedTo(Lower(Suspend(s, t, m), m, s.threads[t].prio), s', s.threads[t].prio)
    ensures Inv(s')
  {
    hide Settled, Suspend, Lower, Quiet, SameShape;
    BlockQuiet(s, s', t, m);
  }

  lemma WakeInSteps(s: Sys, t: ThreadCb)
    requires Waits(s, t)
    ensures var m, s1 := s.threads[t].pending, PutThread(s, t, s.threads[t].(suspended := false));
      Known(Drop(s1, m, t).threads, Drop(s1, m, t).mutexes[m].waiters) && Recache(Drop(s1, m, t), m) == Wake(s, t)
  {
    var q := s.mutexes[s.threads[t].pending].waiters;
    RemoveMembers(q, t);
    MembersKnown(s.threads, q, Remove(q, t));
    hide Remove, Distinct;
    assert Recache(Drop(PutThread(s, t, s.threads[t].(suspended := false)), s.threads[t].pending, t),
        s.threads[t].pending).mutexes
        == Wake(s, t).mutexes;
  }

  /** A waiter of priority `q` has left `m`: only the owner `o` may have to change, only if it runs at
      `q`, and only to become less urgent. */
  ghost predicate Owed(s: Sys, m: MutexCb, o: ThreadCb, q: Prio) {
    && m in s.mutexes && s.mutexes[m].owner == o && Unsettled(s, o)
    && (s.threads[o].prio != q ==> Settled(s))
    && (forall p :: IsInherited(s, o, p) ==> q <= p || s.threads[o].prio != q)
  }

  lemma OwedClosed(s: Sys, m: MutexCb, o: ThreadCb, q: Prio)
    requires Owed(s, m, o, q)
    ensures Closed(s)
  {}

  lemma OwedRises(s: Sys, m: MutexCb, o: ThreadCb, q: Prio, p: Prio)
    requires Owed(s, m, o, q) && Closed(s) && IsInherited(s, o, p) && s.threads[o].prio == q
    ensures q <= p && (q == p ==> Settled(s))
  {
    if q == p {
      UnsettledIsSettled(s, o);
    }
  }

  lemma RelaxedShape(s: Sys, s': Sys, q: Prio)
    requires RelaxedFrom(s, s', q)
    ensures SameShape(s, s')
  {}

  lemma LowerKeepsOwner(s: Sys, m: MutexCb, o: ThreadCb, p: Prio)
    requires Due(s, m, o, p)
    ensures o in Lower(s, m, p).threads && Lower(s, m, p).threads == s.threads
  {}

  lemma ForgottenIs(s: Sys, s1: Sys, t: ThreadCb, q: Prio)
    requires Waits(s, t) && SameShape(Wake(s, t), s1) && q == s.threads[t].prio
      && s.mutexes[s.threads[t].pending].owner != null
    requires Relieved(Wake(s, t), s.mutexes[s.threads[t].pending].owner, q, s1)
    ensures t in s1.threads && TimedOut(s, t, Forget(s1, t))
  {
    var m := s.threads[t].pending;
    assert SameThread(Wake(s, t).threads[t], s1.threads[t]);
    assert Wake(s, t).threads[t].pending == m;
    hide Relieved, Wake, SameShape;
    assert Remember(Forget(s1, t), t, m).threads == s1.threads;
  }

  lemma WakeOwed(s: Sys, t: ThreadCb)
    requires Inv(s) && Waits(s, t)
    ensures var m := s.threads[t].pending;
      s.mutexes[m].owner != null && Owed(Wake(s, t), m, s.mutexes[m].owner, s.threads[t].prio)
  {
    WakeOwners(s, t);
    StructureWaits(s, t);
    WakeHead(s, t);
    assert OwnerOk(s, s.mutexes[s.threads[t].pending].owner);
    hide Structure, Queues, OwnersBut, Remove, HeadPrio;
  }
}
