/** The state of the mutex subsystem of ipc.c as a value, and what must hold of it.

    A `Sys` gives, for every thread and every mutex, the fields that the mutex code reads and
    writes, and in addition when each thread was last put into a suspend list.  The control blocks
    hold these fields; `MutexKernel.Kernel` keeps the two in step. */
module PriorityInheritance {
  import opened Sequences

  /** rt_uint8_t priorities: 0 is the most urgent. */
  type Prio = x: int | 0 <= x <= 255

  /** The cached priority of a mutex nobody waits for. */
  const NO_WAITER: Prio := 255

  /** Largest value of the nesting counter `hold`. */
  const HOLD_MAX: int := 255

  class ThreadCb {
    const initPrio: Prio
    var prio: Prio
    var suspended: bool
    var pending: MutexCb?
    /** The mutexes in taken_object_list; their order is never looked at. */
    var taken: set<MutexCb>

    constructor (p: Prio)
      ensures initPrio == prio == p && !suspended && pending == null && taken == {}
    {
      initPrio, prio, suspended, pending, taken := p, p, false, null, {};
    }
  }

  class MutexCb {
    var owner: ThreadCb?
    var priority: Prio
    var hold: Prio
    var waiters: seq<ThreadCb>

    /** rt_mutex_init, without priority ceiling. */
    constructor ()
      ensures owner == null && priority == NO_WAITER && hold == 0 && waiters == []
    {
      owner, priority, hold, waiters := null, NO_WAITER, 0, [];
    }
  }

  datatype ThreadView = ThreadView(
    initPrio: Prio, prio: Prio, suspended: bool, pending: MutexCb?, taken: set<MutexCb>, stamp: nat)

  datatype MutexView = MutexView(owner: ThreadCb?, priority: Prio, hold: Prio, waiters: seq<ThreadCb>)

  datatype Sys = Sys(threads: map<ThreadCb, ThreadView>, mutexes: map<MutexCb, MutexView>, clock: nat)

  // ------------------------------------------------------------------------------------------
  // Updates of single fields
  // ------------------------------------------------------------------------------------------

  ghost function PutThread(s: Sys, t: ThreadCb, v: ThreadView): Sys { s.(threads := s.threads[t := v]) }

  ghost function PutMutex(s: Sys, m: MutexCb, v: MutexView): Sys { s.(mutexes := s.mutexes[m := v]) }

  ghost function SetPrio(s: Sys, t: ThreadCb, p: Prio): Sys
    requires t in s.threads
  {
    PutThread(s, t, s.threads[t].(prio := p))
  }

  // ------------------------------------------------------------------------------------------
  // Invariant
  // ------------------------------------------------------------------------------------------

  /** Every reference leads to a thread or mutex of the system. */
  ghost predicate Closed(s: Sys) {
    && (forall t {:trigger s.threads[t].pending} :: t in s.threads && s.threads[t].pending != null ==>
        s.threads[t].pending in s.mutexes)
    && (forall t, m {:trigger m in s.threads[t].taken} :: t in s.threads && m in s.threads[t].taken ==> m in s.mutexes)
    && (forall m {:trigger s.mutexes[m].owner} :: m in s.mutexes && s.mutexes[m].owner != null ==>
        s.mutexes[m].owner in s.threads)
    && (forall m, w {:trigger w in s.mutexes[m].waiters} :: m in s.mutexes && w in s.mutexes[m].waiters ==>
        w in s.threads)
  }

  /** A thread stands in a suspend list exactly when it is suspended and pending on that mutex. */
  ghost predicate WaitsMatch(s: Sys)
    requires Closed(s)
  {
    && (forall m {:trigger s.mutexes[m].waiters} :: m in s.mutexes ==> Distinct(s.mutexes[m].waiters))
    && (forall m, t {:trigger t in s.mutexes[m].waiters} :: m in s.mutexes && t in s.mutexes[m].waiters ==>
          s.threads[t].suspended && s.threads[t].pending == m)
    && (forall t {:trigger s.threads[t].pending} ::
          t in s.threads && s.threads[t].suspended && s.threads[t].pending != null ==>
          t in s.mutexes[s.threads[t].pending].waiters)
  }

  /** A mutex is in exactly its owner's taken list; a free mutex has no waiter and no hold. */
  ghost predicate OwnersMatch(s: Sys)
    requires Closed(s)
  {
    && (forall t, m {:trigger m in s.threads[t].taken} :: t in s.threads && m in s.threads[t].taken ==>
        s.mutexes[m].owner == t)
    && (forall m {:trigger s.mutexes[m].owner} :: m in s.mutexes && s.mutexes[m].owner != null ==>
          m in s.threads[s.mutexes[m].owner].taken)
    && (forall m {:trigger s.mutexes[m].hold} :: m in s.mutexes ==>
        (s.mutexes[m].owner == null <==> s.mutexes[m].hold == 0))
    && (forall m {:trigger s.mutexes[m].waiters} :: m in s.mutexes && s.mutexes[m].owner == null ==>
        s.mutexes[m].waiters == [])
  }

  ghost predicate Structure(s: Sys) {
    && Closed(s) && WaitsMatch(s) && OwnersMatch(s)
    && (forall t :: t in s.threads ==> s.threads[t].stamp < s.clock)
  }

  type Threads = map<ThreadCb, ThreadView>

  /** `a` stands before `b`: more urgent, or equally urgent and queued earlier. */
  ghost predicate Before(a: ThreadView, b: ThreadView) {
    a.prio < b.prio || (a.prio == b.prio && a.stamp < b.stamp)
  }

  ghost predicate Known(ts: Threads, q: seq<ThreadCb>) {
    forall i :: 0 <= i < |q| ==> q[i] in ts
  }

  ghost predicate Sorted(ts: Threads, q: seq<ThreadCb>)
    requires Known(ts, q)
  {
    forall i, j :: 0 <= i < j < |q| ==> Before(ts[q[i]], ts[q[j]])
  }

  ghost function HeadPrio(ts: Threads, q: seq<ThreadCb>): Prio
    requires Known(ts, q)
  {
    if q == [] then NO_WAITER else ts[q[0]].prio
  }

  /** The suspend list of `m` is sorted and `m` caches the priority of its head. */
  ghost predicate QueueOk(ts: Threads, m: MutexView) {
    && Known(ts, m.waiters)
    && Sorted(ts, m.waiters)
    && m.priority == HeadPrio(ts, m.waiters)
  }

  ghost predicate Queues(s: Sys) {
    forall m :: m in s.mutexes ==> QueueOk(s.threads, s.mutexes[m])
  }

  /** `p` is the minimum of the initial priority of `t` and the cached priorities of its mutexes. */
  ghost predicate IsInherited(s: Sys, t: ThreadCb, p: Prio)
    requires Closed(s) && t in s.threads
  {
    && p <= s.threads[t].initPrio
    && (forall m :: m in s.threads[t].taken ==> p <= s.mutexes[m].priority)
    && (p == s.threads[t].initPrio || exists m :: m in s.threads[t].taken && p == s.mutexes[m].priority)
  }

  ghost predicate OwnerOk(s: Sys, t: ThreadCb)
    requires Closed(s) && t in s.threads
  {
    IsInherited(s, t, s.threads[t].prio)
  }

  /** All threads but `dirty` run at the priority they inherit. */
  ghost predicate OwnersBut(s: Sys, dirty: set<ThreadCb>)
    requires Closed(s)
  {
    forall t :: t in s.threads && t !in dirty ==> OwnerOk(s, t)
  }

  /** Every list is sorted and every thread runs at the priority it inherits. */
  ghost predicate Settled(s: Sys) {
    Structure(s) && Queues(s) && OwnersBut(s, {})
  }

  /** The owner `o` may run at a wrong priority; all else is settled. */
  ghost predicate Unsettled(s: Sys, o: ThreadCb) {
    Structure(s) && Queues(s) && o in s.threads && OwnersBut(s, {o})
  }

  /** No thread but those of `dirty` remembers a mutex it does not wait for. */
  ghost predicate Quiet(s: Sys, dirty: set<ThreadCb>) {
    forall t {:trigger s.threads[t].pending} :: t in s.threads && t !in dirty && s.threads[t].pending != null ==>
      s.threads[t].suspended
  }

  /** What every complete step keeps. */
  ghost predicate Inv(s: Sys) {
    && Settled(s)
    && Quiet(s, {})
  }

  // ------------------------------------------------------------------------------------------
  // Suspend lists
  // ------------------------------------------------------------------------------------------

  /** Where rt_susp_list_enqueue inserts: before the first strictly less urgent thread. */
  ghost function InsertPos(ts: Threads, q: seq<ThreadCb>, p: Prio): (k: nat)
    requires Known(ts, q)
    ensures k <= |q|
    ensures forall i :: 0 <= i < k ==> ts[q[i]].prio <= p
    ensures k < |q| ==> p < ts[q[k]].prio
  {
    if q == [] || p < ts[q[0]].prio then 0
    else
      assert Known(ts, q[1..]);
      1 + InsertPos(ts, q[1..], p)
  }

  ghost function Insert(q: seq<ThreadCb>, k: nat, t: ThreadCb): seq<ThreadCb>
    requires k <= |q|
  {
    q[..k] + [t] + q[k..]
  }

  ghost function Remove(q: seq<ThreadCb>, t: ThreadCb): seq<ThreadCb>
    requires t in q
  {
    var i :| 0 <= i < |q| && q[i] == t;
    q[..i] + q[i + 1..]
  }

  /** rt_susp_list_enqueue: `t` enters the suspend list of `m`, stamped with the current time. */
  ghost function Enqueue(s: Sys, m: MutexCb, t: ThreadCb): Sys
    requires m in s.mutexes && t in s.threads && Known(s.threads, s.mutexes[m].waiters)
  {
    var q := s.mutexes[m].waiters;
    Sys(s.threads[t := s.threads[t].(stamp := s.clock)],
        s.mutexes[m := s.mutexes[m].(waiters := Insert(q, InsertPos(s.threads, q, s.threads[t].prio), t))],
        s.clock + 1)
  }

  /** rt_list_remove: `t` leaves the suspend list of `m`. */
  ghost function Drop(s: Sys, m: MutexCb, t: ThreadCb): Sys
    requires m in s.mutexes && t in s.mutexes[m].waiters
  {
    PutMutex(s, m, s.mutexes[m].(waiters := Remove(s.mutexes[m].waiters, t)))
  }

  /** _mutex_update_priority: the cached priority of `m` is read off its suspend list again. */
  ghost function Recache(s: Sys, m: MutexCb): Sys
    requires m in s.mutexes && Known(s.threads, s.mutexes[m].waiters)
  {
    PutMutex(s, m, s.mutexes[m].(priority := HeadPrio(s.threads, s.mutexes[m].waiters)))
  }
}
