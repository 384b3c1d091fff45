/** One step of the priority walk of ipc.c, on state values. */
module PriorityWalk {
  import opened Sequences
  import opened PriorityInheritance

  // ------------------------------------------------------------------------------------------
  // Suspend lists as sequences
  // ------------------------------------------------------------------------------------------

  lemma RemoveMembers(q: seq<ThreadCb>, t: ThreadCb)
    requires Distinct(q) && t in q
    ensures Distinct(Remove(q, t)) && |Remove(q, t)| == |q| - 1
    ensures forall u :: u in Remove(q, t) <==> u in q && u != t
    ensures |q| > 1 ==> Remove(q, t)[0] == if q[0] == t then q[1] else q[0]
    ensures q[0] == t ==> Remove(q, t) == q[1..]
  {
    var r := Remove(q, t);
    var i :| 0 <= i < |q| && q[i] == t && r == q[..i] + q[i + 1..];
    RemovedAt(q, i, r);
    hide Remove;
    forall u | u in q && u != t ensures u in r {
      var j :| 0 <= j < |q| && q[j] == u;
      assert r[if j < i then j else j - 1] == u;
    }
    forall u | u in r ensures u in q && u != t {
      var j :| 0 <= j < |r| && r[j] == u;
      assert q[if j < i then j else j + 1] == u;
    }
  }

  lemma RemovedAt(q: seq<ThreadCb>, i: nat, r: seq<ThreadCb>)
    requires Distinct(q) && i < |q| && r == q[..i] + q[i + 1..]
    ensures |r| == |q| - 1 && Distinct(r) && forall j :: 0 <= j < |r| ==> r[j] == q[if j < i then j else j + 1]
  {}

  lemma RemoveSorted(ts: Threads, q: seq<ThreadCb>, t: ThreadCb)
    requires Known(ts, q) && Sorted(ts, q) && t in q
    ensures Known(ts, Remove(q, t)) && Sorted(ts, Remove(q, t))
  {
    var r := Remove(q, t);
    var i :| 0 <= i < |q| && q[i] == t && r == q[..i] + q[i + 1..];
    forall a, b | 0 <= a < b < |r| ensures Before(ts[r[a]], ts[r[b]]) {
      assert r[a] == q[if a < i then a else a + 1] && r[b] == q[if b < i then b else b + 1];
    }
  }

  lemma InsertMembers(q: seq<ThreadCb>, k: nat, t: ThreadCb)
    requires Distinct(q) && t !in q && k <= |q|
    ensures Distinct(Insert(q, k, t)) && |Insert(q, k, t)| == |q| + 1
    ensures forall u :: u in Insert(q, k, t) <==> u in q || u == t
  {
    var r := Insert(q, k, t);
    forall u | u in q ensures u in r {
      var j :| 0 <= j < |q| && q[j] == u;
      assert r[if j < k then j else j + 1] == u;
    }
    assert r[k] == t;
  }

  lemma InsertSorted(ts: Threads, q: seq<ThreadCb>, t: ThreadCb, now: nat)
    requires t in ts && t !in q && Known(ts, q) && Sorted(ts, q)
    requires forall u :: u in q ==> ts[u].stamp < now
    ensures var k, ts' := InsertPos(ts, q, ts[t].prio), ts[t := ts[t].(stamp := now)];
      Known(ts', Insert(q, k, t)) && Sorted(ts', Insert(q, k, t))
  {
    var k, ts' := InsertPos(ts, q, ts[t].prio), ts[t := ts[t].(stamp := now)];
    var r := Insert(q, k, t);
    forall a, b | 0 <= a < b < |r| ensures Before(ts'[r[a]], ts'[r[b]]) {
      assert a == k || r[a] == q[if a < k then a else a - 1];
      assert b == k || r[b] == q[if b < k then b else b - 1];
      if a == k && b - 1 > k {
        assert Before(ts[q[k]], ts[q[b - 1]]);
      }
    }
  }

  lemma MembersKnown(ts: Threads, q: seq<ThreadCb>, r: seq<ThreadCb>)
    requires Known(ts, q) && forall u :: u in r ==> u in q
    ensures Known(ts, r)
  {
    forall i | 0 <= i < |r| ensures r[i] in ts { assert r[i] in r; }
  }

  /** `t` is taken out of the list and sorted in again. */
  ghost function Resorted(ts: Threads, q: seq<ThreadCb>, t: ThreadCb): seq<ThreadCb>
    requires Distinct(q) && t in q && Known(ts, q)
  {
    var r := Remove(q, t);
    RemoveMembers(q, t);
    MembersKnown(ts, q, r);
    Insert(r, InsertPos(ts, r, ts[t].prio), t)
  }

  /** Members `r` and `t` in whatever order are the members of `q`. */
  lemma PutBack(ts: Threads, q: seq<ThreadCb>, r: seq<ThreadCb>, k: nat, t: ThreadCb)
    requires Known(ts, q) && t in q && Distinct(r) && t !in r && |r| == |q| - 1 && k <= |r|
    requires forall u :: u in r <==> u in q && u != t
    ensures var x := Insert(r, k, t); Distinct(x) && Known(ts, x) && |x| == |q| && forall u :: u in x <==> u in q
  {
    InsertMembers(r, k, t);
    var x := Insert(r, k, t);
    hide Insert, Distinct;
    MembersKnown(ts, q, x);
  }

  lemma ResortedMembers(ts: Threads, q: seq<ThreadCb>, t: ThreadCb)
    requires Distinct(q) && t in q && Known(ts, q)
    ensures Distinct(Resorted(ts, q, t)) && Known(ts, Resorted(ts, q, t)) && |Resorted(ts, q, t)| == |q|
    ensures forall u :: u in Resorted(ts, q, t) <==> u in q
  {
    var r := Remove(q, t);
    RemoveMembers(q, t);
    MembersKnown(ts, q, r);
    PutBack(ts, q, r, InsertPos(ts, r, ts[t].prio), t);
  }

  /** If `q` was sorted while `t` still had priority `old_`, it is sorted again after the move; its
      head priority moves in the direction `t` moved, and only from `old_` or to the new priority. */
  lemma ResortedSorted(ts: Threads, q: seq<ThreadCb>, t: ThreadCb, old_: Prio, now: nat)
    requires Distinct(q) && t in q && Known(ts, q)
    requires Sorted(ts[t := ts[t].(prio := old_)], q)
    requires forall u :: u in q ==> ts[u].stamp < now
    ensures var ts', q' := ts[t := ts[t].(stamp := now)], Resorted(ts, q, t);
      Known(ts', q') && Sorted(ts', q')
    ensures var before, after, p := HeadPrio(ts[t := ts[t].(prio := old_)], q), ts[Resorted(ts, q, t)[0]].prio,
        ts[t].prio;
      && (p <= old_ ==> after <= before && (after == before || after == p))
      && (old_ <= p ==> before <= after && (after == before || before == old_))
  {
    var ts0, r := ts[t := ts[t].(prio := old_)], Remove(q, t);
    RemoveMembers(q, t);
    RemoveSorted(ts0, q, t);
    assert Known(ts, r) && Sorted(ts, r) by {
      forall a, b | 0 <= a < b < |r| ensures Before(ts[r[a]], ts[r[b]]) {
        assert r[a] in r && r[b] in r && Before(ts0[r[a]], ts0[r[b]]);
      }
    }
    InsertSorted(ts, r, t, now);
    assert |q| > 1 ==> Before(ts0[q[0]], ts0[q[1]]);
    assert q[0] != t ==> Before(ts0[q[0]], ts0[t]);
  }

  /** A list does not see threads it does not hold. */
  lemma QueueFrame(ts: Threads, ts': Threads, m: MutexView)
    requires QueueOk(ts, m)
    requires forall u :: u in m.waiters ==> u in ts' && ts'[u] == ts[u]
    ensures QueueOk(ts', m)
  {
    var q := m.waiters;
    forall i, j | 0 <= i < j < |q| ensures Before(ts'[q[i]], ts'[q[j]]) {
      assert Before(ts[q[i]], ts[q[j]]);
    }
  }

  // ------------------------------------------------------------------------------------------
  // The walk
  // ------------------------------------------------------------------------------------------

  /** The state inside the walk: `t` has just changed its priority from `q`, and only the suspend
      list it stands in has not been told. */
  ghost predicate Walking(s: Sys, t: ThreadCb, q: Prio) {
    && Structure(s) && t in s.threads
    && Queues(SetPrio(s, t, q))
    && OwnersBut(s, {})
  }

  ghost predicate Waits(s: Sys, t: ThreadCb) {
    && t in s.threads && s.threads[t].suspended && s.threads[t].pending != null
    && s.threads[t].pending in s.mutexes
    && t in s.mutexes[s.threads[t].pending].waiters
    && Distinct(s.mutexes[s.threads[t].pending].waiters)
    && Known(s.threads, s.mutexes[s.threads[t].pending].waiters)
  }

  lemma StructureWaits(s: Sys, t: ThreadCb)
    requires Structure(s) && t in s.threads && s.threads[t].suspended && s.threads[t].pending != null
    ensures Waits(s, t)
    ensures var o := s.mutexes[s.threads[t].pending].owner;
      o != null && o in s.threads && s.threads[t].pending in s.threads[o].taken
  {
    var q := s.mutexes[s.threads[t].pending].waiters;
    forall i | 0 <= i < |q| ensures q[i] in s.threads { assert q[i] in q; }
  }

  /** The waiting thread `t` is sorted into its place and the cache of its mutex refreshed. */
  ghost function Requeue(s: Sys, t: ThreadCb): Sys
    requires Waits(s, t)
  {
    var m := s.threads[t].pending;
    var q := Resorted(s.threads, s.mutexes[m].waiters, t);
    ResortedMembers(s.threads, s.mutexes[m].waiters, t);
    Sys(s.threads[t := s.threads[t].(stamp := s.clock)],
        s.mutexes[m := s.mutexes[m].(waiters := q, priority := s.threads[q[0]].prio)],
        s.clock + 1)
  }

  lemma RequeueStructure(s: Sys, t: ThreadCb)
    requires Structure(s) && Waits(s, t)
    ensures Structure(Requeue(s, t))
  {
    ResortedMembers(s.threads, s.mutexes[s.threads[t].pending].waiters, t);
    hide Resorted;
    assert Closed(Requeue(s, t));
  }

  /** After `t` changed its priority while waiting for a mutex, re-sorting it and refreshing the
      cache of the mutex repairs every list. */
  lemma RequeueQueues(s: Sys, t: ThreadCb, q: Prio)
    requires Structure(s) && Waits(s, t) && Queues(SetPrio(s, t, q))
    ensures Queues(Requeue(s, t))
  {
    var s0, s', m := SetPrio(s, t, q), Requeue(s, t), s.threads[t].pending;
    ResortedMembers(s.threads, s.mutexes[m].waiters, t);
    ResortedSorted(s.threads, s.mutexes[m].waiters, t, q, s.clock);
    hide Resorted, Sorted, HeadPrio;
    forall n | n in s'.mutexes ensures QueueOk(s'.threads, s'.mutexes[n]) {
      assert QueueOk(s0.threads, s.mutexes[n]);
      if n != m {
        assert t !in s.mutexes[n].waiters;
        QueueFrame(s0.threads, s'.threads, s'.mutexes[n]);
      }
    }
  }

  /** Only the owner of that mutex may now run at a wrong priority. */
  lemma RequeueOwners(s: Sys, t: ThreadCb)
    requires Structure(s) && Waits(s, t) && OwnersBut(s, {}) && Closed(Requeue(s, t))
    ensures OwnersBut(Requeue(s, t), {s.mutexes[s.threads[t].pending].owner})
  {
    var s', o := Requeue(s, t), s.mutexes[s.threads[t].pending].owner;
    hide Resorted;
    forall u | u in s'.threads && u != o ensures OwnerOk(s', u) {
      assert OwnerOk(s, u);
      assert s.threads[t].pending !in s.threads[u].taken;
    }
  }

  lemma SetPrioStructure(s: Sys, t: ThreadCb, p: Prio)
    requires Structure(s) && t in s.threads
    ensures Structure(SetPrio(s, t, p)) && Closed(SetPrio(s, t, p))
  {}

  /** Setting the owner to the priority it inherits leaves only its own suspend list stale. */
  lemma OwnerAdjusts(s: Sys, o: ThreadCb, p: Prio)
    requires Unsettled(s, o) && IsInherited(s, o, p)
    ensures Walking(SetPrio(s, o, p), o, s.threads[o].prio)
  {
    var s' := SetPrio(s, o, p);
    SetPrioStructure(s, o, p);
    hide Structure, Queues;
    assert s'.threads[o := s.threads[o]] == s.threads;
    assert SetPrio(s', o, s.threads[o].prio) == s;
    forall t | t in s'.threads ensures OwnerOk(s', t) {
      if t != o { assert OwnerOk(s, t); }
    }
  }

  /** A thread that waits for no mutex ends the walk: nothing depends on its place in a list. */
  lemma WalkEnds(s: Sys, t: ThreadCb, q: Prio)
    requires Walking(s, t, q) && (s.threads[t].suspended ==> s.threads[t].pending == null)
    ensures Settled(s)
  {
    var s0 := SetPrio(s, t, q);
    forall m | m in s.mutexes ensures QueueOk(s.threads, s.mutexes[m]) {
      QueueFrame(s0.threads, s.threads, s.mutexes[m]);
    }
  }

  // ------------------------------------------------------------------------------------------
  // How far the walk carries a change
  // ------------------------------------------------------------------------------------------

  lemma RequeuedHead(s: Sys, t: ThreadCb, q: Prio)
    requires Structure(s) && Waits(s, t) && Queues(SetPrio(s, t, q))
    ensures var m, p := s.threads[t].pending, s.threads[t].prio;
      var before, after := s.mutexes[m].priority, Requeue(s, t).mutexes[m].priority;
      && (p <= q ==> after <= before && (after == before || after == p))
      && (q <= p ==> before <= after && (after == before || before == q))
  {
    var m := s.threads[t].pending;
    assert QueueOk(SetPrio(s, t, q).threads, s.mutexes[m]);
    ResortedSorted(s.threads, s.mutexes[m].waiters, t, q, s.clock);
  }

  /** When only the cached priority of one owned mutex moves, the inherited priority moves with it
      or not at all. */
  lemma InheritedMoves(s: Sys, s': Sys, o: ThreadCb, m: MutexCb, p: Prio)
    requires Closed(s) && Closed(s') && o in s.threads && o in s'.threads
    requires m in s.threads[o].taken && OwnerOk(s, o) && IsInherited(s', o, p) && p != s.threads[o].prio
    requires s'.threads[o].taken == s.threads[o].taken && s'.threads[o].initPrio == s.threads[o].initPrio
    requires forall n :: n in s.mutexes && n != m ==> n in s'.mutexes && s'.mutexes[n].priority == s.mutexes[n].priority
    ensures s'.mutexes[m].priority <= s.mutexes[m].priority ==> p == s'.mutexes[m].priority < s.threads[o].prio
    ensures s'.mutexes[m].priority >= s.mutexes[m].priority ==> s.threads[o].prio == s.mutexes[m].priority < p
  {}

  /** On the way up, every owner that changes ends at exactly the priority of the boosted waiter; on
      the way down, every owner that changes ran at exactly the priority being given up. */
  lemma WalkCarries(s: Sys, t: ThreadCb, q: Prio, o: ThreadCb, p: Prio)
    requires Walking(s, t, q) && Waits(s, t) && o == s.mutexes[s.threads[t].pending].owner
    requires Closed(Requeue(s, t)) && o in s.threads && IsInherited(Requeue(s, t), o, p)
    requires p != s.threads[o].prio
    ensures s.threads[t].prio < q ==> p == s.threads[t].prio < s.threads[o].prio
    ensures q < s.threads[t].prio ==> s.threads[o].prio == q < p
  {
    var m := s.threads[t].pending;
    StructureWaits(s, t);
    RequeuedHead(s, t, q);
    assert OwnerOk(s, o);
    hide Structure, Queues, OwnersBut, Walking, Resorted;
    InheritedMoves(s, Requeue(s, t), o, m, p);
  }

  // ------------------------------------------------------------------------------------------
  // Whole walks
  // ------------------------------------------------------------------------------------------

  ghost predicate SameThread(a: ThreadView, b: ThreadView) {
    && a.initPrio == b.initPrio && a.suspended == b.suspended && a.pending == b.pending && a.taken == b.taken
    && (a.prio == b.prio ==> a.stamp == b.stamp)
  }

  ghost predicate SameMutex(a: MutexView, b: MutexView) {
    a.owner == b.owner && a.hold == b.hold
  }

  /** Nothing but priorities, and the order they imply, differs between `s` and `s'`; a thread that
      kept its priority kept its turn. */
  ghost predicate SameShape(s: Sys, s': Sys) {
    && s'.threads.Keys == s.threads.Keys && s'.mutexes.Keys == s.mutexes.Keys
    && (forall t :: t in s.threads ==> SameThread(s.threads[t], s'.threads[t]))
    && (forall m :: m in s.mutexes ==> SameMutex(s.mutexes[m], s'.mutexes[m]))
  }

  /** Threads that changed were less urgent than `p` and now run at exactly `p`. */
  ghost predicate Boosted(s: Sys, s': Sys, p: Prio) {
    forall t :: t in s.threads && t in s'.threads ==>
      s'.threads[t].prio == s.threads[t].prio || s'.threads[t].prio == p < s.threads[t].prio
  }

  /** Threads that changed ran at exactly `q` and are now less urgent. */
  ghost predicate Relaxed(s: Sys, s': Sys, q: Prio) {
    forall t :: t in s.threads && t in s'.threads ==>
      s'.threads[t].prio == s.threads[t].prio || s.threads[t].prio == q < s'.threads[t].prio
  }

  /** `s'` results from `s` by a walk that started by changing a thread from `q` to `p`. */
  ghost predicate Walked(s: Sys, s': Sys, q: Prio, p: Prio) {
    && SameShape(s, s')
    && (p < q ==> Boosted(s, s', p))
    && (p > q ==> Relaxed(s, s', q))
  }

  /** Whatever changed from `s` to `s'` did so because a waiter of priority `p` arrived. */
  ghost predicate BoostedTo(s: Sys, s': Sys, p: Prio) {
    SameShape(s, s') && Boosted(s, s', p)
  }

  /** Whatever changed from `s` to `s'` did so because a waiter of priority `q` left. */
  ghost predicate RelaxedFrom(s: Sys, s': Sys, q: Prio) {
    SameShape(s, s') && Relaxed(s, s', q)
  }

  lemma Untouching(s: Sys, p: Prio)
    ensures BoostedTo(s, s, p) && RelaxedFrom(s, s, p)
  {}

  lemma WalkedOneWay(s: Sys, s': Sys, q: Prio, p: Prio)
    requires Walked(s, s', q, p)
    ensures p < q ==> BoostedTo(s, s', p)
    ensures p > q ==> RelaxedFrom(s, s', q)
  {
    hide SameShape, Boosted, Relaxed;
  }

  /** The threads the walk can still change: those less urgent than the boost, or still at the
      priority that is being given up. */
  ghost function Untouched(s: Sys, priority: Prio, q: Prio): set<ThreadCb> {
    set t | t in s.threads && (if priority < q then priority < s.threads[t].prio else s.threads[t].prio <= q)
  }

  lemma WalkStarts(s: Sys, t: ThreadCb, p: Prio)
    requires t in s.threads
    ensures Walked(s, SetPrio(s, t, p), s.threads[t].prio, p)
  {}

  /** A requeue inside a walk: `t` has already changed since `s0`, so its turn may change too. */
  lemma WalkRequeues(s0: Sys, s: Sys, t: ThreadCb, q0: Prio, p0: Prio)
    requires Walked(s0, s, q0, p0) && Waits(s, t) && t in s0.threads && s0.threads[t].prio != s.threads[t].prio
    ensures Walked(s0, Requeue(s, t), q0, p0)
    ensures Untouched(Requeue(s, t), p0, q0) == Untouched(s, p0, q0)
  {
    hide Resorted;
  }

  /** A further thread is changed in the direction of the walk. */
  lemma WalkContinues(s0: Sys, s: Sys, o: ThreadCb, q0: Prio, p0: Prio, p: Prio)
    requires Walked(s0, s, q0, p0) && o in s.threads && q0 != p0
    requires p0 < q0 ==> p == p0 < s.threads[o].prio
    requires q0 < p0 ==> s.threads[o].prio == q0 < p
    ensures Walked(s0, SetPrio(s, o, p), q0, p0) && s0.threads[o].prio != p
    ensures o in Untouched(s, p0, q0) && Untouched(SetPrio(s, o, p), p0, q0) < Untouched(s, p0, q0)
  {
    assert o !in Untouched(SetPrio(s, o, p), p0, q0);
  }

  lemma ResortedInSteps(ts: Threads, q: seq<ThreadCb>, t: ThreadCb, v: ThreadView)
    requires Distinct(q) && t in q && Known(ts, q)
    ensures Known(ts, Remove(q, t))
    ensures Insert(Remove(q, t), InsertPos(ts, Remove(q, t), ts[t].prio), t) == Resorted(ts, q, t)
    ensures Known(ts[t := v], Resorted(ts, q, t)) && Resorted(ts, q, t) != []
  {
    RemoveMembers(q, t);
    MembersKnown(ts, q, Remove(q, t));
    ResortedMembers(ts, q, t);
  }

  lemma RequeueInSteps(s: Sys, t: ThreadCb)
    requires Waits(s, t)
    ensures var m := s.threads[t].pending;
      var s1, q' := Drop(s, m, t), Resorted(s.threads, s.mutexes[m].waiters, t);
      && q' != [] && Known(s1.threads, s1.mutexes[m].waiters)
      && Enqueue(s1, m, t) == Sys(s.threads[t := s.threads[t].(stamp := s.clock)],
                                  s.mutexes[m := s.mutexes[m].(waiters := q')], s.clock + 1)
      && Known(Enqueue(s1, m, t).threads, q')
  {
    var m := s.threads[t].pending;
    var q := s.mutexes[m].waiters;
    ResortedInSteps(s.threads, q, t, s.threads[t].(stamp := s.clock));
    hide Insert, Remove, Resorted, InsertPos, Distinct, Known;
    assert Enqueue(Drop(s, m, t), m, t).mutexes == s.mutexes[m := s.mutexes[m].(waiters := Resorted(s.threads, q, t))];
  }

  lemma RequeueIsRecache(s: Sys, t: ThreadCb)
    requires Waits(s, t)
    ensures var m := s.threads[t].pending; var s1 := Drop(s, m, t);
      && Known(s1.threads, s1.mutexes[m].waiters)
      && Known(Enqueue(s1, m, t).threads, Enqueue(s1, m, t).mutexes[m].waiters)
      && Recache(Enqueue(s1, m, t), m) == Requeue(s, t)
  {
    RequeueInSteps(s, t);
    hide Enqueue, Resorted, Known;
    var m := s.threads[t].pending;
    assert Recache(Enqueue(Drop(s, m, t), m, t), m).mutexes == Requeue(s, t).mutexes;
  }

  /** The loop invariant of the walk: it started at `s0` by changing a thread from `q0` to `p0`, and
      has just changed `t` from `q`. */
  ghost predicate Carrying(s0: Sys, s: Sys, q0: Prio, p0: Prio, t: ThreadCb, q: Prio) {
    && Walked(s0, s, q0, p0) && Walking(s, t, q) && q0 != p0
    && t in s0.threads && s0.threads[t].prio != s.threads[t].prio
    && (p0 < q0 ==> s.threads[t].prio == p0 < q)
    && (q0 < p0 ==> q == q0 < s.threads[t].prio)
  }

  /** The outcome of one turn: `next` was changed from `q`, or nothing more has to change. */
  ghost predicate Turned(s0: Sys, s: Sys, s': Sys, q0: Prio, p0: Prio, ret: bool, next: ThreadCb, q: Prio) {
    && next in s'.threads
    && if ret then Carrying(s0, s', q0, p0, next, q) && Untouched(s', p0, q0) < Untouched(s, p0, q0)
       else Settled(s') && Walked(s0, s', q0, p0) && Untouched(s', p0, q0) == Untouched(s, p0, q0)
  }

  /** What one turn of the loop meets when the thread waits for a mutex. */
  lemma WalkTurn(s0: Sys, s: Sys, q0: Prio, p0: Prio, t: ThreadCb, q: Prio)
    requires Carrying(s0, s, q0, p0, t, q) && Waits(s, t)
    ensures var s', o := Requeue(s, t), s.mutexes[s.threads[t].pending].owner;
      && o != null && o in s'.threads && o in s.threads && s'.threads[o].prio == s.threads[o].prio
      && Closed(s') && Unsettled(s', o)
      && Walked(s0, s', q0, p0) && Untouched(s', p0, q0) == Untouched(s, p0, q0)
  {
    StructureWaits(s, t);
    RequeueStructure(s, t);
    RequeueQueues(s, t, q);
    RequeueOwners(s, t);
    WalkRequeues(s0, s, t, q0, p0);
  }

  /** What one turn of the loop does when the owner has to change. */
  lemma WalkAdvances(s0: Sys, s: Sys, q0: Prio, p0: Prio, t: ThreadCb, q: Prio, o: ThreadCb, p: Prio)
    requires Carrying(s0, s, q0, p0, t, q) && Waits(s, t)
    requires o == s.mutexes[s.threads[t].pending].owner && o in s.threads
    requires Closed(Requeue(s, t)) && o in Requeue(s, t).threads
    requires IsInherited(Requeue(s, t), o, p) && p != Requeue(s, t).threads[o].prio
    ensures Turned(s0, s, SetPrio(Requeue(s, t), o, p), q0, p0, true, o, Requeue(s, t).threads[o].prio)
  {
    WalkTurn(s0, s, q0, p0, t, q);
    WalkCarries(s, t, q, o, p);
    var s1 := Requeue(s, t);
    assert SetPrio(s1, o, p).threads[o].prio == p;
    assert (p0 < q0 ==> s.threads[t].prio == p0 < q) && (q0 < p0 ==> q == q0 < s.threads[t].prio) && q0 != p0;
    WalkedThreads(s0, s1, q0, p0);
    hide Requeue, Walked, Walking, Untouched, Closed, IsInherited, Unsettled, Settled, Waits, SetPrio;
    OwnerAdjusts(s1, o, p);
    WalkContinues(s0, s1, o, q0, p0, p);
  }

  lemma WalkStops(s0: Sys, s: Sys, q0: Prio, p0: Prio, t: ThreadCb, o: ThreadCb)
    requires Waits(s, t) && Closed(Requeue(s, t)) && Unsettled(Requeue(s, t), o) && Walked(s0, Requeue(s, t), q0, p0)
    requires IsInherited(Requeue(s, t), o, Requeue(s, t).threads[o].prio)
    requires Untouched(Requeue(s, t), p0, q0) == Untouched(s, p0, q0)
    ensures Turned(s0, s, Requeue(s, t), q0, p0, false, o, Requeue(s, t).threads[o].prio)
  {
    hide Requeue, Walked, Untouched, Waits;
  }

  lemma WalkedThreads(s0: Sys, s: Sys, q0: Prio, p0: Prio)
    requires Walked(s0, s, q0, p0)
    ensures s0.threads.Keys == s.threads.Keys
  {}

  lemma CarryWaits(s0: Sys, s: Sys, q0: Prio, p0: Prio, t: ThreadCb, q: Prio)
    requires Carrying(s0, s, q0, p0, t, q) && s.threads[t].suspended && s.threads[t].pending != null
    ensures Waits(s, t)
  {
    StructureWaits(s, t);
  }

  lemma CarryEnds(s0: Sys, s: Sys, q0: Prio, p0: Prio, t: ThreadCb, q: Prio)
    requires Carrying(s0, s, q0, p0, t, q) && (s.threads[t].suspended ==> s.threads[t].pending == null)
    ensures Settled(s) && Walked(s0, s, q0, p0)
  {
    WalkEnds(s, t, q);
  }

  // ------------------------------------------------------------------------------------------
  // The walk as a relation on states
  // ------------------------------------------------------------------------------------------

  /** The loop of _thread_update_priority, after `t` was given its new priority in `s`, ends in `s'`
      after at most `n` further changes of priority. */
  ghost predicate WalksTo(s: Sys, t: ThreadCb, n: nat, s': Sys)
    decreases n
  {
    if !(t in s.threads && s.threads[t].suspended && s.threads[t].pending != null) then s' == s
    else
      && Waits(s, t) && Closed(Requeue(s, t))
      && var r, o := Requeue(s, t), s.mutexes[s.threads[t].pending].owner;
        && o in r.threads
        && exists p :: IsInherited(r, o, p)
             && if p == r.threads[o].prio then s' == r else n > 0 && WalksTo(SetPrio(r, o, p), o, n - 1, s')
  }

  /** _thread_update_priority of `t` to `p`. */
  ghost predicate Walk(s: Sys, t: ThreadCb, p: Prio, s': Sys) {
    t in s.threads && exists n: nat :: WalksTo(SetPrio(s, t, p), t, n, s')
  }

  /** The next turn of a walk that is not over. */
  lemma WalkOpens(s: Sys, t: ThreadCb, n: nat, s': Sys) returns (o: ThreadCb, p: Prio)
    requires WalksTo(s, t, n, s') && t in s.threads && s.threads[t].suspended && s.threads[t].pending != null
    ensures Waits(s, t) && o == s.mutexes[s.threads[t].pending].owner && o in Requeue(s, t).threads
    ensures Closed(Requeue(s, t)) && IsInherited(Requeue(s, t), o, p)
    ensures if p == Requeue(s, t).threads[o].prio then s' == Requeue(s, t)
            else n > 0 && WalksTo(SetPrio(Requeue(s, t), o, p), o, n - 1, s')
  {
    hide Requeue, Closed, IsInherited, SetPrio;
    o := s.mutexes[s.threads[t].pending].owner;
    p :| IsInherited(Requeue(s, t), o, p)
      && if p == Requeue(s, t).threads[o].prio then s' == Requeue(s, t)
         else n > 0 && WalksTo(SetPrio(Requeue(s, t), o, p), o, n - 1, s');
  }

  lemma WalkIsOver(s: Sys, t: ThreadCb, n: nat, s': Sys)
    requires WalksTo(s, t, n, s') && t in s.threads && (s.threads[t].suspended ==> s.threads[t].pending == null)
    ensures s' == s
  {
    hide Requeue, Closed, IsInherited, SetPrio, Waits;
  }

  lemma {:induction false} WalkSettles(s0: Sys, s: Sys, q0: Prio, p0: Prio, t: ThreadCb, q: Prio, n: nat, s': Sys)
    requires Carrying(s0, s, q0, p0, t, q) && WalksTo(s, t, n, s')
    ensures Settled(s') && Walked(s0, s', q0, p0)
    decreases n
  {
    hide Requeue, Walked, Settled, Closed, IsInherited, Untouched, SetPrio, Unsettled, Waits, WalksTo, Walking;
    CarryKnows(s0, s, q0, p0, t, q);
    if s.threads[t].suspended && s.threads[t].pending != null {
      var o, p := WalkOpens(s, t, n, s');
      WalkTurn(s0, s, q0, p0, t, q);
      hide Carrying;
      if p == Requeue(s, t).threads[o].prio {
        WalkStops(s0, s, q0, p0, t, o);
      } else {
        WalkAdvances(s0, s, q0, p0, t, q, o, p);
        WalkSettles(s0, SetPrio(Requeue(s, t), o, p), q0, p0, o, Requeue(s, t).threads[o].prio, n - 1, s');
      }
    } else {
      WalkIsOver(s, t, n, s');
      CarryEnds(s0, s, q0, p0, t, q);
    }
  }

  lemma CarryKnows(s0: Sys, s: Sys, q0: Prio, p0: Prio, t: ThreadCb, q: Prio)
    requires Carrying(s0, s, q0, p0, t, q)
    ensures t in s.threads
  {}

  /** Every walk that starts where only `t` runs at a wrong priority settles the system. */
  lemma WalkKeeps(s: Sys, t: ThreadCb, p: Prio, s': Sys)
    requires Unsettled(s, t) && IsInherited(s, t, p) && p != s.threads[t].prio && Walk(s, t, p, s')
    ensures Settled(s') && Walked(s, s', s.threads[t].prio, p)
  {
    var n: nat :| WalksTo(SetPrio(s, t, p), t, n, s');
    OwnerAdjusts(s, t, p);
    WalkStarts(s, t, p);
    hide Walked, Settled, Walking, WalksTo, Unsettled, IsInherited;
    WalkSettles(s, SetPrio(s, t, p), s.threads[t].prio, p, t, s.threads[t].prio, n, s');
  }

  // ------------------------------------------------------------------------------------------
  // The walk turn by turn
  // ------------------------------------------------------------------------------------------

  /** One turn of the loop: `t` is sorted in again, and the owner `o` of its mutex changed if `ret`. */
  ghost predicate Turn(s: Sys, t: ThreadCb, ret: bool, o: ThreadCb, p: Prio, s': Sys) {
    && t in s.threads && s.threads[t].suspended && s.threads[t].pending != null && Waits(s, t) && Closed(Requeue(s, t))
    && o == s.mutexes[s.threads[t].pending].owner && o in Requeue(s, t).threads && IsInherited(Requeue(s, t), o, p)
    && ret == (p != Requeue(s, t).threads[o].prio)
    && s' == if ret then SetPrio(Requeue(s, t), o, p) else Requeue(s, t)
  }

  /** After `n` turns that change a thread, the walk is at `f`, having changed `u`. */
  ghost predicate Turns(s: Sys, t: ThreadCb, n: nat, f: Sys, u: ThreadCb)
    decreases n
  {
    if n == 0 then s == f && t == u
    else
      && t in s.threads && s.threads[t].suspended && s.threads[t].pending != null && Waits(s, t)
      && var o := s.mutexes[s.threads[t].pending].owner;
        && o != null && o in Requeue(s, t).threads
        && exists p ::
          Turn(s, t, true, o, p, SetPrio(Requeue(s, t), o, p)) && Turns(SetPrio(Requeue(s, t), o, p), o, n - 1, f, u)
  }

  lemma {:induction false} TurnsAppend(s: Sys, t: ThreadCb, n: nat, f: Sys, u: ThreadCb, o: ThreadCb, p: Prio, f': Sys)
    requires Turns(s, t, n, f, u) && Turn(f, u, true, o, p, f')
    ensures Turns(s, t, n + 1, f', o)
    decreases n
  {
    hide Requeue, SetPrio, Closed, IsInherited;
    if n == 0 {
      assert Turns(f', o, 0, f', o);
    } else {
      var c := s.mutexes[s.threads[t].pending].owner;
      var r :| Turn(s, t, true, c, r, SetPrio(Requeue(s, t), c, r))
      && Turns(SetPrio(Requeue(s, t), c, r), c, n - 1, f, u);
      hide Turn;
      TurnsAppend(SetPrio(Requeue(s, t), c, r), c, n - 1, f, u, o, p, f');
    }
  }

  lemma {:induction false} TurnsEnd(s: Sys, t: ThreadCb, n: nat, f: Sys, u: ThreadCb, s': Sys)
    requires Turns(s, t, n, f, u) && WalksTo(f, u, 0, s')
    ensures WalksTo(s, t, n, s')
    decreases n
  {
    hide Requeue, SetPrio, Closed, IsInherited;
    if n > 0 {
      var c := s.mutexes[s.threads[t].pending].owner;
      var r :| Turn(s, t, true, c, r, SetPrio(Requeue(s, t), c, r))
      && Turns(SetPrio(Requeue(s, t), c, r), c, n - 1, f, u);
      TurnsEnd(SetPrio(Requeue(s, t), c, r), c, n - 1, f, u, s');
    }
  }

  /** The last turn, which changes nobody. */
  lemma TurnStops(s: Sys, t: ThreadCb, o: ThreadCb, p: Prio, s': Sys)
    requires Turn(s, t, false, o, p, s')
    ensures WalksTo(s, t, 0, s')
  {
    hide Requeue, SetPrio, Waits, Closed, IsInherited;
  }

  lemma NoTurn(s: Sys, t: ThreadCb)
    requires t in s.threads ==> s.threads[t].suspended ==> s.threads[t].pending == null
    ensures WalksTo(s, t, 0, s)
  {}
}
