/** The single-core scheduler of scheduler_up.c and scheduler_comm.c.  Each method runs with interrupts
    disabled and is one step. */
module Scheduling {
  import opened Sequences
  import opened PriorityBitmap
  import opened ReadyQueue

  datatype Status = Ok | Invalid

  class Scheduler {
    /** rt_thread_priority_table, rt_thread_ready_table and rt_thread_ready_priority_group. */
    var lists: Lists
    var table: Table
    var group: bv32
    /** rt_cpu_self()->current_thread and rt_current_priority. */
    var current: SchedCtx
    var currentPriority: bv8
    /** rt_scheduler_lock_nest and rt_scheduler_critical_switch_flag. */
    var lockNest: int
    var switchPending: bool
    /** The started threads, and those in the ready lists. */
    ghost var threads: set<SchedCtx>
    ghost var ready: set<SchedCtx>

    /** Lists, bitmap and masks agree. */
    ghost predicate Queues()
      reads `lists, `table, `group, `threads, `ready, threads`prio, threads`number, threads`numberMask, threads`highMask
    {
      && Agrees(lists, table, group)
      && ready <= threads && Holds(lists, ready)
      && forall t :: t in threads ==> t.Masks()
    }

    ghost predicate Valid()
      reads this, threads
    {
      && Queues()
      && current in threads && current.state != Ready
      && (forall t :: t in threads ==> (t in ready <==> t.state == Ready))
      && (forall t :: t in threads && t.state == Running ==> t == current)
      && lockNest >= 0 && (switchPending ==> lockNest > 0)
    }

    /** No ready thread is more urgent than the one running. */
    ghost predicate NoneMoreUrgent()
      requires |lists| == 256
      reads `lists, `current, current`prio
    {
      AtLeast(lists, current.prio)
    }

    /** rt_system_scheduler_init, the start-up of the threads in their order, and rt_system_scheduler_start:
        of the most urgent threads the one readied last runs first. */
    constructor (started: seq<SchedCtx>)
      requires started != [] && Distinct(started)
      requires forall t :: t in started ==> t.Masks() && t.state == Suspended && !t.yielding
      modifies (set t | t in started)`state
      ensures Valid() && threads == (set t | t in started) && ready == threads - {current} && current.state == Running
      ensures |lists| == 256 && NoneMoreUrgent() && lockNest == 0
      ensures var l, h := StartLists(started), current.prio;
        ListAt(l, h) != [] && current == ListAt(l, h)[0] && lists == SetList(l, h, ListAt(l, h)[1..])
    {
      hide Agrees, Holds, ListAt, SetList, AtLeast, SchedCtx.Masks, Number, NumberMask, HighMask;
      lists := seq(256, _ => []);
      table := seq(32, _ => 0);
      group := 0;
      /* No thread runs yet; the source has no current thread. */
      current := new SchedCtx(0, 255);
      currentPriority := 255;
      lockNest, switchPending := 0, false;
      threads, ready := set t | t in started, {};
      new;
      NoneReady();
      Boot(started);
    }

    method Boot(started: seq<SchedCtx>)
      requires Queues() && ready == {} && threads == (set t | t in started) && current !in threads && Distinct(started)
      requires lists == StartLists([]) && started != []
      requires forall t :: t in started ==> t.state == Suspended && !t.yielding
      requires lockNest == 0 && !switchPending
      modifies this`lists, this`table, this`group, this`ready, this`current, this`currentPriority, threads`state
      ensures Valid() && ready == threads - {current} && current.state == Running && |lists| == 256 && NoneMoreUrgent()
      ensures var l, h := StartLists(started), current.prio;
        ListAt(l, h) != [] && current == ListAt(l, h)[0] && lists == SetList(l, h, ListAt(l, h)[1..])
    {
      hide Scheduler.Queues, ListAt, SetList, AtLeast;
      assert started[0] in threads;
      StartUp(started);
      Start();
    }

    /** The threads become ready one after the other, before any of them runs. */
    method StartUp(started: seq<SchedCtx>)
      requires Queues() && ready == {} && threads == (set t | t in started) && current !in threads && Distinct(started)
      requires lists == StartLists([]) && forall t :: t in started ==> t.state == Suspended && !t.yielding
      modifies this`lists, this`table, this`group, this`ready, threads`state
      ensures Queues() && ready == threads && lists == StartLists(started)
      ensures forall t :: t in threads ==> t.state == Ready
    {
      hide Scheduler.Queues, ListAt, SetList;
      for k := 0 to |started|
        invariant Queues() && ready <= threads && lists == StartLists(started[..k])
        invariant forall j :: 0 <= j < |started| ==> (started[j] in ready <==> j < k)
        invariant forall t :: t in ready ==> t.state == Ready
      {
        assert started[..k + 1][..k] == started[..k];
        assert started[k] in threads;
        Insert(started[k]);
      }
      assert started[..|started|] == started;
    }

    /** rt_system_scheduler_start. */
    method Start()
      requires Queues() && ready == threads != {} && current !in threads && lockNest == 0 && !switchPending
      requires forall t :: t in threads ==> t.state == Ready
      modifies this`lists, this`table, this`group, this`ready, this`current, this`currentPriority, threads`state
      ensures Valid() && current.state == Running && ready == threads - {current} && |lists| == 256 && NoneMoreUrgent()
      ensures |old(lists)| == 256
      ensures var l, h := old(lists), current.prio;
        ListAt(l, h) != [] && current == ListAt(l, h)[0] && lists == SetList(l, h, ListAt(l, h)[1..])
    {
      hide Scheduler.Queues, IsMostUrgent, AtLeast, SetList, ListAt, Highest, GroupOk, LeftOut;
      Lookup();
      var h := Highest(table, group);
      UrgentIsLeast(lists, h);
      FirstIsReady(h);
      var to := ListAt(lists, h)[0];
      SetAtLeast(lists, h, Without(ListAt(lists, h), to), h);
      current, currentPriority := to, h;
      Remove(to);
      to.state := Running;
    }

    /** A thread that was initialized is started; ThreadReady makes it ready. */
    ghost method Adopt(t: SchedCtx)
      requires Valid() && t.Masks() && t.state == Suspended && t !in threads
      modifies this`threads
      ensures Valid() && threads == old(threads) + {t}
    {
      hide Agrees, Holds, SchedCtx.Masks;
      threads := threads + {t};
    }

    // ----------------------------------------------------------------------------------------
    // The ready lists
    // ----------------------------------------------------------------------------------------

    /** rt_sched_insert_thread. */
    method Insert(t: SchedCtx)
      requires Queues() && t in threads && t !in ready
      modifies this`lists, this`table, this`group, this`ready, t`state
      ensures Queues()
      ensures t == current ==> t.state == Running && unchanged(`lists, `table, `group, `ready)
      ensures t != current ==> t.state == Ready && ready == old(ready) + {t}
      ensures t != current ==>
        |old(lists)| == 256 && lists == SetList(old(lists), t.prio, Inserted(ListAt(old(lists), t.prio), t, t.yielding))
      ensures t != current ==>
        var l := ListAt(old(lists), t.prio);
        ListAt(lists, t.prio) == if t.yielding then l + [t] else [t] + l
    {
      hide Holds, SetList, ListAt, SetByte, ByteAt, ByteWith, With, Number, HighMask, NumberMask, GroupOk, Marked;
      if t == current {
        t.state := Running;
        return;
      }
      InsertAgrees(lists, table, group, t.prio, Inserted(ListAt(lists, t.prio), t, t.yielding));
      InsertHolds(lists, ready, t, t.yielding);
      SetListAt(lists, t.prio, Inserted(ListAt(lists, t.prio), t, t.yielding), t.prio);
      hide Agrees;
      t.state := Ready;
      if t.yielding {
        lists := SetList(lists, t.prio, ListAt(lists, t.prio) + [t]);
      } else {
        lists := SetList(lists, t.prio, [t] + ListAt(lists, t.prio));
      }
      table := SetByte(table, t.number, ByteWith(ByteAt(table, t.number), t.highMask));
      group := With(group, t.numberMask);
      ready := ready + {t};
    }

    /** rt_sched_remove_thread; a thread in no list is left alone. */
    method Remove(t: SchedCtx)
      requires Queues() && t in threads
      modifies this`lists, this`table, this`group, this`ready
      ensures Queues() && ready == old(ready) - {t}
      ensures |old(lists)| == 256 && lists == SetList(old(lists), t.prio, Without(ListAt(old(lists), t.prio), t))
      ensures t in old(ready) ==> LeftOut(ListAt(old(lists), t.prio), t, ListAt(lists, t.prio))
    {
      hide Holds, SetList, ListAt, Without, SetByte, ByteAt, ByteLess, Less, Number, HighMask, NumberMask, GroupOk,
        Marked, IsZero;
      var l := Unlinked(ListAt(lists, t.prio), t);
      SetListAt(lists, t.prio, l, t.prio);
      AtItsPriority(t);
      WithoutEmpty(ListAt(lists, t.prio), t);
      RemoveAgrees(lists, table, group, t.prio, l);
      RemoveHolds(lists, ready, t);
      hide Agrees;
      lists := SetList(lists, t.prio, l);
      if l == [] {
        table := SetByte(table, t.number, ByteLess(ByteAt(table, t.number), t.highMask));
        if IsZero(ByteAt(table, t.number)) {
          group := Less(group, t.numberMask);
        }
      }
      ready := ready - {t};
    }

    lemma AtItsPriority(t: SchedCtx)
      requires Queues()
      ensures |lists| == 256 && (t in ready ==> t in ListAt(lists, t.prio))
    {
      Sized();
      hide Agrees;
    }

    /** rt_list_remove. */
    static method Unlinked(l: seq<SchedCtx>, t: SchedCtx) returns (r: seq<SchedCtx>)
      ensures r == Without(l, t) && if t in l then LeftOut(l, t, r) else r == l
    {
      var i := 0;
      while i < |l| && l[i] != t
        invariant i <= |l| && t !in l[..i] && Without(l, t) == l[..i] + Without(l[i..], t)
      {
        assert l[i..][1..] == l[i + 1..];
        assert l[..i + 1] == l[..i] + [l[i]];
        i := i + 1;
      }
      r := if i < |l| then l[..i] + l[i + 1..] else l;
      if i < |l| {
        assert l[i..][1..] == l[i + 1..];
      }
    }

    // ----------------------------------------------------------------------------------------
    // rt_schedule
    // ----------------------------------------------------------------------------------------

    /** The running thread goes on in spite of a ready thread at priority `h`. */
    predicate Stays(h: bv8)
      reads `current, current
    {
      current.state == Running && (current.prio < h || (current.prio == h && !current.yielding))
    }

    /** The first thread of priority `h` takes over; the old one, if it was running, becomes ready. */
    twostate predicate TookOver(h: bv8)
      requires |old(lists)| == 256 && current in threads && old(current) in threads
      reads this, threads
    {
      var to, from := current, old(current);
      && ListAt(old(lists), h) != [] && to == ListAt(old(lists), h)[0] && to != from
      && currentPriority == h && to.state == Running && !from.yielding
      && (if old(from.state) == Running then
            from.state == Ready && ready == old(ready) + {from} - {to}
            && lists == SetList(SetList(old(lists), from.prio,
                Inserted(ListAt(old(lists), from.prio), from, old(from.yielding))), h,
                 Without(ListAt(SetList(old(lists), from.prio,
                     Inserted(ListAt(old(lists), from.prio), from, old(from.yielding))), h), to))
          else
            from.state == old(from.state) && ready == old(ready) - {to}
            && lists == SetList(old(lists), h, Without(ListAt(old(lists), h), to)))
    }

    method SwitchTo(to: SchedCtx, h: bv8, insert: bool)
      requires Valid() && lockNest == 0 && |lists| == 256 && ListAt(lists, h) != [] && to == ListAt(lists, h)[0]
      requires insert == (current.state == Running)
      modifies this`lists, this`table, this`group, this`ready, this`current, this`currentPriority
      modifies current`state, current`yielding, to`state
      ensures Valid() && TookOver(h) && to.prio == h
    {
      hide Scheduler.Queues, SetList, Inserted, Without, ListAt, LeftOut;
      FirstIsReady(h);
      var from := current;
      currentPriority := h;
      current := to;
      StandBack(from, insert);
      Remove(to);
      to.state := Running;
    }

    /** The thread that ran becomes ready, if it was running, and loses its yield flag. */
    method StandBack(from: SchedCtx, insert: bool)
      requires Queues() && from in threads && from !in ready && from != current
      modifies this`lists, this`table, this`group, this`ready, from`state, from`yielding
      ensures Queues() && !from.yielding && |old(lists)| == 256
      ensures if insert then
          from.state == Ready && ready == old(ready) + {from}
          && lists == SetList(old(lists), from.prio, Inserted(ListAt(old(lists), from.prio), from, old(from.yielding)))
        else from.state == old(from.state) && unchanged(`lists, `ready)
    {
      hide Scheduler.Queues, SetList, Inserted, ListAt;
      Sized();
      if insert {
        Insert(from);
      }
      if from.yielding {
        from.yielding := false;
      }
    }

    lemma FirstIsReady(h: bv8)
      requires Queues() && |lists| == 256 && ListAt(lists, h) != []
      ensures ListAt(lists, h)[0] in ready && ListAt(lists, h)[0] in threads && ListAt(lists, h)[0].prio == h
        && |lists| == 256
    {
      assert ListAt(lists, h)[0] in ListAt(lists, h);
    }

    twostate predicate Unchanged()
      reads this, threads
    {
      && lists == old(lists) && table == old(table) && group == old(group) && ready == old(ready)
      && threads == old(threads)
      && current == old(current) && lockNest == old(lockNest) && switchPending == old(switchPending)
      && forall t :: t in threads ==> t.state == old(t.state) && t.yielding == old(t.yielding)
    }

    /** What a call of rt_schedule does when the scheduler is not locked and a thread is ready; `h` is the
        most urgent priority of those. */
    twostate predicate Rescheduled(h: bv8)
      requires |old(lists)| == 256 && current in threads && old(current) in threads
      reads this, threads
    {
      if old(Stays(h)) then
        lists == old(lists) && ready == old(ready) && current == old(current) && threads == old(threads)
        && forall t :: t in old(threads) ==> t.state == old(t.state) && t.yielding == old(t.yielding)
      else
        TookOver(h)
    }

    /** rt_schedule: with the scheduler unlocked, the most urgent thread runs. */
    method Schedule()
      requires Valid()
      modifies this`lists, this`table, this`group, this`ready, this`current, this`currentPriority, this`switchPending
      modifies threads`state, threads`yielding
      ensures Valid() && |old(lists)| == |lists| == 256 && old(current) in threads
      ensures lockNest > 0 ==>
        switchPending && unchanged(`lists, `table, `group, `ready, `current) && unchanged(threads)
      ensures lockNest == 0 && old(ready) == {} ==> Unchanged()
      ensures lockNest == 0 ==> forall h: bv8 :: IsMostUrgent(old(lists), h) ==> Rescheduled(h)
      ensures lockNest == 0 && old(ready) != {} ==> current.state == Running && NoneMoreUrgent()
      // The running thread goes on if and only if no ready thread is more urgent, nor, if it yields, as urgent.
      ensures lockNest == 0 && old(current.state) == Running ==> Unaltered() || SomeoneAhead()
      ensures lockNest == 0 && old(ready) != {} && current == old(current) ==>
        old(current.state) == Running && !SomeoneAhead()
      // The first of the most urgent threads takes over; the old one goes in front of its peers, or last if it yields.
      ensures lockNest == 0 && current != old(current) ==> FirstTookOver() && OldOneStands()
    {
      hide Scheduler.Queues, IsMostUrgent, AtLeast, ListAt, Highest, GroupOk, Scheduler.FirstTookOver,
        Scheduler.OldOneStands, Scheduler.SomeoneAhead, Scheduler.TookOver, Scheduler.Stays, Scheduler.NoneMoreUrgent;
      Lookup();
      if lockNest == 0 {
        if group != 0 {
          DispatchFirst(Highest(table, group));
        }
      } else {
        switchPending := true;
      }
    }

    method DispatchFirst(h: bv8)
      requires Valid() && lockNest == 0 && |lists| == 256 && IsMostUrgent(lists, h) && ready != {}
      modifies this`lists, this`table, this`group, this`ready, this`current, this`currentPriority
      modifies threads`state, threads`yielding
      ensures Valid() && |old(lists)| == |lists| == 256 && old(current) in threads
      ensures forall k: bv8 :: IsMostUrgent(old(lists), k) ==> Rescheduled(k)
      ensures current.state == Running && NoneMoreUrgent()
      ensures old(current.state) == Running ==> Unaltered() || SomeoneAhead()
      ensures current == old(current) ==> old(current.state) == Running && !SomeoneAhead()
      ensures current != old(current) ==> FirstTookOver() && OldOneStands()
    {
      hide Scheduler.Queues, AtLeast, ListAt, Scheduler.FirstTookOver, IsMostUrgent,
        Scheduler.OldOneStands, Scheduler.SomeoneAhead, Scheduler.TookOver, Scheduler.NoneMoreUrgent,
        Scheduler.Unaltered, Scheduler.Rescheduled;
      UrgentFacts(h);
      assert ready <= threads && current !in ready by {
        InThreads();
      }
      Dispatch(h);
      RescheduledMeans(h);
      if current != old(current) {
        TookOverMeans(h);
      }
    }

    lemma InThreads()
      requires Valid()
      ensures ready <= threads && current !in ready
    {
      hide Agrees, Holds, SchedCtx.Masks;
    }

    lemma UrgentFacts(h: bv8)
      requires Queues() && |lists| == 256 && IsMostUrgent(lists, h)
      ensures (forall k: bv8 :: IsMostUrgent(lists, k) ==> k == h) && AtLeast(lists, h) && ListAt(lists, h) != []
      ensures ListAt(lists, h)[0] in ready && ListAt(lists, h)[0].prio == h
      ensures (forall t :: t in ready ==> h <= t.prio) && exists t :: t in ready && t.prio == h
    {
      hide Scheduler.Queues, ListAt;
      OnlyOne(lists, h);
      UrgentIsLeast(lists, h);
      FirstIsReady(h);
      ReadyAtLeast(h);
    }

    lemma ReadyAtLeast(h: bv8)
      requires Queues() && |lists| == 256 && IsMostUrgent(lists, h)
      ensures (forall t :: t in ready ==> h <= t.prio) && exists t :: t in ready && t.prio == h
    {
      FirstIsReady(h);
      forall t | t in ready ensures h <= t.prio {
        assert t in ListAt(lists, t.prio);
      }
    }

    twostate predicate Unaltered()
      reads this, threads
    {
      && lists == old(lists) && ready == old(ready) && current == old(current) && threads == old(threads)
      && forall t :: t in old(threads) ==> t.state == old(t.state) && t.yielding == old(t.yielding)
    }

    /** A ready thread was more urgent than the one running, or as urgent as one that yields. */
    twostate predicate SomeoneAhead()
      requires old(current) in threads && old(ready) <= threads
      reads this, threads
    {
      exists t ::
        t in old(ready) && (t.prio < old(current).prio || (t.prio == old(current).prio && old(current.yielding)))
    }

    /** The thread that runs now was the first of its list, which it left. */
    twostate predicate FirstTookOver()
      requires current in threads && old(current) in threads
      reads this, threads
    {
      && |old(lists)| == |lists| == 256 && current in old(ready) && current.state == Running && !old(current).yielding
      && ListAt(old(lists), current.prio) != [] && current == ListAt(old(lists), current.prio)[0]
      && ready == old(ready) - {current} + (if old(current.state) == Running then {old(current)} else {})
      && old(current).state == (if old(current.state) == Running then Ready else old(current.state))
    }

    twostate predicate OldOneStands()
      requires |old(lists)| == |lists| == 256 && current in threads && old(current) in threads
      requires ListAt(old(lists), current.prio) != []
      reads this, threads
    {
      var from, h, k := old(current), current.prio, old(current).prio;
      && (old(current.state) == Running && k != h ==>
            && ListAt(lists, h) == ListAt(old(lists), h)[1..]
            && ListAt(lists, k) ==
                 if old(current.yielding) then ListAt(old(lists), k) + [from] else [from] + ListAt(old(lists), k))
      && (old(current.state) == Running && k == h ==> ListAt(lists, h) == ListAt(old(lists), h)[1..] + [from])
      && (old(current.state) != Running ==> ListAt(lists, h) == ListAt(old(lists), h)[1..])
      && forall q: bv8 ::
           q != h && (q != k || old(current.state) != Running) ==> ListAt(lists, q) == ListAt(old(lists), q)
    }

    twostate lemma RescheduledMeans(h: bv8)
      requires |old(lists)| == |lists| == 256 && threads == old(threads) && old(ready) <= threads
      requires current in threads && old(current) in threads && Rescheduled(h)
      requires (forall t :: t in old(ready) ==> h <= t.prio) && exists t :: t in old(ready) && t.prio == h
      requires forall t :: t in threads ==> t.prio == old(t.prio)
      ensures old(current.state) == Running ==> Unaltered() || SomeoneAhead()
      ensures current == old(current) ==> old(current.state) == Running && !SomeoneAhead()
      ensures current != old(current) ==> TookOver(h) && !old(Stays(h))
    {
      hide ListAt, SetList, Inserted, Without;
    }

    twostate lemma TookOverMeans(h: bv8)
      requires |old(lists)| == |lists| == 256 && current in threads && old(current) in threads && TookOver(h)
      requires threads == old(threads) && forall t :: t in threads ==> t.prio == old(t.prio)
      requires ListAt(old(lists), h) != []
        && ListAt(old(lists), h)[0] in old(ready) && ListAt(old(lists), h)[0].prio == h
      requires old(current) !in old(ready) && !old(Stays(h))
      ensures FirstTookOver() && OldOneStands()
    {
      hide ListAt, SetList, Inserted, Without;
      SwitchedLists(old(lists), h, old(current).prio, old(current), old(current.yielding));
    }

    /** The branch of rt_schedule that looks at the most urgent ready thread. */
    method Dispatch(h: bv8)
      requires Valid() && lockNest == 0 && |lists| == 256 && ListAt(lists, h) != [] && AtLeast(lists, h)
      modifies this`lists, this`table, this`group, this`ready, this`current, this`currentPriority
      modifies threads`state, threads`yielding
      ensures Valid() && old(current) in threads && Rescheduled(h)
      ensures |lists| == 256 && current.state == Running && NoneMoreUrgent()
    {
      hide Scheduler.Queues, AtLeast, ListAt, Scheduler.TookOver, Scheduler.NoneMoreUrgent;
      FirstIsReady(h);
      var to := ListAt(lists, h)[0];
      var insert := false;
      if current.state == Running {
        if current.prio < h {
          to := current;
        } else if current.prio == h && !current.yielding {
          to := current;
        } else {
          insert := true;
        }
      }
      if to != current {
        Replace(to, h, insert);
      } else {
        GoOn(h);
      }
    }

    method Replace(to: SchedCtx, h: bv8, insert: bool)
      requires Valid() && lockNest == 0 && |lists| == 256 && ListAt(lists, h) != [] && to == ListAt(lists, h)[0]
      requires insert == (current.state == Running) && AtLeast(lists, h) && (insert ==> h <= current.prio)
      modifies this`lists, this`table, this`group, this`ready, this`current, this`currentPriority
      modifies current`state, current`yielding, to`state
      ensures Valid() && TookOver(h) && current.state == Running && |lists| == 256 && NoneMoreUrgent()
    {
      hide Scheduler.Queues, AtLeast, SetList, ListAt, Without, Inserted;
      StaysAtLeast(to, h);
      SwitchTo(to, h, insert);
    }

    /** The running thread goes on: it is taken off the ready lists, where it is not. */
    method GoOn(ghost h: bv8)
      requires Valid() && current.state == Running && |lists| == 256 && AtLeast(lists, h) && current.prio <= h
      modifies this`lists, this`table, this`group, this`ready, current`state
      ensures Valid() && current.state == Running && lists == old(lists) && ready == old(ready) && |lists| == 256
        && NoneMoreUrgent()
    {
      hide Scheduler.Queues, SetList, ListAt, Without, AtLeast, LeftOut;
      LowerAtLeast(lists, h, current.prio);
      RemoveNothing();
      Remove(current);
      current.state := Running;
    }

    /** Whatever list the switch changes, nothing above `h` becomes ready. */
    lemma StaysAtLeast(to: SchedCtx, h: bv8)
      requires |lists| == 256 && AtLeast(lists, h)
      ensures AtLeast(SetList(lists, h, Without(ListAt(lists, h), to)), h)
      ensures h <= current.prio ==>
        var l := SetList(lists, current.prio, Inserted(ListAt(lists, current.prio), current, current.yielding));
        AtLeast(SetList(l, h, Without(ListAt(l, h), to)), h)
    {
      hide AtLeast, SetList, ListAt, Without, Inserted;
      SetAtLeast(lists, h, Without(ListAt(lists, h), to), h);
      if h <= current.prio {
        var l := SetList(lists, current.prio, Inserted(ListAt(lists, current.prio), current, current.yielding));
        SetAtLeast(lists, current.prio, Inserted(ListAt(lists, current.prio), current, current.yielding), h);
        SetAtLeast(l, h, Without(ListAt(l, h), to), h);
      }
    }

    /** Taking the running thread off the lists changes nothing. */
    lemma RemoveNothing()
      requires Queues() && current !in ready
      ensures |lists| == 256 && SetList(lists, current.prio, Without(ListAt(lists, current.prio), current)) == lists
      ensures ready - {current} == ready
    {
      assert current !in ListAt(lists, current.prio);
      WithoutIs(ListAt(lists, current.prio), current);
    }

    /** What the bitmap tells. */
    lemma Lookup()
      requires Queues()
      ensures |lists| == 256 && |table| == 32 && (group == 0 <==> ready == {})
      ensures group != 0 ==>
        GroupOk(group, table) && IsMostUrgent(lists, Highest(table, group))
        && ListAt(lists, Highest(table, group)) != []
      ensures group != 0 ==>
        ListAt(lists, Highest(table, group))[0] in ready && ListAt(lists, Highest(table, group))[0] in threads
      ensures group == 0 ==> forall h: bv8 :: !IsMostUrgent(lists, h)
    {
      NobodyReady(lists, table, group);
      forall t | t in ready ensures ListAt(lists, t.prio) != [] {
        assert t in ListAt(lists, t.prio);
      }
      if group != 0 {
        HighestIsMostUrgent(lists, table, group);
        FirstIsReady(Highest(table, group));
      }
    }

    // ----------------------------------------------------------------------------------------
    // Slices
    // ----------------------------------------------------------------------------------------

    /** rt_sched_thread_yield. */
    method Yield(t: SchedCtx)
      requires Valid() && t in threads
      modifies t`remainingTick, t`yielding
      ensures Valid() && t.remainingTick == t.initTick && t.yielding
    {
      hide Scheduler.Queues;
      t.remainingTick := t.initTick;
      t.yielding := true;
    }

    /** The running thread and its peers at priority `h`, in the order in which they get their slices. */
    ghost function Group(h: bv8): seq<SchedCtx>
      requires |lists| == 256
      reads this
    {
      [current] + ListAt(lists, h)
    }

    /** The group of peers of the thread that was running has made a turn: it goes to the end, and the
        first of the others runs.  No other list changes. */
    twostate predicate Turned()
      requires |old(lists)| == |lists| == 256
      reads this
    {
      var h := old(current.prio);
      && [current] + ListAt(lists, h) == ListAt(old(lists), h) + [old(current)]
      && forall q: bv8 :: q != h ==> ListAt(lists, q) == ListAt(old(lists), q)
    }

    /** The slice of the running thread ends. */
    method Expire()
      requires Valid() && current.state == Running
      modifies this`lists, this`table, this`group, this`ready, this`current, this`currentPriority, this`switchPending
      modifies threads`state, threads`yielding, current`remainingTick
      ensures Valid() && |old(lists)| == |lists| == 256
      ensures old(current).remainingTick == old(current).initTick
      ensures lockNest > 0 ==> switchPending && current.yielding && unchanged(`lists, `current, `ready)
      ensures lockNest == 0 && old(ready) != {} ==> current.state == Running && NoneMoreUrgent()
      ensures lockNest == 0 && IsMostUrgent(old(lists), old(current.prio)) ==>
        Turned() && lists == SetList(old(lists), old(current.prio), ListAt(lists, old(current.prio)))
      ensures lockNest == 0 && (forall h: bv8 :: IsMostUrgent(old(lists), h) ==> old(current.prio) < h) ==>
        current == old(current) && lists == old(lists) && current.yielding
    {
      hide Scheduler.Queues, IsMostUrgent, AtLeast, ListAt, SetList, GroupOk, Highest, Turn, Without, Inserted,
        Scheduler.TookOver;
      Sized();
      ghost var h, l := current.prio, lists;
      Lookup();
      ghost var top := if group != 0 then Highest(table, group) else h;
      Yield(current);
      label Yielded:
      Schedule();
      if lockNest == 0 && IsMostUrgent(l, h) {
        assert Rescheduled@Yielded(h);
        PeerTookOver@Yielded(h);
      }
      if lockNest == 0 && IsMostUrgent(l, top) {
        assert Rescheduled@Yielded(top);
      }
    }

    /** When a peer takes over from a running thread that yields, the group makes a turn. */
    twostate lemma PeerTookOver(h: bv8)
      requires |old(lists)| == |lists| == 256 && current in threads && old(current) in threads
      requires h == old(current.prio) == old(current).prio && IsMostUrgent(old(lists), h)
      requires old(current.state) == Running && old(current.yielding) && TookOver(h)
      ensures Turned() && lists == SetList(old(lists), h, ListAt(lists, h))
    {
      PeersTurn(old(lists), h, old(current));
      hide IsMostUrgent, ListAt, SetList, Turn, Without, Inserted;
      forall q: bv8 | q != h ensures ListAt(lists, q) == ListAt(old(lists), q) {
        SetListAt(old(lists), h, ListAt(lists, h), q);
      }
    }

    lemma NextOfGroup(h: bv8)
      requires Valid() && |lists| == 256 && IsMostUrgent(lists, h)
      ensures ready != {} && ListAt(lists, h) != [] && Turn(Group(h)) != [] && Turn(Group(h))[0] == ListAt(lists, h)[0]
      ensures ListAt(lists, h)[0].prio == h && |Turn(Group(h))| == |Group(h)|
    {
      FirstIsReady(h);
      hide ListAt;
    }

    lemma StillReady(l: Lists, h: bv8)
      requires |lists| == |l| == 256 && IsMostUrgent(l, h) && |ListAt(lists, h)| == |ListAt(l, h)|
      requires current.prio == h && NoneMoreUrgent()
      ensures IsMostUrgent(lists, h)
    {
      hide ListAt;
    }

    /** A slice ends while peers of the running thread are ready and nobody more urgent. */
    method ExpireAmongPeers(ghost h: bv8)
      requires Valid() && current.state == Running && lockNest == 0 && |lists| == 256
      requires h == current.prio && IsMostUrgent(lists, h)
      modifies this`lists, this`table, this`group, this`ready, this`current, this`currentPriority, this`switchPending
      modifies threads`state, threads`yielding, threads`remainingTick
      ensures Valid() && |lists| == 256 && current.state == Running && current.prio == h && IsMostUrgent(lists, h)
      ensures Group(h) == Turn(old(Group(h))) && lists == SetList(old(lists), h, ListAt(lists, h))
    {
      hide IsMostUrgent, SetList, ListAt, Scheduler.Queues, AtLeast;
      ghost var l := lists;
      NextOfGroup(h);
      assert ([current] + ListAt(l, h))[1..] == ListAt(l, h);
      Expire();
      StillReady(l, h);
    }

    /** Slices end one after the other, `n` of them, while peers of the running thread are ready and nobody
        more urgent: the group makes `n` turns, and no other list changes.  As many slices as there are
        members restore everything. */
    method ExpireTimes(n: nat, ghost h: bv8)
      requires Valid() && current.state == Running && lockNest == 0 && |lists| == 256
      requires h == current.prio && IsMostUrgent(lists, h)
      modifies this`lists, this`table, this`group, this`ready, this`current, this`currentPriority, this`switchPending
      modifies threads`state, threads`yielding, threads`remainingTick
      ensures Valid() && |lists| == 256 && current.state == Running && current.prio == h && IsMostUrgent(lists, h)
      ensures Group(h) == Turns(old(Group(h)), n) && lists == SetList(old(lists), h, ListAt(lists, h))
      ensures n == |old(Group(h))| ==> current == old(current) && lists == old(lists)
    {
      ghost var g := Group(h);
      assert Turns(g, 0) == g;
      hide IsMostUrgent, SetList, ListAt, Scheduler.Valid, Turn, Turns;
      SetTwice(lists, h, [], []);
      for i := 0 to n
        invariant Valid() && |lists| == 256 && current.state == Running && current.prio == h && IsMostUrgent(lists, h)
        invariant Group(h) == Turns(g, i) && lists == SetList(old(lists), h, ListAt(lists, h))
      {
        ghost var k := ListAt(lists, h);
        ExpireAmongPeers(h);
        TurnsNext(g, i);
        SetTwice(old(lists), h, k, ListAt(lists, h));
      }
      FullTurn(g);
      assert Group(h)[1..] == ListAt(lists, h) && g[1..] == ListAt(old(lists), h);
    }

    /** rt_sched_tick_increase. */
    method TickIncrease(tick: nat)
      requires Valid() && current.state == Running
      modifies this`lists, this`table, this`group, this`ready, this`current, this`currentPriority, this`switchPending
      modifies threads`state, threads`yielding, current`remainingTick
      ensures Valid() && |old(lists)| == |lists| == 256
      ensures old(current).remainingTick ==
        if old(current.remainingTick) > tick then old(current.remainingTick) - tick else old(current).initTick
      ensures old(current.remainingTick) > tick ==> unchanged(`lists, `current, `ready)
      ensures old(current.remainingTick) <= tick && lockNest == 0 && IsMostUrgent(old(lists), old(current.prio)) ==>
        Turned()
      ensures old(current.remainingTick) <= tick && lockNest > 0 ==>
        switchPending && current.yielding && unchanged(`lists, `current, `ready)
      ensures old(current.remainingTick) <= tick && lockNest == 0 && old(ready) != {} ==>
        current.state == Running && NoneMoreUrgent()
    {
      hide Scheduler.Queues, IsMostUrgent, Scheduler.NoneMoreUrgent, ListAt, Turn;
      Sized();
      if current.remainingTick > tick {
        current.remainingTick := current.remainingTick - tick;
      } else {
        current.remainingTick := 0;
      }
      if current.remainingTick == 0 {
        Expire();
      }
    }

    // ----------------------------------------------------------------------------------------
    // Critical sections
    // ----------------------------------------------------------------------------------------

    /** rt_enter_critical. */
    method EnterCritical() returns (level: int)
      requires Valid()
      modifies this`lockNest
      ensures Valid() && level == lockNest == old(lockNest) + 1
    {
      hide Scheduler.Queues;
      lockNest := lockNest + 1;
      level := lockNest;
    }

    /** rt_exit_critical: a scheduling request made while the scheduler was locked is served at the
        outermost exit. */
    method ExitCritical()
      requires Valid()
      modifies this`lists, this`table, this`group, this`ready, this`current, this`currentPriority, this`switchPending,
        this`lockNest
      modifies threads`state, threads`yielding
      ensures Valid() && |lists| == 256 && lockNest == if old(lockNest) > 1 then old(lockNest) - 1 else 0
      ensures old(lockNest) > 1 || !old(switchPending) ==>
        unchanged(`lists, `ready, `current, `switchPending) && unchanged(threads)
      ensures old(lockNest) <= 1 ==> !switchPending
      ensures old(lockNest) <= 1 && old(switchPending) && old(ready) != {} ==>
        current.state == Running && NoneMoreUrgent()
      ensures old(current) in threads && old(ready) <= threads
      ensures old(lockNest) <= 1 && old(switchPending) && old(current.state) == Running ==>
        Unaltered() || SomeoneAhead()
    {
      hide Scheduler.Queues, IsMostUrgent, AtLeast, Scheduler.FirstTookOver, Scheduler.OldOneStands,
        Scheduler.Rescheduled, ListAt;
      Sized();
      InThreads();
      lockNest := lockNest - 1;
      if lockNest <= 0 {
        lockNest := 0;
        if switchPending {
          switchPending := false;
          label Requested:
          Schedule();
          assert old(current.state) == Running ==> Unaltered@Requested() || SomeoneAhead@Requested();
        }
      }
    }

    // ----------------------------------------------------------------------------------------
    // Threads become ready and change priority
    // ----------------------------------------------------------------------------------------

    /** rt_sched_thread_ready, but for the suspend list and the timer of the thread. */
    method ThreadReady(t: SchedCtx) returns (r: Status)
      requires Valid() && t in threads
      modifies this`lists, this`table, this`group, this`ready, t`state
      ensures Valid() && |old(lists)| == 256 && (r == Ok <==> old(t.state) == Suspended)
      ensures r == Invalid ==> unchanged(`lists, `ready) && t.state == old(t.state)
      ensures r == Ok && t == current ==> t.state == Running && unchanged(`lists, `ready)
      ensures r == Ok && t != current ==> t.state == Ready && ready == old(ready) + {t}
      ensures r == Ok && t != current ==>
        lists == SetList(old(lists), t.prio, Inserted(ListAt(old(lists), t.prio), t, t.yielding))
      ensures |lists| == 256 && (r == Ok && t != current ==>
        var l := ListAt(old(lists), t.prio);
        ListAt(lists, t.prio) == if t.yielding then l + [t] else [t] + l)
    {
      hide Scheduler.Queues, SetList, ListAt, Inserted;
      Sized();
      if t.state != Suspended {
        r := Invalid;
      } else {
        Insert(t);
        r := Ok;
      }
    }

    /** _rt_sched_update_priority: a ready thread moves to the front of the list of its new priority and
        loses its yield flag. */
    method UpdatePriority(t: SchedCtx, priority: bv8, updateInit: bool)
      requires Valid() && t in threads
      modifies this`lists, this`table, this`group, this`ready
      modifies t`state, t`yielding, t`initPrio, t`prio, t`number, t`numberMask, t`highMask
      ensures Valid() && |old(lists)| == 256 && t.prio == priority
        && t.initPrio == (if updateInit then priority else old(t.initPrio))
      ensures ready == old(ready) && t.state == old(t.state)
      ensures t.state != Ready ==> lists == old(lists) && t.yielding == old(t.yielding)
      ensures t.state == Ready ==> !t.yielding && lists == MovedTo(old(lists), old(t.prio), priority, t)
      // It left its list and stands first in that of the new priority.
      ensures |lists| == 256 && (t.state == Ready ==> MovedToFront(t))
    {
      hide Scheduler.Queues, MovedTo, Scheduler.MovedToFront;
      Sized();
      if t.state == Ready {
        MoveReady(t, priority, updateInit);
      } else {
        SetPriority(t, priority, updateInit);
      }
    }

    twostate predicate MovedToFront(t: SchedCtx)
      requires |lists| == |old(lists)| == 256
      reads this, t
    {
      var p := old(t.prio);
      && (t.prio != p ==>
            && LeftOut(ListAt(old(lists), p), t, ListAt(lists, p))
            && ListAt(lists, t.prio) == [t] + ListAt(old(lists), t.prio))
      && (t.prio == p ==>
            && ListAt(lists, p) != [] && ListAt(lists, p)[0] == t
            && LeftOut(ListAt(old(lists), p), t, ListAt(lists, p)[1..]))
      && forall q: bv8 :: q != p && q != t.prio ==> ListAt(lists, q) == ListAt(old(lists), q)
    }

    method MoveReady(t: SchedCtx, priority: bv8, updateInit: bool)
      requires Queues() && t in threads && t in ready && t != current
      modifies this`lists, this`table, this`group, this`ready
      modifies t`state, t`yielding, t`initPrio, t`prio, t`number, t`numberMask, t`highMask
      ensures Queues() && |old(lists)| == 256 && t.prio == priority
        && t.initPrio == (if updateInit then priority else old(t.initPrio))
      ensures ready == old(ready) && t.state == Ready && !t.yielding
        && lists == MovedTo(old(lists), old(t.prio), priority, t)
      ensures |lists| == 256 && MovedToFront(t)
    {
      hide Scheduler.Queues, SetList, ListAt, Without, LeftOut;
      Sized();
      MovedLists(lists, t.prio, priority, t);
      Remove(t);
      SetPriority(t, priority, updateInit);
      t.state := Init;
      t.yielding := false;
      Insert(t);
      assert ready == old(ready);
    }

    /** The priority and the masks that go with it. */
    method SetPriority(t: SchedCtx, priority: bv8, updateInit: bool)
      requires Queues() && t in threads && t !in ready
      modifies t`initPrio, t`prio, t`number, t`numberMask, t`highMask
      ensures Queues() && t.prio == priority && t.initPrio == (if updateInit then priority else old(t.initPrio))
    {
      hide Agrees, ListAt, Number, NumberMask, HighMask;
      if updateInit {
        t.initPrio := priority;
      }
      t.prio := priority;
      t.number := Number(t.prio);
      t.numberMask := NumberMask(t.number);
      t.highMask := HighMask(t.prio);
    }

    lemma Sized()
      requires Queues()
      ensures |lists| == 256
    {}
  }

  lemma WithoutEmpty(l: seq<SchedCtx>, t: SchedCtx)
    ensures l == [] ==> Without(l, t) == []
  {}

  lemma NoneReady()
    ensures Agrees(StartLists([]), seq(32, _ => 0), 0) && Holds(StartLists([]), {})
  {
    Nothing(StartLists([]), seq(32, _ => 0));
  }

  lemma Nothing(lists: Lists, table: Table)
    requires |lists| == 256 && |table| == 32 && (forall k :: 0 <= k < 256 ==> lists[k] == [])
      && (forall k :: 0 <= k < 32 ==> table[k] == 0)
    ensures Agrees(lists, table, 0) && forall p: bv8 :: ListAt(lists, p) == []
  {
    forall n: bv8 | n < 32 ensures IsZero(ByteAt(table, n)) && !HasByte(0, n) {
      IdxSmall(n);
    }
    forall p: bv8 ensures !Marked(table, p) && ListAt(lists, p) == [] {
      IdxSmall(Number(p));
      ZeroBits(ByteAt(table, Number(p)), p);
    }
  }

  /** The lists after the threads were started one after the other. */
  ghost function StartLists(started: seq<SchedCtx>): (r: Lists)
    reads (set t | t in started)`prio
    ensures |r| == 256
  {
    if started == [] then seq(256, _ => [])
    else
      var n := |started| - 1;
      var l, t := StartLists(started[..n]), started[n];
      SetList(l, t.prio, [t] + ListAt(l, t.prio))
  }

  lemma OnlyOne(lists: Lists, h: bv8)
    requires |lists| == 256 && IsMostUrgent(lists, h)
    ensures forall k: bv8 :: IsMostUrgent(lists, k) ==> k == h
  {
    hide ListAt;
  }

  /** No thread is ready at a priority more urgent than `h`. */
  ghost predicate AtLeast(lists: Lists, h: bv8)
    requires |lists| == 256
  {
    forall q: bv8 :: ListAt(lists, q) != [] ==> h <= q
  }

  lemma UrgentIsLeast(lists: Lists, h: bv8)
    requires |lists| == 256 && IsMostUrgent(lists, h)
    ensures AtLeast(lists, h)
  {}

  lemma LowerAtLeast(lists: Lists, h: bv8, k: bv8)
    requires |lists| == 256 && AtLeast(lists, h) && k <= h
    ensures AtLeast(lists, k)
  {
    hide ListAt;
  }

  lemma SetAtLeast(lists: Lists, p: bv8, l: seq<SchedCtx>, h: bv8)
    requires |lists| == 256 && AtLeast(lists, h) && h <= p
    ensures AtLeast(SetList(lists, p, l), h)
  {
    hide ListAt, SetList;
    forall q: bv8 | ListAt(SetList(lists, p, l), q) != [] ensures h <= q {
      SetListAt(lists, p, l, q);
    }
  }

  lemma WithoutFirst(l: seq<SchedCtx>)
    requires l != []
    ensures Without(l, l[0]) == l[1..]
  {}

  /** The lists after a switch to the first thread of priority `h`, list by list. */
  lemma SwitchedLists(lists: Lists, h: bv8, k: bv8, from: SchedCtx, yielding: bool)
    requires |lists| == 256 && ListAt(lists, h) != []
    ensures var to, x := ListAt(lists, h)[0], SetList(lists, k, Inserted(ListAt(lists, k), from, yielding));
      var r := SetList(x, h, Without(ListAt(x, h), to));
      && (k != h ==> ListAt(r, h) == ListAt(lists, h)[1..])
      && (k != h ==> ListAt(r, k) == if yielding then ListAt(lists, k) + [from] else [from] + ListAt(lists, k))
      && (k == h && yielding ==> ListAt(r, h) == ListAt(lists, h)[1..] + [from])
      && forall q: bv8 :: q != h && q != k ==> ListAt(r, q) == ListAt(lists, q)
    ensures var r := SetList(lists, h, Without(ListAt(lists, h), ListAt(lists, h)[0]));
      && ListAt(r, h) == ListAt(lists, h)[1..]
      && forall q: bv8 :: q != h ==> ListAt(r, q) == ListAt(lists, q)
  {
    hide SetList, ListAt, Without;
    var to, i := ListAt(lists, h)[0], Inserted(ListAt(lists, k), from, yielding);
    var x := SetList(lists, k, i);
    var y := Without(ListAt(x, h), to);
    var z := Without(ListAt(lists, h), to);
    WithoutFirst(ListAt(lists, h));
    forall q: bv8 ensures ListAt(x, q) == (if q == k then i else ListAt(lists, q))
      && ListAt(SetList(x, h, y), q) == (if q == h then y else ListAt(x, q))
      && ListAt(SetList(lists, h, z), q) == if q == h then z else ListAt(lists, q)
    {
      SetListAt(lists, k, i, q);
      SetListAt(x, h, y, q);
      SetListAt(lists, h, z, q);
    }
    if k == h && yielding {
      WithoutFirst(i);
      assert i[1..] == ListAt(lists, h)[1..] + [from];
    }
  }

  /** The lists after the first thread of priority `h` took over from a peer that had used up its slice. */
  ghost function AfterTurn(lists: Lists, h: bv8, from: SchedCtx): Lists
    requires |lists| == 256 && ListAt(lists, h) != []
  {
    var l := SetList(lists, h, Inserted(ListAt(lists, h), from, true));
    SetList(l, h, Without(ListAt(l, h), ListAt(lists, h)[0]))
  }

  lemma PeersTurn(lists: Lists, h: bv8, from: SchedCtx)
    requires |lists| == 256
    ensures IsMostUrgent(lists, h) ==> ListAt(lists, h) != []
    ensures IsMostUrgent(lists, h) ==>
      var r := AfterTurn(lists, h, from);
      && [ListAt(lists, h)[0]] + ListAt(r, h) == ListAt(lists, h) + [from]
      && r == SetList(lists, h, ListAt(r, h))
  {
    if IsMostUrgent(lists, h) {
      var x := ListAt(lists, h);
      var l := SetList(lists, h, Inserted(x, from, true));
      SetTwice(lists, h, [], Inserted(x, from, true));
      SetTwice(lists, h, Inserted(x, from, true), Without(ListAt(l, h), x[0]));
      hide SetList;
      assert ListAt(l, h) == x + [from] && (x + [from])[0] == x[0];
      assert [x[0]] + (x + [from])[1..] == x + [from];
    }
  }

  /** `r` is the list `l` without `t`. */
  ghost predicate LeftOut(l: seq<SchedCtx>, t: SchedCtx, r: seq<SchedCtx>) {
    exists i :: 0 <= i < |l| && l[i] == t && r == l[..i] + l[i + 1..]
  }

  lemma MovedLists(lists: Lists, p: bv8, q: bv8, t: SchedCtx)
    requires |lists| == 256
    ensures var l, r := Without(ListAt(lists, p), t), MovedTo(lists, p, q, t);
      && |r| == 256 && ListAt(SetList(lists, p, l), p) == l
      && (p != q ==> ListAt(r, p) == l && ListAt(r, q) == [t] + ListAt(lists, q))
      && (p == q ==> ListAt(r, p) == [t] + l)
      && forall k: bv8 :: k != p && k != q ==> ListAt(r, k) == ListAt(lists, k)
  {
    hide SetList, ListAt, Without;
    var l := Without(ListAt(lists, p), t);
    var x := SetList(lists, p, l);
    forall k: bv8
      ensures ListAt(x, k) == if k == p then l else ListAt(lists, k)
      ensures ListAt(MovedTo(lists, p, q, t), k) == if k == q then [t] + ListAt(x, q) else ListAt(x, k)
    {
      SetListAt(lists, p, l, k);
      SetListAt(x, q, [t] + ListAt(x, q), k);
    }
  }

  /** The lists after `t` moved from priority `p` to the front of priority `q`. */
  ghost function MovedTo(lists: Lists, p: bv8, q: bv8, t: SchedCtx): Lists
    requires |lists| == 256
  {
    var l := SetList(lists, p, Without(ListAt(lists, p), t));
    SetList(l, q, [t] + ListAt(l, q))
  }
}
