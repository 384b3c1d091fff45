/** The event object of ipc.c: 32 flags, and threads waiting for all or for any of some of them.

    A word of flags is modelled as the set of the numbers of its bits. */
module EventSet {
  import opened Sequences
  import opened SuspendList

  type Flags = set<nat>

  datatype Mode = All | Any

  /** What a thread waits for: event_set, and the options of event_info.  When both RT_EVENT_FLAG_AND and
      RT_EVENT_FLAG_OR are given the former counts; one of them must be. */
  datatype Info = Info(want: Flags, mode: Mode, clear: bool)

  datatype Reply = Received(flags: Flags) | TimedOut | Waits | Error

  predicate Satisfied(i: Info, flags: Flags) {
    if i.mode == All then i.want * flags == i.want else i.want * flags != {}
  }

  /** All flags wanted are set, or any. */
  lemma SatisfiedIs(i: Info, flags: Flags)
    ensures i.mode == All ==> (Satisfied(i, flags) <==> i.want <= flags)
    ensures i.mode == Any ==> (Satisfied(i, flags) <==> exists b :: b in i.want && b in flags)
  {
    if i.mode == All && i.want <= flags {
      assert i.want * flags == i.want;
    }
    if i.mode == All && i.want * flags == i.want {
      assert i.want <= i.want * flags;
    }
    if b :| b in i.want * flags {
      assert b in i.want && b in flags;
    }
    if b :| b in i.want && b in flags {
      assert b in i.want * flags;
    }
  }

  type Infos = map<Thread, Info>

  ghost predicate Known(list: seq<Thread>, info: Infos) {
    forall t :: t in list ==> t in info
  }

  /** The threads that go on waiting. */
  ghost function Unsatisfied(list: seq<Thread>, info: Infos, flags: Flags): seq<Thread>
    requires Known(list, info)
  {
    if list == [] then [] else
      var rest := Unsatisfied(list[1..], info, flags);
      if Satisfied(info[list[0]], flags) then rest else [list[0]] + rest
  }

  /** The flags handed over to satisfied threads that ask for them to be cleared. */
  ghost function Cleared(list: seq<Thread>, info: Infos, flags: Flags): Flags
    requires Known(list, info)
  {
    set b, t | t in list && Satisfied(info[t], flags) && info[t].clear && b in info[t].want && b in flags :: b
  }

  lemma {:induction false} UnsatisfiedAre(list: seq<Thread>, info: Infos, flags: Flags)
    requires Known(list, info)
    ensures forall t :: t in Unsatisfied(list, info, flags) <==> t in list && !Satisfied(info[t], flags)
    ensures Distinct(list) ==> Distinct(Unsatisfied(list, info, flags))
  {
    hide Satisfied;
    if list != [] {
      var r := list[1..];
      assert list == [list[0]] + r;
      assert forall i :: 0 <= i < |r| ==> r[i] == list[i + 1];
      UnsatisfiedAre(r, info, flags);
      assert Distinct(list) ==> list[0] !in r;
    }
  }

  /** One thread more. */
  lemma {:induction false} UnsatisfiedMore(a: seq<Thread>, t: Thread, info: Infos, flags: Flags)
    requires Known(a, info) && t in info
    ensures Known(a + [t], info)
    ensures Unsatisfied(a + [t], info, flags) ==
      Unsatisfied(a, info, flags) + if Satisfied(info[t], flags) then [] else [t]
  {
    hide Satisfied;
    if a == [] {
      assert a + [t] == [t];
    } else {
      assert (a + [t])[1..] == a[1..] + [t];
      UnsatisfiedMore(a[1..], t, info, flags);
    }
  }

  lemma ClearedMore(a: seq<Thread>, t: Thread, info: Infos, flags: Flags)
    requires Known(a, info) && t in info && Known(a + [t], info)
    ensures Cleared(a + [t], info, flags) ==
      Cleared(a, info, flags) + if Satisfied(info[t], flags) && info[t].clear then info[t].want * flags else {}
  {
    hide Satisfied;
    assert forall x :: x in a + [t] <==> x in a || x == t;
  }

  class Event {
    const flag: Flag
    /** event->set. */
    var flags: Flags
    var waiting: seq<Thread>
    /** event_set and event_info of the threads. */
    var info: Infos

    /** The list is in its order, and no waiting thread's condition is satisfied by the flags: those that
        wait for all of some flags miss one, those that wait for any of them miss all. */
    ghost predicate Valid()
      reads this
    {
      && InOrder(flag, waiting) && Distinct(waiting) && Known(waiting, info)
      && (forall t :: t in waiting && info[t].mode == All ==> !(info[t].want <= flags))
      && (forall t :: t in waiting && info[t].mode == Any ==> info[t].want !! flags)
    }

    lemma NobodySatisfied()
      ensures InOrder(flag, waiting) && Distinct(waiting) && Known(waiting, info) ==>
        (Valid() <==> forall t :: t in waiting ==> !Satisfied(info[t], flags))
    {
      forall t | t in info ensures Satisfied(info[t], flags) <==>
          if info[t].mode == All then info[t].want <= flags else !(info[t].want !! flags) {
        SatisfiedIs(info[t], flags);
      }
    }

    constructor (flag: Flag)
      ensures Valid() && waiting == [] && flags == {}
    {
      this.flag := flag;
      flags, waiting, info := {}, [], map[];
    }

    /** What the threads that were woken find in event_set. */
    ghost predicate HandedOver(list: seq<Thread>, i0: Infos, now: Flags)
      reads `info
    {
      info.Keys == i0.Keys && forall t {:trigger info[t]} :: t in info ==>
        info[t] == if t in list && Satisfied(i0[t], now) then i0[t].(want := i0[t].want * now) else i0[t]
    }

    /** rt_event_send: all threads that the flags satisfy are woken, judged by the same flags, before any
        flag is cleared; then exactly the flags handed over to threads that ask for it are cleared. */
    method Send(set_: Flags) returns (ok: bool)
      requires Valid()
      modifies this
      ensures Valid() && (ok <==> set_ != {})
      ensures !ok ==> unchanged(this)
      ensures forall t :: t in waiting ==> t in old(waiting)
      ensures ok ==> forall t :: t in old(waiting) && old(info)[t].mode == All ==>
        (t !in waiting <==> old(info)[t].want <= old(flags) + set_)
      ensures ok ==> forall t :: t in old(waiting) && old(info)[t].mode == Any ==>
        (t !in waiting <==> exists b :: b in old(info)[t].want && b in old(flags) + set_)
      ensures ok ==> forall b :: b in flags <==>
        b in old(flags) + set_
        && !(exists t :: t in old(waiting) && t !in waiting && old(info)[t].clear && b in old(info)[t].want)
      ensures ok ==> info.Keys == old(info).Keys
      ensures ok ==> forall t :: t in info && t in old(waiting) && t !in waiting ==>
        info[t] == old(info)[t].(want := old(info)[t].want * (old(flags) + set_))
      ensures ok ==> forall t :: t in info && !(t in old(waiting) && t !in waiting) ==> info[t] == old(info)[t]
      ensures ok ==> waiting == Unsatisfied(old(waiting), old(info), old(flags) + set_)
    {
      NobodySatisfied();
      if set_ == {} { return false; }
      hide Event.Valid;
      ghost var l0, i0, now := waiting, info, flags + set_;
      SendAll(set_);
      ok := true;
      SentIs(l0, i0, now);
      NobodySatisfied();
    }

    /** What Send did, in terms of the conditions. */
    lemma SentIs(l0: seq<Thread>, i0: Infos, now: Flags)
      requires Known(l0, i0) && waiting == Unsatisfied(l0, i0, now) && flags == now - Cleared(l0, i0, now)
      requires HandedOver(l0, i0, now)
      ensures forall t :: t in waiting ==> t in l0
      ensures forall t :: t in l0 && i0[t].mode == All ==> (t !in waiting <==> i0[t].want <= now)
      ensures forall t :: t in l0 && i0[t].mode == Any ==> (t !in waiting <==> exists b :: b in i0[t].want && b in now)
      ensures forall b :: b in flags <==>
        b in now && !(exists t :: t in l0 && t !in waiting && i0[t].clear && b in i0[t].want)
      ensures info.Keys == i0.Keys && forall t :: t in info ==>
        info[t] == if t in l0 && t !in waiting then i0[t].(want := i0[t].want * now) else i0[t]
    {
      UnsatisfiedAre(l0, i0, now);
      forall t | t in l0 ensures i0[t].mode == All ==> (t !in waiting <==> i0[t].want <= now)
        ensures i0[t].mode == Any ==> (t !in waiting <==> exists b :: b in i0[t].want && b in now)
      {
        SatisfiedIs(i0[t], now);
      }
      hide Satisfied, Unsatisfied, Cleared;
      forall b | b in now ensures b !in Cleared(l0, i0, now) <==>
          !(exists t :: t in l0 && t !in waiting && i0[t].clear && b in i0[t].want)
      {
        ClearedIs(l0, i0, now, b);
      }
    }

    /** The part of rt_event_send behind the check of its argument. */
    method SendAll(set_: Flags)
      requires Distinct(waiting) && Known(waiting, info) && InOrder(flag, waiting)
      modifies this
      ensures Known(old(waiting), old(info)) && waiting == Unsatisfied(old(waiting), old(info), old(flags) + set_)
      ensures flags == old(flags) + set_ - Cleared(old(waiting), old(info), old(flags) + set_)
      ensures HandedOver(old(waiting), old(info), old(flags) + set_)
      ensures Distinct(waiting) && Known(waiting, info) && InOrder(flag, waiting)
      ensures forall t :: t in waiting ==> !Satisfied(info[t], flags)
    {
      flags := flags + set_;
      ghost var i0 := info;
      hide Satisfied, Cleared, Unsatisfied, InOrder;
      var needClear: Flags := {};
      NoneYet(i0, flags);
      var list, n := waiting, 0;
      waiting := [];
      while n < |list|
        invariant n <= |list| && flags == old(flags) + set_
        invariant Known(list[..n], i0) && waiting == Unsatisfied(list[..n], i0, flags)
          && needClear == Cleared(list[..n], i0, flags)
        invariant HandedOver(list[..n], i0, flags)
      {
        assert list[..n + 1] == list[..n] + [list[n]];
        assert list[n] in list && list[n] !in list[..n];
        needClear := Judge(list[n], needClear, list[..n], i0);
        n := n + 1;
      }
      assert list[..n] == list;
      StillUnsatisfied(list, i0, info, flags, needClear);
      StillInOrder(flag, list, i0, flags);
      flags := flags - needClear;
    }

    /** One thread of the list is resumed, or goes on waiting. */
    method Judge(t: Thread, needClear: Flags, ghost done: seq<Thread>, ghost i0: Infos) returns (r: Flags)
      requires t in i0 && Known(done, i0) && t !in done && HandedOver(done, i0, flags)
      requires waiting == Unsatisfied(done, i0, flags) && needClear == Cleared(done, i0, flags)
      modifies this`waiting, this`info
      ensures Known(done + [t], i0) && HandedOver(done + [t], i0, flags)
      ensures waiting == Unsatisfied(done + [t], i0, flags) && r == Cleared(done + [t], i0, flags)
    {
      hide Satisfied, Cleared, Unsatisfied;
      UnsatisfiedMore(done, t, i0, flags);
      ClearedMore(done, t, i0, flags);
      assert info[t] == i0[t];
      assert forall x :: x in done + [t] <==> x in done || x == t;
      r := needClear;
      if Satisfied(info[t], flags) {
        info := info[t := info[t].(want := info[t].want * flags)];
        if info[t].clear {
          r := r + info[t].want;
        }
      } else {
        waiting := waiting + [t];
      }
    }

    /** _rt_event_recv, up to the point where the thread has its flags, gives up or is suspended. */
    method Receive(t: Thread, want: Flags, mode: Mode, clear: bool, noWait: bool) returns (r: Reply)
      requires Valid() && t !in waiting
      modifies this
      ensures Valid()
      ensures want == {} ==> r == Error && unchanged(this)
      ensures want != {} && mode == All ==> (r.Received? <==> want <= old(flags))
      ensures want != {} && mode == Any ==> (r.Received? <==> exists b :: b in want && b in old(flags))
      ensures r.Received? ==> r == Received(old(flags) * want) && unchanged(`waiting)
      ensures r.Received? ==> flags == if clear then old(flags) - want else old(flags)
      ensures want != {} && !r.Received? && noWait ==> r == TimedOut && unchanged(this)
      ensures want != {} && !r.Received? && !noWait ==>
        r == Waits && waiting == Suspended(flag, old(waiting), t) && info == old(info)[t := Info(want, mode, clear)]
        && unchanged(`flags)
    {
      hide Suspended, InOrder;
      SatisfiedIs(Info(want, mode, clear), flags);
      if want == {} { return Error; }
      if Satisfied(Info(want, mode, clear), flags) {
        r := Received(flags * want);
        info := info[t := Info(flags * want, mode, clear)];
        if clear {
          flags := flags - want;
        }
      } else if noWait {
        r := TimedOut;
      } else {
        info := info[t := Info(want, mode, clear)];
        Joins(flag, waiting, t);
        waiting := Enqueue(waiting, t, flag);
        r := Waits;
      }
    }

    /** A woken thread takes what was handed over to it. */
    method Resume(t: Thread) returns (flags: Flags)
      requires Valid() && t in info
      ensures flags == info[t].want
    {
      flags := info[t].want;
    }

    /** The timer of a waiting thread expires. */
    method Expire(k: nat)
      requires Valid() && k < |waiting|
      modifies this`waiting
      ensures Valid() && waiting == old(waiting)[..k] + old(waiting)[k + 1..]
    {
      hide Satisfied;
      ExpireFair(flag, waiting, {}, 0, k);
      waiting := waiting[..k] + waiting[k + 1..];
    }
  }

  lemma NoneYet(info: Infos, flags: Flags)
    ensures Unsatisfied([], info, flags) == [] && Cleared([], info, flags) == {}
  {}

  /** Threads that the flags leave waiting are not satisfied by fewer flags. */
  lemma StillUnsatisfied(list: seq<Thread>, i0: Infos, info: Infos, flags: Flags, cleared: Flags)
    requires Known(list, i0) && Distinct(list) && i0.Keys == info.Keys
    requires forall t :: t in info && !Satisfied(i0[t], flags) ==> info[t] == i0[t]
    ensures Distinct(Unsatisfied(list, i0, flags)) && Known(Unsatisfied(list, i0, flags), info)
    ensures forall t :: t in Unsatisfied(list, i0, flags) && t in info ==> !Satisfied(info[t], flags - cleared)
  {
    UnsatisfiedAre(list, i0, flags);
    forall t | t in Unsatisfied(list, i0, flags) ensures !Satisfied(info[t], flags - cleared) {
      assert info[t].want * (flags - cleared) <= info[t].want * flags;
    }
  }

  /** Those that go on waiting keep their order. */
  lemma {:induction false} StillInOrder(flag: Flag, list: seq<Thread>, info: Infos, flags: Flags)
    requires InOrder(flag, list) && Known(list, info)
    ensures InOrder(flag, Unsatisfied(list, info, flags))
  {
    if list != [] {
      var r := list[1..];
      assert forall i :: 0 <= i < |r| ==> r[i] == list[i + 1];
      StillInOrder(flag, r, info, flags);
      var u := Unsatisfied(r, info, flags);
      forall k | 0 <= k < |u| ensures list[0].prio <= u[k].prio || flag != Prio {
        UnsatisfiedAre(r, info, flags);
        assert u[k] in r;
        var j :| 0 <= j < |r| && r[j] == u[k];
      }
      hide Satisfied;
      assert Unsatisfied(list, info, flags) == if Satisfied(info[list[0]], flags) then u else [list[0]] + u;
    }
  }

  lemma Joins(flag: Flag, list: seq<Thread>, t: Thread)
    requires InOrder(flag, list) && Distinct(list) && t !in list
    ensures InOrder(flag, Suspended(flag, list, t)) && Distinct(Suspended(flag, list, t))
    ensures forall x :: x in Suspended(flag, list, t) <==> x == t || x in list
  {
    var k := if flag == Fifo then |list| else SuspendPos(list, t.prio);
    assert Suspended(flag, list, t) == list[..k] + [t] + list[k..];
    hide Suspended;
    SuspendedIs(flag, list, t);
    PlacedIsDistinct(list, k, t);
  }

  /** A flag that was set goes away exactly if some woken thread got it and asked for it to be cleared. */
  lemma ClearedIs(list: seq<Thread>, info: Infos, flags: Flags, b: nat)
    requires Known(list, info) && b in flags
    ensures b !in flags - Cleared(list, info, flags) <==>
      exists t :: t in list && t !in Unsatisfied(list, info, flags) && info[t].clear && b in info[t].want
  {
    UnsatisfiedAre(list, info, flags);
  }
}
