/** A run in which the closed form of the priorities fails, at threads that are part of a deadlock.

    Threads `a` and `b` of priority 10 take a mutex each and then wait for the other's.  Thread `c` of
    priority 1 waits for one of these with a time-out, which raises both to 1.  When `c` has given up, each
    of the two still finds a waiter of priority 1 behind it: the other one. */
module MutexDeadlock {
  import opened PriorityInheritance
  import opened PriorityWalk
  import opened MutexSteps
  import opened MutexEffects
  import opened MutexKernel
  import opened WaitsFor
  import opened MutexRuns

  datatype Cast = Cast(a: ThreadCb, b: ThreadCb, c: ThreadCb, x: MutexCb, y: MutexCb) {
    predicate Valid() {
      a != b && a != c && b != c && x != y && a.initPrio == b.initPrio == 10 && c.initPrio == 1
    }

    /** A state of the three threads and two mutexes. */
    ghost function State(a': ThreadView, b': ThreadView, c': ThreadView, x': MutexView, y': MutexView,
                         clock: nat): Sys {
      Sys(map[a := a', b := b', c := c'], map[x := x', y := y'], clock)
    }

    ghost function Idle(p: Prio): ThreadView { ThreadView(p, p, false, null, {}, 0) }

    ghost function FreeMutex(): MutexView { MutexView(null, NO_WAITER, 0, []) }

    ghost function Start(): Sys { State(Idle(10), Idle(10), Idle(1), FreeMutex(), FreeMutex(), 1) }

    ghost function ATookX(): Sys {
      State(Idle(10).(taken := {x}), Idle(10), Idle(1), MutexView(a, NO_WAITER, 1, []), FreeMutex(), 1)
    }

    ghost function BTookY(): Sys {
      State(Idle(10).(taken := {x}), Idle(10).(taken := {y}), Idle(1),
            MutexView(a, NO_WAITER, 1, []), MutexView(b, NO_WAITER, 1, []), 1)
    }

    ghost function AWaits(): Sys {
      State(ThreadView(10, 10, true, y, {x}, 1), Idle(10).(taken := {y}), Idle(1),
            MutexView(a, NO_WAITER, 1, []), MutexView(b, 10, 1, [a]), 2)
    }

    ghost function Deadlocked(): Sys {
      State(ThreadView(10, 10, true, y, {x}, 1), ThreadView(10, 10, true, x, {y}, 2), Idle(1),
            MutexView(a, 10, 1, [b]), MutexView(b, 10, 1, [a]), 3)
    }

    /** `c` waits for `x`; the mutex knows, its owner `a` does not yet. */
    ghost function CWaits(): Sys {
      State(ThreadView(10, 10, true, y, {x}, 1), ThreadView(10, 10, true, x, {y}, 2), ThreadView(1, 1, true, x, {}, 3),
            MutexView(a, 1, 1, [c, b]), MutexView(b, 10, 1, [a]), 4)
    }

    /** The walk has changed `a`, told `y`, and changed `b`. */
    ghost function ARaised(): Sys {
      State(ThreadView(10, 1, true, y, {x}, 4), ThreadView(10, 1, true, x, {y}, 2), ThreadView(1, 1, true, x, {}, 3),
            MutexView(a, 1, 1, [c, b]), MutexView(b, 1, 1, [a]), 5)
    }

    ghost function BothRaised(): Sys {
      State(ThreadView(10, 1, true, y, {x}, 4), ThreadView(10, 1, true, x, {y}, 5), ThreadView(1, 1, true, x, {}, 3),
            MutexView(a, 1, 1, [c, b]), MutexView(b, 1, 1, [a]), 6)
    }

    ghost function CGone(): Sys {
      State(ThreadView(10, 1, true, y, {x}, 4), ThreadView(10, 1, true, x, {y}, 5),
            ThreadView(1, 1, false, null, {}, 3),
            MutexView(a, 1, 1, [b]), MutexView(b, 1, 1, [a]), 6)
    }

    ghost function States(): seq<Sys> {
      [Start(), ATookX(), BTookY(), AWaits(), Deadlocked(), BothRaised(), CGone()]
    }

    ghost function Calls(): seq<Call> {
      [Take(a, x, -1), Take(b, y, -1), Take(a, y, -1), Take(b, x, -1), Take(c, x, 100), Timeout(c)]
    }

    lemma BothTake()
      requires Valid()
      ensures Initial(Start()) && Start() == FreshSys({a, b, c}, {x, y})
      ensures Step(Start(), Take(a, x, -1), ATookX()) && Step(ATookX(), Take(b, y, -1), BTookY())
    {
      var f := FreshSys({a, b, c}, {x, y});
      assert Start().threads == f.threads && Start().mutexes == f.mutexes;
      assert Idle(10).taken + {x} == {x} && Idle(10).taken + {y} == {y};
      assert TakeFree(Start(), a, x).threads == ATookX().threads && TakeFree(Start(), a, x).mutexes == ATookX().mutexes;
      assert TakeEffect(Start(), ATookX(), a, x, -1, Taken);
      assert TakeFree(ATookX(), b, y).threads == BTookY().threads
        && TakeFree(ATookX(), b, y).mutexes == BTookY().mutexes;
      assert TakeEffect(ATookX(), BTookY(), b, y, -1, Taken);
    }

    lemma AWaitsForB()
      requires Valid()
      ensures Step(BTookY(), Take(a, y, -1), AWaits())
    {
      var s, s' := BTookY(), AWaits();
      var s1 := Lower(Suspend(s, a, y), y, 10);
      assert s1.mutexes[y].waiters == [a];
      assert s1.threads == s'.threads && s1.mutexes == s'.mutexes;
      assert TakeEffect(s, s', a, y, -1, Blocked);
    }

    lemma BWaitsForA()
      requires Valid()
      ensures Step(AWaits(), Take(b, x, -1), Deadlocked())
    {
      var s, s' := AWaits(), Deadlocked();
      var s1 := Lower(Suspend(s, b, x), x, 10);
      assert s1.mutexes[x].waiters == [b];
      assert s1.threads == s'.threads && s1.mutexes == s'.mutexes;
      assert TakeEffect(s, s', b, x, -1, Blocked);
    }

    /** The first turn of the walk: `a` moves in the list of `y`, whose owner is to run at 1, too. */
    lemma FirstTurn()
      requires Valid()
      ensures Turn(SetPrio(CWaits(), a, 1), a, true, b, 1, ARaised())
    {
      var s := SetPrio(CWaits(), a, 1);
      AFirst();
      hide Requeue;
      var r := Requeue(s, a);
      assert y in r.threads[b].taken;
      assert SetPrio(r, b, 1).threads == ARaised().threads && SetPrio(r, b, 1).mutexes == ARaised().mutexes;
    }

    lemma AFirst()
      requires Valid()
      ensures var s := SetPrio(CWaits(), a, 1);
        Waits(s, a) && Requeue(s, a) == ARaised().(threads := ARaised().threads[b := s.threads[b]])
    {
      var s := SetPrio(CWaits(), a, 1);
      var q := s.mutexes[y].waiters;
      assert a in q;
      RemoveMembers(q, a);
      assert Resorted(s.threads, q, a) == [a];
      hide Resorted;
      var r := Requeue(s, a);
      assert r.threads == ARaised().threads[b := s.threads[b]] && r.mutexes == ARaised().mutexes;
    }

    /** The second turn: `b` moves in the list of `x`, whose owner runs at 1 already. */
    lemma SecondTurn()
      requires Valid()
      ensures Turn(ARaised(), b, false, a, 1, BothRaised())
    {
      var s := ARaised();
      var q := s.mutexes[x].waiters;
      assert q[1] == b;
      RemoveMembers(q, b);
      assert Remove(q, b) == [c];
      assert InsertPos(s.threads, [c], 1) == 1;
      var r := Requeue(s, b);
      assert r.mutexes[x].waiters == [c, b];
      assert x in r.threads[a].taken;
      assert r.threads == BothRaised().threads && r.mutexes == BothRaised().mutexes;
    }

    lemma OwnersToldOfC()
      requires Valid()
      ensures Walk(CWaits(), a, 1, BothRaised())
    {
      hide WalksTo, Turn;
      FirstTurn();
      SecondTurn();
      var s := SetPrio(CWaits(), a, 1);
      assert Turns(s, a, 0, s, a);
      TurnsAppend(s, a, 0, s, a, b, 1, ARaised());
      TurnStops(ARaised(), b, a, 1, BothRaised());
      TurnsEnd(s, a, 1, ARaised(), b, BothRaised());
    }

    lemma CWaitsForA()
      requires Valid()
      ensures Step(Deadlocked(), Take(c, x, 100), BothRaised())
    {
      var s, s' := Deadlocked(), BothRaised();
      assert InsertPos(s.threads[c := s.threads[c].(suspended := true, pending := x)], [b], 1) == 0;
      var s0 := Suspend(s, c, x);
      assert s0.mutexes[x].waiters == [c, b];
      var s1 := Lower(s0, x, 1);
      assert s1.threads == CWaits().threads && s1.mutexes == CWaits().mutexes;
      OwnersToldOfC();
      assert TakeEffect(s, s', c, x, 100, Blocked);
    }

    lemma CTimesOut()
      requires Valid()
      ensures Step(BothRaised(), Timeout(c), CGone())
    {
      var s, s' := BothRaised(), CGone();
      var q := s.mutexes[x].waiters;
      assert q[0] == c;
      RemoveMembers(q, c);
      var w, r := Wake(s, c), Remember(s', c, x);
      assert w.mutexes[x].waiters == [b];
      assert w.threads == r.threads && w.mutexes == r.mutexes;
      assert x in w.threads[a].taken;
      assert IsInherited(w, a, 1);
    }

    lemma ClosedFormFails()
      requires Valid()
      ensures OnCycle(CGone(), a) && IsMostUrgent(CGone(), a, 10)
    {
      var s := CGone();
      assert Next(s, a) == b && Next(s, b) == a && Next(s, c) == null;
      assert Reaches(s, a, a, 0) && Reaches(s, b, a, 1) && Reaches(s, a, a, 2);
      assert !Depends(s, c, a);
    }

    lemma AllSteps()
      requires Valid()
      ensures Initial(States()[0]) && States()[0] == FreshSys({a, b, c}, {x, y})
      ensures forall k :: 0 <= k < 6 ==> Step(States()[k], Calls()[k], States()[k + 1])
    {
      hide Step, Initial, Start, ATookX, BTookY, AWaits, Deadlocked, BothRaised, CGone, State;
      BothTake();
      AWaitsForB();
      BWaitsForA();
      CWaitsForA();
      CTimesOut();
    }
  }

  /** The condition of `RunsAreFair` is needed: a run from the state the constructors leave that ends with
      two threads of initial priority 10 running at 1, although all they block are themselves. */
  lemma DeadlockBreaksClosedForm(k: Cast) returns (states: seq<Sys>, calls: seq<Call>)
    requires k.Valid()
    ensures IsRun(states, calls) && states[0] == FreshSys({k.a, k.b, k.c}, {k.x, k.y})
    ensures var s := states[|states| - 1];
      k.a in s.threads && OnCycle(s, k.a) && s.threads[k.a].prio == 1 && IsMostUrgent(s, k.a, 10)
  {
    states, calls := k.States(), k.Calls();
    k.ClosedFormFails();
    k.AllSteps();
    hide Step, Initial;
  }
}
