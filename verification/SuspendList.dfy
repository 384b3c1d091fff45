/** The lists of threads suspended on an IPC object, and the bookkeeping of wake-ups.

    A thread that was taken off the list with RT_EOK is woken but has not run yet; when it does, it
    looks at the object again, and takes a unit, suspends again or gives up. */
module SuspendList {
  import opened Sequences

  datatype Thread = Thread(id: nat, prio: nat)

  /** RT_IPC_FLAG_FIFO and RT_IPC_FLAG_PRIO. */
  datatype Flag = Fifo | Prio

  ghost function SuspendPos(list: seq<Thread>, prio: nat): (k: nat)
    ensures k <= |list| && (forall j :: 0 <= j < k ==> list[j].prio <= prio) && (k < |list| ==> prio < list[k].prio)
  {
    if list == [] || prio < list[0].prio then 0 else 1 + SuspendPos(list[1..], prio)
  }

  ghost function Suspended(flag: Flag, list: seq<Thread>, t: Thread): seq<Thread> {
    if flag == Fifo then list + [t]
    else list[..SuspendPos(list, t.prio)] + [t] + list[SuspendPos(list, t.prio)..]
  }

  lemma {:induction false} SuspendPosIs(list: seq<Thread>, prio: nat, k: nat)
    requires k <= |list| && (forall j :: 0 <= j < k ==> list[j].prio <= prio) && (k < |list| ==> prio < list[k].prio)
    ensures SuspendPos(list, prio) == k
  {
    if k > 0 {
      assert list[0].prio <= prio;
      SuspendPosIs(list[1..], prio, k - 1);
    }
  }

  /** A list in the order of priority is sorted, so its first thread is one of the most urgent. */
  ghost predicate InOrder(flag: Flag, list: seq<Thread>) {
    flag == Prio ==> forall i, j :: 0 <= i < j < |list| ==> list[i].prio <= list[j].prio
  }

  /** Where a suspended thread stands: last, or behind all threads at least as urgent and in front of all
      others.  The rest keeps its order. */
  lemma SuspendedIs(flag: Flag, list: seq<Thread>, t: Thread)
    ensures flag == Fifo ==> Suspended(flag, list, t) == list + [t]
    ensures flag == Prio ==> exists k ::
      0 <= k <= |list| && Suspended(flag, list, t) == list[..k] + [t] + list[k..]
      && (forall j :: 0 <= j < k ==> list[j].prio <= t.prio)
      && (InOrder(flag, list) ==> forall j :: k <= j < |list| ==> t.prio < list[j].prio)
    ensures InOrder(flag, list) ==> InOrder(flag, Suspended(flag, list, t))
  {
    if flag == Prio {
      var k := SuspendPos(list, t.prio);
      var r := Suspended(flag, list, t);
      assert r == list[..k] + [t] + list[k..];
      if InOrder(flag, list) {
        PlacedInOrder(list, k, t);
      }
    }
  }

  lemma PlacedInOrder(list: seq<Thread>, k: nat, t: Thread)
    requires InOrder(Prio, list) && k <= |list|
    requires (forall j :: 0 <= j < k ==> list[j].prio <= t.prio) && (k < |list| ==> t.prio < list[k].prio)
    ensures forall j :: k <= j < |list| ==> t.prio < list[j].prio
    ensures InOrder(Prio, list[..k] + [t] + list[k..])
  {
    var r := list[..k] + [t] + list[k..];
    forall j | k <= j < |list| ensures t.prio < list[j].prio {
      assert list[k].prio <= list[j].prio;
    }
    assert forall i :: 0 <= i < |r| ==> r[i] == if i < k then list[i] else if i == k then t else list[i - 1];
  }

  /** rt_susp_list_enqueue. */
  method Enqueue(list: seq<Thread>, t: Thread, flag: Flag) returns (r: seq<Thread>)
    ensures r == Suspended(flag, list, t)
    ensures flag == Fifo ==> r == list + [t]
    ensures flag == Prio ==> exists k ::
      0 <= k <= |list| && r == list[..k] + [t] + list[k..]
      && (forall j :: 0 <= j < k ==> list[j].prio <= t.prio)
      && (InOrder(flag, list) ==> forall j :: k <= j < |list| ==> t.prio < list[j].prio)
    ensures InOrder(flag, list) ==> InOrder(flag, r)
  {
    SuspendedIs(flag, list, t);
    if flag == Fifo {
      return list + [t];
    }
    var n := 0;
    while n < |list| && list[n].prio <= t.prio
      invariant n <= |list| && forall j :: 0 <= j < n ==> list[j].prio <= t.prio
    {
      n := n + 1;
    }
    SuspendPosIs(list, t.prio, n);
    r := list[..n] + [t] + list[n..];
  }

  // ------------------------------------------------------------------------------------------
  // No wake-up is lost
  // ------------------------------------------------------------------------------------------

  /** The list is in its order; a thread is on it once, or woken, or neither; and as long as threads wait,
      there are no more units to be had than threads on their way to take one. */
  ghost predicate Fair(flag: Flag, list: seq<Thread>, woken: set<Thread>, units: nat) {
    && InOrder(flag, list) && Distinct(list) && (forall t :: t in list ==> t !in woken)
    && (list != [] ==> units <= |woken|)
  }

  /** A unit is added, and the first waiting thread woken. */
  lemma WakeFair(flag: Flag, list: seq<Thread>, woken: set<Thread>, units: nat)
    requires Fair(flag, list, woken, units)
    ensures list == [] ==> Fair(flag, list, woken, units + 1)
    ensures list != [] ==> Fair(flag, list[1..], woken + {list[0]}, units + 1)
  {
    if list != [] {
      assert list[0] in list;
      assert |woken + {list[0]}| == |woken| + 1;
      forall t | t in list[1..] ensures t !in woken + {list[0]} {
        var k :| 0 <= k < |list[1..]| && list[1..][k] == t;
        assert list[k + 1] == t;
      }
    }
  }

  /** A thread, woken or not, takes a unit. */
  lemma TakeFair(flag: Flag, list: seq<Thread>, woken: set<Thread>, units: nat, t: Thread)
    requires Fair(flag, list, woken, units) && units > 0
    ensures Fair(flag, list, woken - {t}, units - 1)
  {
    if t in woken {
      assert |woken - {t}| == |woken| - 1;
    } else {
      assert woken - {t} == woken;
    }
  }

  /** A thread that finds no unit gives up. */
  lemma GiveUpFair(flag: Flag, list: seq<Thread>, woken: set<Thread>, t: Thread)
    requires Fair(flag, list, woken, 0)
    ensures Fair(flag, list, woken - {t}, 0)
  {}

  /** A thread that finds no unit is suspended. */
  lemma SuspendFair(flag: Flag, list: seq<Thread>, woken: set<Thread>, t: Thread)
    requires Fair(flag, list, woken, 0) && t !in list
    ensures Fair(flag, Suspended(flag, list, t), woken - {t}, 0)
  {
    SuspendedIs(flag, list, t);
    var k := if flag == Fifo then |list| else SuspendPos(list, t.prio);
    var r := Suspended(flag, list, t);
    assert r == list[..k] + [t] + list[k..];
    hide Suspended;
    PlacedIsDistinct(list, k, t);
  }

  lemma PlacedIsDistinct(list: seq<Thread>, k: nat, t: Thread)
    requires Distinct(list) && t !in list && k <= |list|
    ensures var r := list[..k] + [t] + list[k..];
      Distinct(r) && forall x :: x in r <==> x == t || x in list
  {
    var r := list[..k] + [t] + list[k..];
    assert forall i :: 0 <= i < |r| ==> r[i] == if i < k then list[i] else if i == k then t else list[i - 1];
    assert list == list[..k] + list[k..];
  }

  /** The thread that is woken is one of the most urgent of those that wait for a priority-ordered object. */
  lemma FirstIsMostUrgent(flag: Flag, list: seq<Thread>, woken: set<Thread>, units: nat)
    requires Fair(flag, list, woken, units)
    ensures flag == Prio ==> forall t :: t in list ==> list[0].prio <= t.prio
  {
    if flag == Prio {
      forall t | t in list ensures list[0].prio <= t.prio {
        var k :| 0 <= k < |list| && list[k] == t;
      }
    }
  }

  lemma NobodyFair(flag: Flag, woken: set<Thread>, units: nat)
    ensures Fair(flag, [], woken, units)
  {}

  /** The timer takes a waiting thread off the list. */
  lemma ExpireFair(flag: Flag, list: seq<Thread>, woken: set<Thread>, units: nat, k: nat)
    requires Fair(flag, list, woken, units) && k < |list|
    ensures Fair(flag, list[..k] + list[k + 1..], woken, units)
  {
    var r := list[..k] + list[k + 1..];
    assert forall i :: 0 <= i < |r| ==> r[i] == list[if i < k then i else i + 1];
  }
}
