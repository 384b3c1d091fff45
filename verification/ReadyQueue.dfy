/** The ready lists, one for each priority, and the bitmap that says which of them hold a thread. */
module ReadyQueue {
  import opened Sequences
  import opened PriorityBitmap

  datatype State = Init | Close | Ready | Running | Suspended

  /** The scheduling part of a thread.  The state and the yield flag share a status word in the source. */
  class SchedCtx {
    var state: State
    var yielding: bool
    var initPrio: bv8
    var prio: bv8
    var number: bv8
    var numberMask: bv32
    var highMask: bv8
    var initTick: nat
    var remainingTick: nat

    /** rt_sched_thread_init_priv and rt_sched_thread_startup. */
    constructor (tick: nat, priority: bv8)
      ensures Masks() && state == Suspended && !yielding && prio == initPrio == priority
        && initTick == remainingTick == tick
    {
      state, yielding := Suspended, false;
      initPrio, prio := priority, priority;
      number := Number(priority);
      numberMask := NumberMask(Number(priority));
      highMask := HighMask(priority);
      initTick, remainingTick := tick, tick;
    }

    /** The masks belong to the priority. */
    predicate Masks()
      reads `prio, `number, `numberMask, `highMask
    {
      number == Number(prio) && numberMask == NumberMask(Number(prio)) && highMask == HighMask(prio)
    }
  }

  type Lists = seq<seq<SchedCtx>>

  function ListAt(lists: Lists, p: bv8): seq<SchedCtx>
    requires |lists| == 256
  {
    lists[Idx(p)]
  }

  function SetList(lists: Lists, p: bv8, l: seq<SchedCtx>): (r: Lists)
    requires |lists| == 256
    ensures |r| == 256
  {
    lists[Idx(p) := l]
  }

  lemma SetListAt(lists: Lists, p: bv8, l: seq<SchedCtx>, q: bv8)
    requires |lists| == 256
    ensures ListAt(SetList(lists, p, l), q) == if q == p then l else ListAt(lists, q)
  {
    IdxInjective(p, q);
    hide Idx;
  }

  lemma SetTwice(lists: Lists, p: bv8, k: seq<SchedCtx>, l: seq<SchedCtx>)
    requires |lists| == 256
    ensures SetList(SetList(lists, p, k), p, l) == SetList(lists, p, l) && SetList(lists, p, ListAt(lists, p)) == lists
    ensures ListAt(SetList(lists, p, l), p) == l
  {
    hide Idx;
  }

  /** The bit of a priority is set exactly if its list holds a thread. */
  ghost predicate Agrees(lists: Lists, table: Table, group: bv32) {
    && |lists| == 256 && |table| == 32 && GroupOk(group, table)
    && forall p: bv8 :: Marked(table, p) <==> ListAt(lists, p) != []
  }

  lemma InsertAgrees(lists: Lists, table: Table, group: bv32, p: bv8, l: seq<SchedCtx>)
    requires Agrees(lists, table, group) && l != []
    ensures Agrees(SetList(lists, p, l), Mark(table, p), SetGroup(group, Number(p)))
  {
    hide GroupOk, Marked, ListAt, SetList, Mark, SetGroup;
    MarkGroup(table, group, p);
    forall q: bv8 ensures Marked(Mark(table, p), q) <==> ListAt(SetList(lists, p, l), q) != [] {
      MarkAt(table, p, q);
      SetListAt(lists, p, l, q);
    }
  }

  lemma RemoveAgrees(lists: Lists, table: Table, group: bv32, p: bv8, l: seq<SchedCtx>)
    requires Agrees(lists, table, group) && (ListAt(lists, p) == [] ==> l == [])
    ensures l == [] ==> Agrees(SetList(lists, p, l), Unmark(table, p), UnmarkedGroup(table, group, p))
    ensures l != [] ==> Agrees(SetList(lists, p, l), table, group)
  {
    hide GroupOk, Marked, ListAt, SetList, Unmark, UnmarkedGroup;
    UnmarkGroup(table, group, p);
    forall q: bv8
      ensures l == [] ==> (Marked(Unmark(table, p), q) <==> ListAt(SetList(lists, p, l), q) != [])
      ensures l != [] ==> (Marked(table, q) <==> ListAt(SetList(lists, p, l), q) != [])
    {
      MarkAt(table, p, q);
      SetListAt(lists, p, l, q);
    }
  }

  /** `p` is the most urgent priority at which a thread is ready. */
  ghost predicate IsMostUrgent(lists: Lists, p: bv8)
    requires |lists| == 256
  {
    ListAt(lists, p) != [] && forall q: bv8 :: ListAt(lists, q) != [] ==> p <= q
  }

  /** The double find-first-set finds it. */
  lemma HighestIsMostUrgent(lists: Lists, table: Table, group: bv32)
    requires Agrees(lists, table, group) && group != 0
    ensures IsMostUrgent(lists, Highest(table, group))
  {
    hide Marked, ListAt, Highest, GroupOk;
    HighestIsLeast(table, group, 0);
    forall q: bv8 | ListAt(lists, q) != [] ensures Highest(table, group) <= q {
      HighestIsLeast(table, group, q);
    }
  }

  lemma NobodyReady(lists: Lists, table: Table, group: bv32)
    requires Agrees(lists, table, group)
    ensures group == 0 <==> forall p: bv8 :: ListAt(lists, p) == []
  {
    hide Marked, ListAt, GroupOk;
    GroupIsEmpty(table, group);
  }

  // ------------------------------------------------------------------------------------------
  // The threads in the lists
  // ------------------------------------------------------------------------------------------

  /** The lists hold exactly the threads of `ready`, each once and at its priority. */
  ghost predicate Holds(lists: Lists, ready: set<SchedCtx>)
    requires |lists| == 256
    reads ready`prio
  {
    && (forall p: bv8 :: Distinct(ListAt(lists, p)))
    && (forall p: bv8, t {:trigger t in ListAt(lists, p)} :: t in ListAt(lists, p) ==> t in ready && t.prio == p)
    && (forall t :: t in ready ==> t in ListAt(lists, t.prio))
  }

  ghost function Without(l: seq<SchedCtx>, t: SchedCtx): seq<SchedCtx> {
    if l == [] then [] else if l[0] == t then l[1..] else [l[0]] + Without(l[1..], t)
  }

  lemma {:induction false} WithoutIs(l: seq<SchedCtx>, t: SchedCtx)
    requires Distinct(l)
    ensures Distinct(Without(l, t)) && forall x :: x in Without(l, t) <==> x in l && x != t
    ensures t !in l ==> Without(l, t) == l
  {
    if l != [] {
      var r := l[1..];
      assert forall i :: 0 <= i < |r| ==> r[i] == l[i + 1];
      WithoutIs(r, t);
      assert l == [l[0]] + r;
      forall i, j | 0 <= i < j < |Without(l, t)| ensures Without(l, t)[i] != Without(l, t)[j] {
        if l[0] != t && i == 0 {
          assert Without(l, t)[j] in Without(r, t);
        }
      }
    }
  }

  /** Where rt_sched_insert_thread puts a thread: behind its peers if it gave up its slice, in front of
      them if not. */
  function Inserted(l: seq<SchedCtx>, t: SchedCtx, yielding: bool): seq<SchedCtx> {
    if yielding then l + [t] else [t] + l
  }

  lemma InsertHolds(lists: Lists, ready: set<SchedCtx>, t: SchedCtx, yielding: bool)
    requires |lists| == 256 && Holds(lists, ready) && t !in ready
    ensures Holds(SetList(lists, t.prio, Inserted(ListAt(lists, t.prio), t, yielding)), ready + {t})
  {
    hide ListAt, SetList;
    var l := ListAt(lists, t.prio);
    var r := SetList(lists, t.prio, Inserted(l, t, yielding));
    forall p: bv8 ensures ListAt(r, p) == if p == t.prio then Inserted(l, t, yielding) else ListAt(lists, p) {
      SetListAt(lists, t.prio, Inserted(l, t, yielding), p);
    }
    assert t !in l;
    assert forall x :: x in Inserted(l, t, yielding) <==> x == t || x in l;
    assert Distinct(l);
  }

  lemma RemoveHolds(lists: Lists, ready: set<SchedCtx>, t: SchedCtx)
    requires |lists| == 256 && Holds(lists, ready)
    ensures Holds(SetList(lists, t.prio, Without(ListAt(lists, t.prio), t)), ready - {t})
  {
    hide ListAt, SetList, Without;
    var l := ListAt(lists, t.prio);
    var r := SetList(lists, t.prio, Without(l, t));
    WithoutIs(l, t);
    forall p: bv8 ensures ListAt(r, p) == if p == t.prio then Without(l, t) else ListAt(lists, p) {
      SetListAt(lists, t.prio, Without(l, t), p);
    }
    assert forall p: bv8 :: t in ListAt(lists, p) ==> p == t.prio;
  }

  /** A turn of the group of peers: the first goes to the end. */
  function Turn(s: seq<SchedCtx>): seq<SchedCtx> {
    if s == [] then [] else s[1..] + [s[0]]
  }

  ghost function Turns(s: seq<SchedCtx>, n: nat): seq<SchedCtx>
    decreases n
  {
    if n == 0 then s else Turns(Turn(s), n - 1)
  }

  lemma {:induction false} TurnsAre(s: seq<SchedCtx>, n: nat)
    requires n <= |s|
    ensures Turns(s, n) == s[n..] + s[..n]
    decreases n
  {
    if n > 0 {
      TurnsAre(Turn(s), n - 1);
      assert Turn(s)[n - 1..] + Turn(s)[..n - 1] == s[n..] + s[..n];
    }
  }

  lemma {:induction false} TurnsNext(s: seq<SchedCtx>, n: nat)
    ensures Turns(s, n + 1) == Turn(Turns(s, n))
    decreases n
  {
    if n > 0 {
      TurnsNext(Turn(s), n - 1);
    }
  }

  /** As many turns as there are peers restore the order. */
  lemma FullTurn(s: seq<SchedCtx>)
    ensures Turns(s, |s|) == s
  {
    TurnsAre(s, |s|);
  }
}
