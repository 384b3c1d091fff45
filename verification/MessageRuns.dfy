/** Without urgent sends the message queue is a stable priority queue.

    A run is the sequence of linking and unlinking steps, in the order in which they take the lock. */
module MessageRuns {
  import opened MessageList
  import MessageQueue

  /** A message, with the number of messages linked before it. */
  datatype Item = Item(msg: Msg, stamp: nat)

  datatype State = State(items: seq<Item>, clock: nat)

  datatype Event = Sent(msg: Msg) | Urgent(msg: Msg) | Received(msg: Msg) | Reset

  ghost function MsgsOf(items: seq<Item>): (c: seq<Msg>)
    ensures |c| == |items| && forall k :: 0 <= k < |c| ==> c[k] == items[k].msg
  {
    seq(|items|, k requires 0 <= k < |items| => items[k].msg)
  }

  /** The messages of the queue change as Mq.Link, Mq.LinkUrgent, Mq.TryReceive and Mq.Reset say. */
  ghost predicate Step(s: State, e: Event, t: State) {
    match e
    case Sent(x) =>
      var k := InsertPos(MsgsOf(s.items), x.prio);
      t == State(s.items[..k] + [Item(x, s.clock)] + s.items[k..], s.clock + 1)
    case Urgent(x) => t == State([Item(x, s.clock)] + s.items, s.clock + 1)
    case Received(x) => s.items != [] && s.items[0].msg == x && t == State(s.items[1..], s.clock)
    case Reset => t == State([], s.clock)
  }

  // ------------------------------------------------------------------------------------------
  // The methods of the queue take these steps
  // ------------------------------------------------------------------------------------------

  /** The state stands for what is in the queue. */
  ghost predicate Shows(s: State, q: MessageQueue.Mq)
    reads q`head, q`tail, q`freeHead, q`queue, q`free, q.pool
  {
    q.Lists() && MsgsOf(s.items) == q.Messages()
  }

  /** What the second region of a send does, on every queue: `Mq.Link` ensures the requirement. */
  twostate lemma LinkIsStep(q: MessageQueue.Mq, s: State, x: Msg) returns (t: State)
    requires old(Shows(s, q)) && q.Lists() && q.Messages() == Insert(old(q.Messages()), x)
    ensures Step(s, Sent(x), t) && Shows(t, q)
  {
    hide Contents, InsertPos, MsgsOf, MessageQueue.Mq.Lists;
    var k := InsertPos(MsgsOf(s.items), x.prio);
    MsgsOfInsert(s.items, k, Item(x, s.clock));
    t := State(s.items[..k] + [Item(x, s.clock)] + s.items[k..], s.clock + 1);
  }

  lemma MsgsOfInsert(items: seq<Item>, k: nat, x: Item)
    requires k <= |items|
    ensures MsgsOf(items[..k] + [x] + items[k..]) == MsgsOf(items)[..k] + [x.msg] + MsgsOf(items)[k..]
  {}

  twostate lemma LinkUrgentIsStep(q: MessageQueue.Mq, s: State, x: Msg) returns (t: State)
    requires old(Shows(s, q)) && q.Lists() && q.Messages() == [x] + old(q.Messages())
    ensures Step(s, Urgent(x), t) && Shows(t, q)
  {
    t := State([Item(x, s.clock)] + s.items, s.clock + 1);
  }

  twostate lemma ReceiveIsStep(q: MessageQueue.Mq, s: State) returns (t: State)
    requires old(Shows(s, q)) && q.Lists() && old(q.Messages()) != [] && q.Messages() == old(q.Messages())[1..]
    ensures Step(s, Received(old(q.Messages())[0]), t) && Shows(t, q)
  {
    t := State(s.items[1..], s.clock);
  }

  twostate lemma ResetIsStep(q: MessageQueue.Mq, s: State) returns (t: State)
    requires old(Shows(s, q)) && q.Lists() && q.Messages() == []
    ensures Step(s, Reset, t) && Shows(t, q)
  {
    t := State([], s.clock);
  }

  // ------------------------------------------------------------------------------------------
  // The abstract priority queue: a set of messages, and how long each has been in it
  // ------------------------------------------------------------------------------------------

  ghost function Pending(s: State): set<Item> {
    set x | x in s.items
  }

  predicate Before(x: Item, y: Item) {
    x.msg.prio > y.msg.prio || (x.msg.prio == y.msg.prio && x.stamp < y.stamp)
  }

  /** `x` is the most urgent message, and the oldest of those. */
  ghost predicate IsBest(p: set<Item>, x: Item) {
    x in p && forall y :: y in p && y != x ==> Before(x, y)
  }

  ghost predicate AbstractStep(p: set<Item>, clock: nat, e: Event, p': set<Item>) {
    match e
    case Sent(x) => p' == p + {Item(x, clock)} && Item(x, clock) !in p
    case Urgent(x) => false
    case Received(x) => exists b :: IsBest(p, b) && b.msg == x && p' == p - {b}
    case Reset => p' == {}
  }

  ghost predicate Ordered(s: State) {
    && (forall i, j :: 0 <= i < j < |s.items| ==> Before(s.items[i], s.items[j]))
    && (forall i :: 0 <= i < |s.items| ==> s.items[i].stamp < s.clock)
  }

  /** Where a message goes that is sent now. */
  lemma SentPlace(s: State, x: Msg) returns (k: nat)
    requires Ordered(s)
    ensures k == InsertPos(MsgsOf(s.items), x.prio) <= |s.items|
    ensures forall j :: 0 <= j < k ==> Before(s.items[j], Item(x, s.clock))
    ensures forall j :: k <= j < |s.items| ==> Before(Item(x, s.clock), s.items[j])
  {
    k := InsertPos(MsgsOf(s.items), x.prio);
    assert forall j :: 0 <= j < k ==> MsgsOf(s.items)[j].prio >= x.prio;
    if k < |s.items| {
      assert MsgsOf(s.items)[k].prio < x.prio;
      forall j | k < j < |s.items| ensures s.items[j].msg.prio < x.prio {
        assert Before(s.items[k], s.items[j]);
      }
    }
  }

  lemma SentRefines(s: State, x: Msg, t: State)
    requires Ordered(s) && Step(s, Sent(x), t)
    ensures Ordered(t) && Pending(t) == Pending(s) + {Item(x, s.clock)} && Item(x, s.clock) !in Pending(s)
  {
    var k := SentPlace(s, x);
    var r, it := t.items, Item(x, s.clock);
    hide InsertPos, MsgsOf, Before;
    Inserted(s.items, k, it);
    forall i, j | 0 <= i < j < |r| ensures Before(r[i], r[j]) {
      if i != k && j != k {
        assert Before(s.items[if i < k then i else i - 1], s.items[if j < k then j else j - 1]);
      }
    }
  }

  lemma Inserted(items: seq<Item>, k: nat, x: Item)
    requires k <= |items|
    ensures var r := items[..k] + [x] + items[k..];
      && (forall j :: 0 <= j < |r| ==> r[j] == if j < k then items[j] else if j == k then x else items[j - 1])
      && forall y :: y in r <==> y == x || y in items
  {
    assert items == items[..k] + items[k..];
  }

  lemma ReceivedRefines(s: State, x: Msg, t: State)
    requires Ordered(s) && Step(s, Received(x), t)
    ensures Ordered(t) && AbstractStep(Pending(s), s.clock, Received(x), Pending(t))
  {
    var b := s.items[0];
    forall y | y in Pending(s) && y != b ensures Before(b, y) {
      var j :| 0 <= j < |s.items| && s.items[j] == y;
    }
    assert s.items == [b] + t.items;
    forall i | 0 <= i < |t.items| ensures t.items[i] == s.items[i + 1] && t.items[i] != b {
      assert Before(s.items[0], s.items[i + 1]);
    }
    assert Pending(t) == Pending(s) - {b};
    assert IsBest(Pending(s), b);
  }

  lemma StepRefines(s: State, e: Event, t: State)
    requires Ordered(s) && Step(s, e, t) && !e.Urgent?
    ensures Ordered(t) && AbstractStep(Pending(s), s.clock, e, Pending(t))
  {
    match e
    case Sent(x) => SentRefines(s, x, t);
    case Received(x) => ReceivedRefines(s, x, t);
    case Reset =>
  }

  ghost predicate Run(s: seq<State>, es: seq<Event>) {
    && |s| == |es| + 1 && s[0] == State([], 0)
    && forall k, l {:trigger s[k], s[l]} :: 0 <= k && l == k + 1 && l < |s| ==> Step(s[k], es[k], s[l])
  }

  /** In every run without urgent sends the queue behaves as the abstract priority queue: what is
      received is always the most urgent message there is and, among those, the one linked first. */
  lemma {:induction false} RunRefines(s: seq<State>, es: seq<Event>)
    requires Run(s, es) && forall k :: 0 <= k < |es| ==> !es[k].Urgent?
    ensures forall k :: 0 <= k < |es| ==> AbstractStep(Pending(s[k]), s[k].clock, es[k], Pending(s[k + 1]))
    ensures Ordered(s[|s| - 1])
    decreases |es|
  {
    var n := |es|;
    if n > 0 {
      assert Run(s[..n], es[..n - 1]);
      RunRefines(s[..n], es[..n - 1]);
      assert s[..n][n - 1] == s[n - 1];
      assert Step(s[n - 1], es[n - 1], s[n]);
      StepRefines(s[n - 1], es[n - 1], s[n]);
      forall k | 0 <= k < n ensures AbstractStep(Pending(s[k]), s[k].clock, es[k], Pending(s[k + 1])) {
        if k < n - 1 {
          assert s[..n][k] == s[k] && s[..n][k + 1] == s[k + 1] && es[..n - 1][k] == es[k];
        }
      }
    }
  }

  // ------------------------------------------------------------------------------------------
  // Urgent messages
  // ------------------------------------------------------------------------------------------

  /** `states` are those of a queue to which the messages `xs` are sent one after the other. */
  ghost predicate Sends(states: seq<State>, xs: seq<Msg>) {
    && |states| == |xs| + 1
    && forall k, l {:trigger states[k], states[l]} :: 0 <= k && l == k + 1 && l < |states| ==>
      Step(states[k], Sent(xs[k]), states[l])
  }

  lemma SentFirst(s: State, x: Msg, t: State)
    requires Step(s, Sent(x), t) && s.items != []
    ensures t.items != [] && t.items[0] == if s.items[0].msg.prio < x.prio then Item(x, s.clock) else s.items[0]
  {
    InsertPosIs(MsgsOf(s.items), x.prio, InsertPos(MsgsOf(s.items), x.prio));
  }

  /** An urgent message stays in front until a message is sent whose priority is above the one the slot of
      the urgent message was left with, and not a moment longer. */
  lemma {:induction false} UrgentInFront(s: State, u: Msg, states: seq<State>, xs: seq<Msg>)
    requires Sends(states, xs) && Step(s, Urgent(u), states[0])
    ensures var v := states[|xs|];
      && v.items != [] && v.clock == s.clock + 1 + |xs|
      && (v.items[0] == Item(u, s.clock) || (v.items[0].msg.prio > u.prio && v.items[0].stamp > s.clock))
      && (v.items[0] == Item(u, s.clock) <==> forall k :: 0 <= k < |xs| ==> xs[k].prio <= u.prio)
    decreases |xs|
  {
    var n := |xs|;
    if n > 0 {
      assert Sends(states[..n], xs[..n - 1]);
      UrgentInFront(s, u, states[..n], xs[..n - 1]);
      assert Step(states[n - 1], Sent(xs[n - 1]), states[n]);
      SentFirst(states[n - 1], xs[n - 1], states[n]);
      assert xs == xs[..n - 1] + [xs[n - 1]];
    }
  }

  /** After any number of sends, the receive that follows takes the urgent message if and only if none of
      them had a priority above the one its slot was left with. */
  lemma UrgentOvertaken(s: State, u: Msg, states: seq<State>, xs: seq<Msg>, x: Msg, w: State)
    requires Sends(states, xs) && Step(s, Urgent(u), states[0]) && Step(states[|xs|], Received(x), w)
    ensures [Item(u, s.clock)] + w.items == states[|xs|].items <==> forall k :: 0 <= k < |xs| ==> xs[k].prio <= u.prio
    ensures if forall k :: 0 <= k < |xs| ==> xs[k].prio <= u.prio then x == u else x.prio > u.prio
  {
    UrgentInFront(s, u, states, xs);
    var v := states[|xs|];
    assert v.items == [v.items[0]] + w.items;
  }
}
