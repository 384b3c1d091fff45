/** The linked lists of message slots inside a message queue. */
module MessageList {
  import opened Sequences

  const NULL := -1

  /** struct rt_mq_message with the bytes that follow it, up to its length. */
  datatype Message = Message(next: int, prio: int, body: seq<bv8>)

  /** What a message is to those who send and receive it. */
  datatype Msg = Msg(prio: int, body: seq<bv8>)

  function LastOf(q: seq<nat>): int {
    if q == [] then NULL else q[|q| - 1]
  }

  /** Following the next fields from `head` visits exactly the slots `q`. */
  ghost predicate IsList(m: seq<Message>, head: int, q: seq<nat>) {
    && head == At(q, 0, NULL)
    && (forall k :: 0 <= k < |q| ==> q[k] < |m|)
    && (forall k {:trigger m[q[k]]} :: 0 <= k < |q| ==> m[q[k]].next == At(q, k + 1, NULL))
  }

  ghost function Contents(m: seq<Message>, q: seq<nat>): (c: seq<Msg>)
    requires forall k :: 0 <= k < |q| ==> q[k] < |m|
    ensures |c| == |q|
  {
    seq(|q|, k requires 0 <= k < |q| => Msg(m[q[k]].prio, m[q[k]].body))
  }

  /** A message goes in front of the first one less urgent. */
  ghost function InsertPos(c: seq<Msg>, prio: int): (k: nat)
    ensures k <= |c| && (forall j :: 0 <= j < k ==> c[j].prio >= prio) && (k < |c| ==> c[k].prio < prio)
  {
    if c == [] || c[0].prio < prio then 0 else 1 + InsertPos(c[1..], prio)
  }

  lemma {:induction false} InsertPosIs(c: seq<Msg>, prio: int, k: nat)
    requires k <= |c| && (forall j :: 0 <= j < k ==> c[j].prio >= prio) && (k < |c| ==> c[k].prio < prio)
    ensures InsertPos(c, prio) == k
  {
    if k > 0 {
      assert c[0].prio >= prio;
      InsertPosIs(c[1..], prio, k - 1);
    }
  }

  ghost function Insert(c: seq<Msg>, x: Msg): seq<Msg> {
    c[..InsertPos(c, x.prio)] + [x] + c[InsertPos(c, x.prio)..]
  }

  // ------------------------------------------------------------------------------------------
  // Changes of a list
  // ------------------------------------------------------------------------------------------

  /** The lists depend on the slots in them only. */
  lemma SameList(m: seq<Message>, m': seq<Message>, head: int, q: seq<nat>)
    requires IsList(m, head, q) && |m'| == |m| && forall x :: x in q ==> m'[x] == m[x]
    ensures IsList(m', head, q) && Contents(m', q) == Contents(m, q)
  {}

  lemma PopFront(m: seq<Message>, head: int, q: seq<nat>)
    requires IsList(m, head, q) && q != []
    ensures head == q[0] && head < |m| && IsList(m, m[head].next, q[1..])
    ensures Contents(m, q)[0] == Msg(m[head].prio, m[head].body) && Contents(m, q[1..]) == Contents(m, q)[1..]
  {
    assert forall k :: 0 <= k < |q[1..]| ==> q[1..][k] == q[k + 1];
  }

  /** Only next fields differ. */
  ghost predicate TextKept(m: seq<Message>, m': seq<Message>) {
    |m'| == |m| && forall x :: 0 <= x < |m| ==> m'[x].prio == m[x].prio && m'[x].body == m[x].body
  }

  lemma ContentsOfInsert(m: seq<Message>, m': seq<Message>, q: seq<nat>, k: nat, s: nat)
    requires TextKept(m, m') && k <= |q| && s < |m| && forall j :: 0 <= j < |q| ==> q[j] < |m|
    ensures forall j :: 0 <= j < |q[..k] + [s] + q[k..]| ==> (q[..k] + [s] + q[k..])[j] < |m|
    ensures Contents(m', q[..k] + [s] + q[k..]) ==
      Contents(m, q)[..k] + [Msg(m[s].prio, m[s].body)] + Contents(m, q)[k..]
  {
    var r := q[..k] + [s] + q[k..];
    assert forall j :: 0 <= j < |r| ==> r[j] == if j < k then q[j] else if j == k then s else q[j - 1];
  }

  /** `m'` is `m` with slot `s` linked in behind the first `k` slots of `q`. */
  ghost predicate LinkedIn(m: seq<Message>, q: seq<nat>, k: nat, s: nat, m': seq<Message>)
    requires forall j :: 0 <= j < |q| ==> q[j] < |m|
  {
    && |m'| == |m| && s < |m| && s !in q && k <= |q|
    && m'[s] == m[s].(next := At(q, k, NULL))
    && (k > 0 ==> m'[q[k - 1]] == m[q[k - 1]].(next := s))
    && (forall x :: 0 <= x < |m| && x != s && (k > 0 ==> x != q[k - 1]) ==> m'[x] == m[x])
  }

  lemma LinkInAt(m: seq<Message>, head: int, q: seq<nat>, k: nat, s: nat, m': seq<Message>, j: nat)
    requires IsList(m, head, q) && Distinct(q) && LinkedIn(m, q, k, s, m') && j <= |q|
    ensures var r := q[..k] + [s] + q[k..]; r[j] < |m'| && m'[r[j]].next == At(r, j + 1, NULL)
  {
    if j < k {
      assert m[q[j]].next == At(q, j + 1, NULL);
    } else if j > k {
      assert m[q[j - 1]].next == At(q, j, NULL);
    }
  }

  lemma LinkIn(m: seq<Message>, head: int, q: seq<nat>, k: nat, s: nat, m': seq<Message>)
    requires IsList(m, head, q) && Distinct(q) && LinkedIn(m, q, k, s, m')
    ensures var r := q[..k] + [s] + q[k..];
      IsList(m', if k == 0 then s else head, r) && LastOf(r) == (if k == |q| then s else LastOf(q))
    ensures TextKept(m, m')
  {
    assert k <= |q| && |m'| == |m|;
    LinkedText(m, q, k, s, m');
    hide LinkedIn, Distinct, TextKept;
    var r := q[..k] + [s] + q[k..];
    forall j | 0 <= j < |r| ensures r[j] < |m'| && m'[r[j]].next == At(r, j + 1, NULL) {
      LinkInAt(m, head, q, k, s, m', j);
    }
  }

  lemma LinkedText(m: seq<Message>, q: seq<nat>, k: nat, s: nat, m': seq<Message>)
    requires (forall j :: 0 <= j < |q| ==> q[j] < |m|) && LinkedIn(m, q, k, s, m')
    ensures TextKept(m, m')
  {}

  lemma PushFront(m: seq<Message>, head: int, q: seq<nat>, s: nat)
    requires IsList(m, head, q) && Distinct(q) && s < |m| && s !in q
    ensures var m' := m[s := m[s].(next := head)];
      IsList(m', s, [s] + q) && Contents(m', [s] + q) == [Msg(m[s].prio, m[s].body)] + Contents(m, q)
  {
    hide Contents, LinkedIn, Distinct, TextKept;
    var m' := m[s := m[s].(next := head)];
    FrontLinked(m, head, q, s);
    LinkIn(m, head, q, 0, s, m');
    ContentsOfInsert(m, m', q, 0, s);
    assert [s] + q == q[..0] + [s] + q[0..];
  }

  lemma FrontLinked(m: seq<Message>, head: int, q: seq<nat>, s: nat)
    requires IsList(m, head, q) && s < |m| && s !in q
    ensures LinkedIn(m, q, 0, s, m[s := m[s].(next := head)])
  {}

  // ------------------------------------------------------------------------------------------
  // Where the slots are
  // ------------------------------------------------------------------------------------------

  /** Each of the `n` slots is in exactly one place: queued, free, held by a send, or by a receive. */
  ghost predicate Partition(n: nat, queue: seq<nat>, free: seq<nat>, outgoing: set<nat>, incoming: set<nat>) {
    && Distinct(queue) && Distinct(free)
    && (forall s :: s in queue ==> s < n && s !in free && s !in outgoing && s !in incoming)
    && (forall s :: s in free ==> s < n && s !in outgoing && s !in incoming)
    && (forall s :: s in outgoing ==> s < n && s !in incoming)
    && (forall s :: s in incoming ==> s < n)
    && (forall s :: 0 <= s < n ==> s in queue || s in free || s in outgoing || s in incoming)
  }

  lemma Reserve(n: nat, queue: seq<nat>, free: seq<nat>, outgoing: set<nat>, incoming: set<nat>)
    requires Partition(n, queue, free, outgoing, incoming) && free != []
    ensures Partition(n, queue, free[1..], outgoing + {free[0]}, incoming) && free[0] !in outgoing
  {
    InTail(free);
  }

  lemma Link(n: nat, queue: seq<nat>, free: seq<nat>, outgoing: set<nat>, incoming: set<nat>, s: nat, k: nat)
    requires Partition(n, queue, free, outgoing, incoming) && s in outgoing && k <= |queue|
    ensures Partition(n, queue[..k] + [s] + queue[k..], free, outgoing - {s}, incoming) && |queue| < n
  {
    var r := queue[..k] + [s] + queue[k..];
    forall i, j | 0 <= i < j < |r| ensures r[i] != r[j] {
      assert i != k ==> r[i] == queue[if i < k then i else i - 1];
      assert j != k ==> r[j] == queue[if j < k then j else j - 1];
    }
    forall x ensures x in r <==> x == s || x in queue {
      assert queue == queue[..k] + queue[k..];
    }
    FewerThan(n, r);
  }

  lemma Unlink(n: nat, queue: seq<nat>, free: seq<nat>, outgoing: set<nat>, incoming: set<nat>)
    requires Partition(n, queue, free, outgoing, incoming) && queue != []
    ensures Partition(n, queue[1..], free, outgoing, incoming + {queue[0]}) && queue[0] !in incoming
  {
    InTail(queue);
  }

  lemma Recycle(n: nat, queue: seq<nat>, free: seq<nat>, outgoing: set<nat>, incoming: set<nat>, s: nat)
    requires Partition(n, queue, free, outgoing, incoming) && s in incoming
    ensures Partition(n, queue, [s] + free, outgoing, incoming - {s})
  {
    InTail([s] + free);
  }

  lemma InTail(q: seq<nat>)
    requires q != []
    ensures forall x :: x in q <==> x == q[0] || x in q[1..]
    ensures Distinct(q) <==> q[0] !in q[1..] && Distinct(q[1..])
  {
    assert forall i :: 0 <= i < |q[1..]| ==> q[1..][i] == q[i + 1];
    if q[0] !in q[1..] && Distinct(q[1..]) {
      forall i, j | 0 <= i < j < |q| ensures q[i] != q[j] {
        assert q[j] == q[1..][j - 1];
        if i > 0 { assert q[i] == q[1..][i - 1]; }
      }
    }
  }

  /** Distinct slots below `n` are at most `n`. */
  lemma {:induction false} FewerThan(n: nat, q: seq<nat>)
    requires Distinct(q) && forall x :: x in q ==> x < n
    ensures |q| <= n
  {
    if q != [] {
      assert q[0] in q;
      if n - 1 in q {
        var i :| 0 <= i < |q| && q[i] == n - 1;
        var r := q[..i] + q[i + 1..];
        assert forall j :: 0 <= j < |r| ==> r[j] == q[if j < i then j else j + 1];
        forall x | x in r ensures x < n - 1 {
          var j :| 0 <= j < |r| && r[j] == x;
          assert q[if j < i then j else j + 1] in q;
        }
        FewerThan(n - 1, r);
      } else {
        FewerThan(n - 1, q);
      }
    }
  }
}
