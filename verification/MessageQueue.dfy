/** The message queue of ipc.c as a concurrent system.

    Sending and receiving drop the queue's lock: between reserving a slot and linking it, and between
    unlinking a slot and recycling it.  Every method here is one step, either a region under the lock
    or the copying in between, and asks of the queue only that it is valid; so whatever is proved holds
    for all interleavings of senders, urgent senders, receivers, time-outs and resets. */
module MessageQueue {
  import opened Sequences
  import opened MessageList
  import opened SuspendList

  const RT_MQ_ENTRY_MAX := 65535

  datatype Reply = Got(slot: nat) | Refused | Waits
  datatype Status = Ok | Full
  /** What a send under way put into its slot; only ordinary sends clear the slot's link at that point. */
  datatype Filled = Filled(ended: bool, body: seq<bv8>)

  class Mq {
    const flag: Flag
    const pool: array<Message>
    var head: int
    var tail: int
    var freeHead: int
    var entry: nat
    var receivers: seq<Thread>
    var senders: seq<Thread>

    /** The slots in the two lists. */
    ghost var queue: seq<nat>
    ghost var free: seq<nat>
    /** The slots reserved by sends under way; those in `filled` already hold what is to be sent. */
    ghost var outgoing: set<nat>
    ghost var filled: map<nat, Filled>
    /** The slots unlinked by receives under way, and the message each is to deliver. */
    ghost var incoming: map<nat, Msg>
    /** The threads woken that have not run since. */
    ghost var receiversWoken: set<Thread>
    ghost var sendersWoken: set<Thread>

    ghost predicate Lists()
      reads `head, `tail, `freeHead, `queue, `free, pool
    {
      IsList(pool[..], head, queue) && tail == LastOf(queue) && IsList(pool[..], freeHead, free)
    }

    /** Messages being sent or delivered are intact. */
    ghost predicate InFlight()
      reads `outgoing, `filled, `incoming, pool
    {
      && (forall s :: s in filled ==> s in outgoing)
      && (forall s :: s in filled ==>
           s < pool.Length && pool[s].body == filled[s].body && (filled[s].ended ==> pool[s].next == NULL))
      && (forall s :: s in incoming ==>
          s < pool.Length && pool[s].prio == incoming[s].prio && pool[s].body == incoming[s].body)
    }

    ghost predicate Valid()
      reads this, pool
    {
      && 0 < pool.Length <= RT_MQ_ENTRY_MAX
      && Lists() && InFlight() && entry == |queue|
      && Partition(pool.Length, queue, free, outgoing, incoming.Keys)
      && Fair(flag, receivers, receiversWoken, entry) && Fair(flag, senders, sendersWoken, |free|)
    }

    /** The messages in the queue. */
    ghost function Messages(): seq<Msg>
      requires Lists()
      reads `head, `tail, `freeHead, `queue, `free, pool
    {
      Contents(pool[..], queue)
    }

    // ----------------------------------------------------------------------------------------
    // rt_mq_init
    // ----------------------------------------------------------------------------------------

    constructor (maxMsgs: nat, flag: Flag)
      requires 0 < maxMsgs <= RT_MQ_ENTRY_MAX
      ensures Valid() && pool.Length == maxMsgs && this.flag == flag && fresh(pool)
      ensures queue == [] && |free| == maxMsgs && outgoing == {} && incoming == map[] && receivers == senders == []
    {
      this.flag := flag;
      pool := new Message[maxMsgs](_ => Message(NULL, 0, []));
      head, tail, freeHead, entry := NULL, NULL, NULL, 0;
      receivers, senders := [], [];
      queue, free, outgoing, filled, incoming := [], [], {}, map[], map[];
      receiversWoken, sendersWoken := {}, {};
      new;
      BuildFreeList();
    }

    /** The loop of rt_mq_init. */
    method BuildFreeList()
      requires 0 < pool.Length <= RT_MQ_ENTRY_MAX && head == tail == freeHead == NULL && entry == 0
      requires queue == free == [] && receivers == senders == [] && outgoing == {} && filled == map[]
        && incoming == map[]
      modifies pool, this`freeHead, this`free
      ensures Valid() && |free| == pool.Length
    {
      for temp := 0 to pool.Length
        invariant |free| == temp && (forall k :: 0 <= k < temp ==> free[k] == temp - 1 - k)
        invariant IsList(pool[..], freeHead, free)
      {
        PushFront(pool[..], freeHead, free, temp);
        hide IsList;
        ghost var m := pool[..];
        pool[temp] := pool[temp].(next := freeHead);
        assert pool[..] == m[temp := m[temp].(next := freeHead)];
        freeHead := temp;
        free := [temp] + free;
      }
      AllFree(pool.Length, free);
    }

    lemma FreeHead()
      requires Lists()
      ensures freeHead == At(free, 0, NULL)
    {}

    // ----------------------------------------------------------------------------------------
    // Sending
    // ----------------------------------------------------------------------------------------

    /** The first locked region of a send, also when a woken sender comes back to it: reserve a slot, or
        give up, or be suspended. */
    method TryReserve(t: Thread, noWait: bool) returns (r: Reply)
      requires Valid() && t !in senders
      modifies this
      ensures Valid() && Messages() == old(Messages()) && sendersWoken == old(sendersWoken) - {t}
      ensures unchanged(`queue, `incoming, `filled, `receivers, `receiversWoken, `entry)
      ensures if old(free) == [] then
          r == (if noWait then Refused else Waits) && unchanged(`free, `outgoing)
          && senders == (if noWait then old(senders) else Suspended(flag, old(senders), t))
        else
          r == Got(old(free)[0]) && free == old(free)[1..] && outgoing == old(outgoing) + {old(free)[0]}
          && unchanged(`senders)
    {
      hide Partition, Fair, Contents, Suspended, IsList, LastOf, Mq.InFlight;
      FreeHead();
      if freeHead == NULL {
        if noWait {
          GiveUpFair(flag, senders, sendersWoken, t);
          r := Refused;
        } else {
          SuspendFair(flag, senders, sendersWoken, t);
          senders := Enqueue(senders, t, flag);
          r := Waits;
        }
      } else {
        TakeFair(flag, senders, sendersWoken, |free|, t);
        var slot := TakeSlot();
        r := Got(slot);
      }
      sendersWoken := sendersWoken - {t};
    }

    method TakeSlot() returns (slot: nat)
      requires Lists() && InFlight() && free != [] && Partition(pool.Length, queue, free, outgoing, incoming.Keys)
      modifies this`freeHead, this`free, this`outgoing
      ensures Lists() && InFlight() && Partition(pool.Length, queue, free, outgoing, incoming.Keys)
      ensures slot == old(free)[0] && free == old(free)[1..] && outgoing == old(outgoing) + {slot}
    {
      hide Partition, IsList, LastOf;
      PopFront(pool[..], freeHead, free);
      MessageList.Reserve(pool.Length, queue, free, outgoing, incoming.Keys);
      slot := freeHead;
      freeHead := pool[slot].next;
      outgoing := outgoing + {slot};
      free := free[1..];
    }

    /** A slot in neither list is written. */
    method Write(slot: nat, x: Message)
      requires Lists() && slot < pool.Length && slot !in queue && slot !in free
      modifies pool
      ensures Lists() && Messages() == old(Messages()) && pool[..] == old(pool[..])[slot := x]
    {
      hide Contents;
      ghost var m := pool[..];
      pool[slot] := x;
      assert pool[..] == m[slot := x];
      SameList(m, pool[..], head, queue);
      SameList(m, pool[..], freeHead, free);
    }

    /** Between the two locked regions of a send: the reserved slot is filled, and an ordinary message
        becomes the end of a list. */
    method Fill(slot: nat, body: seq<bv8>, urgent: bool)
      requires Valid() && slot in outgoing
      modifies pool, this`filled
      ensures Valid() && Messages() == old(Messages()) && filled == old(filled)[slot := Filled(!urgent, body)]
      ensures var x := old(pool[slot]);
        pool[..] == old(pool[..])[slot := x.(next := if urgent then x.next else NULL, body := body)]
    {
      hide IsList, Contents, Fair;
      Write(slot, pool[slot].(next := if urgent then pool[slot].next else NULL, body := body));
      filled := filled[slot := Filled(!urgent, body)];
    }

    /** The loop of a send that puts the message in its place by priority. */
    method Place(slot: nat) returns (ghost k: nat)
      requires Lists() && slot < pool.Length && slot !in queue && pool[slot].next == NULL
      modifies pool, this`head, this`tail
      ensures LinkedIn(old(pool[..]), queue, k, slot, pool[..])
        && IsPlace(old(pool[..]), queue, old(pool[slot]).prio, k)
      ensures head == (if k == 0 then slot else old(head)) && tail == if k == |queue| then slot else old(tail)
    {
      ghost var m, q := pool[..], queue;
      var msg: int := slot;
      var prio := pool[slot].prio;
      if head == NULL {
        head := msg;
      }
      var node, prev := head, NULL;
      k := 0;
      while node != NULL
        invariant pool[..] == m && tail == old(tail)
        invariant head == if q == [] then slot else q[0]
        invariant if q == [] then k == 0 && node == slot && prev == NULL
          else k < |q| && node == q[k] && prev == if k == 0 then NULL else q[k - 1]
        invariant forall j :: 0 <= j < k ==> m[q[j]].prio >= prio
        decreases |q| - k
      {
        if pool[node].prio < prio {
          if prev == NULL {
            head := msg;
          } else {
            pool[prev] := pool[prev].(next := msg);
          }
          pool[msg] := pool[msg].(next := node);
          break;
        }
        if pool[node].next == NULL {
          if node != msg {
            pool[node] := pool[node].(next := msg);
          }
          tail := msg;
          k := |q|;
          break;
        }
        prev := node;
        node := pool[node].next;
        k := k + 1;
      }
    }

    method InsertByPrio(slot: nat)
      requires Lists() && Distinct(queue) && slot < pool.Length && slot !in queue && slot !in free
        && pool[slot].next == NULL
      requires forall x :: x in queue ==> x !in free
      modifies pool, this`head, this`tail, this`queue
      ensures Lists() && Messages() == Insert(old(Messages()), Msg(old(pool[slot]).prio, old(pool[slot]).body))
      ensures var k := InsertPos(old(Messages()), old(pool[slot]).prio);
        queue == old(queue)[..k] + [slot] + old(queue)[k..]
      ensures forall x :: 0 <= x < pool.Length && x != slot && x !in old(queue) ==> pool[x] == old(pool[x])
    {
      hide IsList, Contents, Insert, InsertPos, LinkedIn, LastOf, Distinct, IsPlace;
      ghost var m, q := pool[..], queue;
      ghost var k := Place(slot);
      Inserted(m, q, k, slot, pool[..], old(head), freeHead, free);
      queue := q[..k] + [slot] + q[k..];
    }

    /** The first waiting receiver, if any, is woken. */
    method WakeReceiver(ghost units: nat)
      requires Fair(flag, receivers, receiversWoken, units)
      modifies this`receivers, this`receiversWoken
      ensures old(receivers) == [] ==> receivers == [] && receiversWoken == old(receiversWoken)
      ensures old(receivers) != [] ==>
        receivers == old(receivers)[1..] && receiversWoken == old(receiversWoken) + {old(receivers)[0]}
      ensures flag == Prio ==> forall u :: u in old(receivers) ==> old(receivers)[0].prio <= u.prio
      ensures Fair(flag, receivers, receiversWoken, units + 1)
    {
      FirstIsMostUrgent(flag, receivers, receiversWoken, units);
      hide Fair;
      WakeFair(flag, receivers, receiversWoken, units);
      if receivers != [] {
        receiversWoken := receiversWoken + {receivers[0]};
        receivers := receivers[1..];
      }
    }

    method WakeSender(ghost units: nat)
      requires Fair(flag, senders, sendersWoken, units)
      modifies this`senders, this`sendersWoken
      ensures old(senders) == [] ==> senders == [] && sendersWoken == old(sendersWoken)
      ensures old(senders) != [] ==>
        senders == old(senders)[1..] && sendersWoken == old(sendersWoken) + {old(senders)[0]}
      ensures flag == Prio ==> forall u :: u in old(senders) ==> old(senders)[0].prio <= u.prio
      ensures Fair(flag, senders, sendersWoken, units + 1)
    {
      FirstIsMostUrgent(flag, senders, sendersWoken, units);
      hide Fair;
      WakeFair(flag, senders, sendersWoken, units);
      if senders != [] {
        sendersWoken := sendersWoken + {senders[0]};
        senders := senders[1..];
      }
    }

    /** The second locked region of a send: the message is linked in behind those that are at least as
        urgent, and a receiver woken.  The counter cannot overflow: a send never fails here. */
    method Link(slot: nat, prio: int) returns (r: Status)
      requires Valid() && slot in filled && filled[slot].ended
      modifies this, pool
      ensures Valid() && r == Ok
      ensures Messages() == Insert(old(Messages()), Msg(prio, old(filled)[slot].body))
      ensures outgoing == old(outgoing) - {slot} && filled == old(filled) - {slot}
      ensures old(receivers) == [] ==> receivers == [] && receiversWoken == old(receiversWoken)
      ensures old(receivers) != [] ==>
        receivers == old(receivers)[1..] && receiversWoken == old(receiversWoken) + {old(receivers)[0]}
      ensures flag == Prio ==> forall u :: u in old(receivers) ==> old(receivers)[0].prio <= u.prio
      ensures unchanged(`free, `incoming, `senders, `sendersWoken)
    {
      hide IsList, Contents, Insert, Fair, InsertPos, LastOf, Partition, Distinct, Mq.InFlight, Mq.Lists;
      Counts(slot, InsertPos(Messages(), prio));
      LinkAt(slot, prio);
      if entry < RT_MQ_ENTRY_MAX {
        entry := entry + 1;
      } else {
        return Full;
      }
      WakeReceiver(entry - 1);
      r := Ok;
    }

    lemma Counts(slot: nat, k: nat)
      requires Valid() && (slot in outgoing || slot in filled)
      ensures slot in outgoing && slot < pool.Length && slot !in queue && slot !in free && slot !in incoming
        && entry < pool.Length
      ensures Distinct(queue) && forall x :: x in queue ==> x !in free && x !in outgoing && x !in incoming
      ensures k <= |queue| ==>
        Partition(pool.Length, queue[..k] + [slot] + queue[k..], free, outgoing - {slot}, incoming.Keys)
    {
      hide IsList, Fair;
      MessageList.Link(pool.Length, queue, free, outgoing, incoming.Keys, slot, if k <= |queue| then k else 0);
    }

    /** The priority is set and the message put in its place. */
    method LinkAt(slot: nat, prio: int)
      requires Lists() && InFlight() && slot in filled && filled[slot].ended && slot !in queue && slot !in free
        && slot !in incoming && Distinct(queue)
      requires forall x :: x in queue ==> x !in free && x !in outgoing && x !in incoming
      modifies pool, this`head, this`tail, this`queue, this`filled, this`outgoing
      ensures Lists() && InFlight() && Messages() == Insert(old(Messages()), Msg(prio, old(filled)[slot].body))
      ensures var k := InsertPos(old(Messages()), prio);
        k <= |old(queue)| && queue == old(queue)[..k] + [slot] + old(queue)[k..]
      ensures filled == old(filled) - {slot} && outgoing == old(outgoing) - {slot}
    {
      hide IsList, Contents, Insert, InsertPos, LastOf, Distinct;
      Write(slot, pool[slot].(prio := prio));
      InsertByPrio(slot);
      filled := filled - {slot};
      outgoing := outgoing - {slot};
    }

    /** The second locked region of rt_mq_urgent: the message goes to the front, with whatever priority
        the slot was last used with. */
    method LinkUrgent(slot: nat) returns (r: Status)
      requires Valid() && slot in filled
      modifies this, pool
      ensures Valid() && r == Ok
      ensures Messages() == [Msg(old(pool[slot]).prio, old(filled)[slot].body)] + old(Messages())
      ensures outgoing == old(outgoing) - {slot} && filled == old(filled) - {slot}
      ensures old(receivers) == [] ==> receivers == [] && receiversWoken == old(receiversWoken)
      ensures old(receivers) != [] ==>
        receivers == old(receivers)[1..] && receiversWoken == old(receiversWoken) + {old(receivers)[0]}
      ensures flag == Prio ==> forall u :: u in old(receivers) ==> old(receivers)[0].prio <= u.prio
      ensures unchanged(`free, `incoming, `senders, `sendersWoken)
    {
      hide IsList, Contents, Fair, LastOf, Partition, Distinct, Mq.InFlight, Mq.Lists;
      Counts(slot, 0);
      assert queue[..0] + [slot] + queue[0..] == [slot] + queue;
      LinkFirst(slot);
      if entry < RT_MQ_ENTRY_MAX {
        entry := entry + 1;
      } else {
        return Full;
      }
      WakeReceiver(entry - 1);
      r := Ok;
    }

    method LinkFirst(slot: nat)
      requires Lists() && InFlight() && slot in filled && slot !in queue && slot !in free && slot !in incoming
        && Distinct(queue)
      requires forall x :: x in queue ==> x !in free && x !in outgoing && x !in incoming
      modifies pool, this`head, this`tail, this`queue, this`filled, this`outgoing
      ensures Lists() && InFlight() && queue == [slot] + old(queue)
      ensures Messages() == [Msg(old(pool[slot]).prio, old(filled)[slot].body)] + old(Messages())
      ensures filled == old(filled) - {slot} && outgoing == old(outgoing) - {slot}
    {
      hide Contents, Distinct;
      ghost var m, q := pool[..], queue;
      PushFront(m, head, q, slot);
      SameList(m, m[slot := m[slot].(next := head)], freeHead, free);
      hide IsList;
      pool[slot] := pool[slot].(next := head);
      assert pool[..] == m[slot := m[slot].(next := head)];
      head := slot;
      if tail == NULL {
        tail := slot;
      }
      queue := [slot] + queue;
      filled := filled - {slot};
      outgoing := outgoing - {slot};
    }

    // ----------------------------------------------------------------------------------------
    // Receiving
    // ----------------------------------------------------------------------------------------

    /** The first locked region of a receive, also when a woken receiver comes back to it: unlink the
        first message, or give up, or be suspended. */
    method TryReceive(t: Thread, noWait: bool) returns (r: Reply)
      requires Valid() && t !in receivers
      modifies this
      ensures Valid() && receiversWoken == old(receiversWoken) - {t}
      ensures unchanged(`free, `outgoing, `filled, `senders, `sendersWoken)
      ensures if old(Messages()) == [] then
          r == (if noWait then Refused else Waits) && Messages() == [] && unchanged(`incoming)
          && receivers == (if noWait then old(receivers) else Suspended(flag, old(receivers), t))
        else
          r.Got? && Messages() == old(Messages())[1..] && unchanged(`receivers)
          && incoming == old(incoming)[r.slot := old(Messages())[0]] && r.slot !in old(incoming)
    {
      hide Partition, Fair, Suspended, IsList, Contents;
      if entry == 0 {
        if noWait {
          GiveUpFair(flag, receivers, receiversWoken, t);
          r := Refused;
        } else {
          SuspendFair(flag, receivers, receiversWoken, t);
          receivers := Enqueue(receivers, t, flag);
          r := Waits;
        }
      } else {
        TakeFair(flag, receivers, receiversWoken, entry, t);
        var slot := Unlink();
        r := Got(slot);
      }
      receiversWoken := receiversWoken - {t};
    }

    method Unlink() returns (slot: nat)
      requires Lists() && InFlight() && queue != [] && entry == |queue|
      requires Partition(pool.Length, queue, free, outgoing, incoming.Keys)
      modifies this`head, this`tail, this`entry, this`queue, this`incoming
      ensures Lists() && InFlight() && entry == |queue| == |old(queue)| - 1
      ensures Partition(pool.Length, queue, free, outgoing, incoming.Keys)
      ensures Messages() == old(Messages())[1..] && slot !in old(incoming)
      ensures incoming == old(incoming)[slot := old(Messages())[0]]
    {
      hide Contents, Partition, IsList, LastOf;
      LastIsOnly(pool.Length, queue, free, outgoing, incoming.Keys);
      PopFront(pool[..], head, queue);
      MessageList.Unlink(pool.Length, queue, free, outgoing, incoming.Keys);
      slot := head;
      ghost var x := Messages()[0];
      head := pool[slot].next;
      if tail == slot {
        tail := NULL;
      }
      if entry > 0 {
        entry := entry - 1;
      }
      queue := queue[1..];
      assert incoming[slot := x].Keys == incoming.Keys + {slot};
      incoming := incoming[slot := x];
    }

    /** Between the two locked regions of a receive: the message unlinked is what is delivered. */
    method Copy(slot: nat) returns (x: Msg)
      requires Valid() && slot in incoming
      ensures x == incoming[slot]
    {
      x := Msg(pool[slot].prio, pool[slot].body);
    }

    /** The second locked region of a receive: the slot is free again, and a sender woken. */
    method Recycle(slot: nat)
      requires Valid() && slot in incoming
      modifies this, pool
      ensures Valid() && Messages() == old(Messages())
      ensures free == [slot] + old(free) && incoming == old(incoming) - {slot}
      ensures old(senders) == [] ==> senders == [] && sendersWoken == old(sendersWoken)
      ensures old(senders) != [] ==>
        senders == old(senders)[1..] && sendersWoken == old(sendersWoken) + {old(senders)[0]}
      ensures flag == Prio ==> forall u :: u in old(senders) ==> old(senders)[0].prio <= u.prio
      ensures unchanged(`queue, `outgoing, `filled, `receivers, `receiversWoken)
    {
      hide IsList, Contents, Fair, LastOf, Partition, Distinct;
      Freeable(slot);
      MessageList.Recycle(pool.Length, queue, free, outgoing, incoming.Keys, slot);
      assert (incoming - {slot}).Keys == incoming.Keys - {slot};
      FreeSlot(slot);
      incoming := incoming - {slot};
      WakeSender(|free| - 1);
    }

    lemma Freeable(slot: nat)
      requires Valid() && slot in incoming
      ensures slot < pool.Length && slot !in queue && slot !in free && slot !in outgoing && Distinct(free)
    {}

    /** A slot in neither list is put in front of the free list. */
    method FreeSlot(slot: nat)
      requires Lists() && Distinct(free) && slot < pool.Length && slot !in queue && slot !in free
      modifies pool, this`freeHead, this`free
      ensures Lists() && Messages() == old(Messages()) && free == [slot] + old(free)
      ensures forall x :: 0 <= x < pool.Length && x != slot ==> pool[x] == old(pool[x])
    {
      hide Contents, Distinct;
      ghost var m := pool[..];
      PushFront(m, freeHead, free, slot);
      SameList(m, m[slot := m[slot].(next := freeHead)], head, queue);
      hide IsList;
      pool[slot] := pool[slot].(next := freeHead);
      assert pool[..] == m[slot := m[slot].(next := freeHead)];
      freeHead := slot;
      free := [slot] + free;
    }

    // ----------------------------------------------------------------------------------------
    // Time-outs and reset
    // ----------------------------------------------------------------------------------------

    /** The timer of a waiting receiver expires. */
    method ExpireReceiver(k: nat)
      requires Valid() && k < |receivers|
      modifies this`receivers
      ensures Valid() && receivers == old(receivers)[..k] + old(receivers)[k + 1..]
    {
      hide Partition, Fair, IsList, Mq.InFlight, Mq.Lists;
      ExpireFair(flag, receivers, receiversWoken, entry, k);
      receivers := receivers[..k] + receivers[k + 1..];
    }

    /** The timer of a waiting sender expires. */
    method ExpireSender(k: nat)
      requires Valid() && k < |senders|
      modifies this`senders
      ensures Valid() && senders == old(senders)[..k] + old(senders)[k + 1..]
    {
      hide Partition, Fair, IsList, Mq.InFlight, Mq.Lists;
      ExpireFair(flag, senders, sendersWoken, |free|, k);
      senders := senders[..k] + senders[k + 1..];
    }

    /** RT_IPC_CMD_RESET: all waiting threads return with an error, all queued messages are dropped;
        sends and receives under way are not touched. */
    method Reset()
      requires Valid()
      modifies this, pool
      ensures Valid() && Messages() == [] && receivers == senders == []
      ensures unchanged(`outgoing, `filled, `incoming, `receiversWoken, `sendersWoken)
    {
      hide Mq.Lists, Mq.InFlight, Partition, Fair, Contents;
      receivers, senders := [], [];
      HeadIsNull();
      while head != NULL
        modifies pool, this`head, this`tail, this`queue, this`freeHead, this`free
        invariant Lists() && InFlight() && Partition(pool.Length, queue, free, outgoing, incoming.Keys)
        invariant head == NULL <==> queue == []
        decreases |queue|
      {
        DropFirst();
        HeadIsNull();
      }
      entry := 0;
      NobodyFair(flag, receiversWoken, 0);
      NobodyFair(flag, sendersWoken, |free|);
    }

    lemma HeadIsNull()
      requires Lists()
      ensures head == NULL <==> queue == []
    {}

    method DropFirst()
      requires Lists() && InFlight() && queue != [] && Partition(pool.Length, queue, free, outgoing, incoming.Keys)
      modifies pool, this`head, this`tail, this`queue, this`freeHead, this`free
      ensures Lists() && InFlight() && Partition(pool.Length, queue, free, outgoing, incoming.Keys)
      ensures queue == old(queue)[1..] && free == [old(queue)[0]] + old(free)
    {
      hide Contents, IsList, Partition, Distinct, LastOf;
      LastIsOnly(pool.Length, queue, free, outgoing, incoming.Keys);
      PopFront(pool[..], head, queue);
      Dropped(pool.Length, queue, free, outgoing, incoming.Keys);
      var msg := head;
      head := pool[msg].next;
      if tail == msg {
        tail := NULL;
      }
      queue := queue[1..];
      FreeSlot(msg);
    }
  }

  ghost predicate IsPlace(m: seq<Message>, q: seq<nat>, prio: int, k: nat)
    requires forall j :: 0 <= j < |q| ==> q[j] < |m|
  {
    k <= |q| && (forall j :: 0 <= j < k ==> m[q[j]].prio >= prio) && (k < |q| ==> m[q[k]].prio < prio)
  }

  /** The loop ended with slot `s` linked in behind the first `k` messages, which are not less urgent. */
  lemma Inserted(m: seq<Message>, q: seq<nat>, k: nat, s: nat, m': seq<Message>, head: int, freeHead: int,
                 free: seq<nat>)
    requires IsList(m, head, q) && Distinct(q) && LinkedIn(m, q, k, s, m') && IsPlace(m, q, m[s].prio, k)
    requires IsList(m, freeHead, free) && s !in free && forall x :: x in q ==> x !in free
    ensures var r := q[..k] + [s] + q[k..];
      && IsList(m', if k == 0 then s else head, r) && LastOf(r) == (if k == |q| then s else LastOf(q))
      && Contents(m', r) == Insert(Contents(m, q), Msg(m[s].prio, m[s].body))
      && k == InsertPos(Contents(m, q), m[s].prio)
    ensures forall x :: 0 <= x < |m| && x != s && x !in q ==> m'[x] == m[x]
    ensures IsList(m', freeHead, free)
  {
    LinkIn(m, head, q, k, s, m');
    ContentsOfInsert(m, m', q, k, s);
    InsertPosIs(Contents(m, q), m[s].prio, k);
    SameList(m, m', freeHead, free);
  }

  /** The first slot of the queue is its tail only if it is the only one. */
  lemma LastIsOnly(n: nat, queue: seq<nat>, free: seq<nat>, outgoing: set<nat>, incoming: set<nat>)
    requires Partition(n, queue, free, outgoing, incoming) && queue != []
    ensures LastOf(queue[1..]) == if LastOf(queue) == queue[0] then NULL else LastOf(queue)
  {}

  lemma Dropped(n: nat, queue: seq<nat>, free: seq<nat>, outgoing: set<nat>, incoming: set<nat>)
    requires Partition(n, queue, free, outgoing, incoming) && queue != []
    ensures Partition(n, queue[1..], [queue[0]] + free, outgoing, incoming)
    ensures queue[0] !in queue[1..] && queue[0] !in free && queue[0] !in outgoing && queue[0] !in incoming
    ensures Distinct(free) && queue[0] < n
  {
    InTail(queue);
    InTail([queue[0]] + free);
  }

  lemma AllFree(n: nat, free: seq<nat>)
    requires |free| == n && forall k :: 0 <= k < n ==> free[k] == n - 1 - k
    ensures Partition(n, [], free, {}, {})
  {
    forall s | 0 <= s < n ensures s in free {
      assert free[n - 1 - s] == s;
    }
  }
}
