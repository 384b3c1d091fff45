/** The mailbox of ipc.c: a ring of mails with threads waiting at both ends.  Each method is one region
    under the mailbox's lock. */
module MailBox {
  import opened SuspendList

  const RT_MB_ENTRY_MAX := 65535

  datatype Reply = Done | Refused | Waits | Full
  datatype Mail = Got(value: int) | TimedOut | Blocked

  /** The `entry` mails from place `out` on, around the ring. */
  ghost function Mails(pool: seq<int>, out: nat, entry: nat): (r: seq<int>)
    requires out <= |pool| && entry <= |pool|
    ensures |r| == entry
  {
    if out + entry <= |pool| then pool[out..out + entry] else pool[out..] + pool[..out + entry - |pool|]
  }

  /** The place `k` places behind `p`. */
  function Around(size: nat, p: nat, k: nat): (r: nat)
    requires p < size && k <= size
    ensures r < size && (r == p + k || r + size == p + k)
  {
    if p + k < size then p + k else p + k - size
  }

  lemma MailAt(pool: seq<int>, out: nat, entry: nat, k: nat)
    requires out < |pool| && k < entry <= |pool|
    ensures Mails(pool, out, entry)[k] == pool[Around(|pool|, out, k)]
  {}

  lemma Append(pool: seq<int>, out: nat, entry: nat, value: int)
    requires out < |pool| && entry < |pool|
    ensures Mails(pool[Around(|pool|, out, entry) := value], out, entry + 1) == Mails(pool, out, entry) + [value]
  {
    var after := pool[Around(|pool|, out, entry) := value];
    forall k | 0 <= k < entry + 1 ensures Mails(after, out, entry + 1)[k] == (Mails(pool, out, entry) + [value])[k] {
      MailAt(after, out, entry + 1, k);
      if k < entry { MailAt(pool, out, entry, k); }
    }
    hide Mails;
  }

  lemma Prepend(pool: seq<int>, out: nat, entry: nat, value: int)
    requires out < |pool| && entry < |pool|
    ensures var p := if out > 0 then out - 1 else |pool| - 1;
      && Mails(pool[p := value], p, entry + 1) == [value] + Mails(pool, out, entry)
      && Around(|pool|, p, entry + 1) == Around(|pool|, out, entry)
  {
    var p := if out > 0 then out - 1 else |pool| - 1;
    var after := pool[p := value];
    forall k | 0 <= k < entry + 1 ensures Mails(after, p, entry + 1)[k] == ([value] + Mails(pool, out, entry))[k] {
      MailAt(after, p, entry + 1, k);
      if k > 0 { MailAt(pool, out, entry, k - 1); }
    }
    hide Mails;
  }

  lemma PopFront(pool: seq<int>, out: nat, entry: nat)
    requires out < |pool| && 0 < entry <= |pool|
    ensures var p := if out + 1 >= |pool| then 0 else out + 1;
      && Mails(pool, out, entry) == [pool[out]] + Mails(pool, p, entry - 1)
      && Around(|pool|, p, entry - 1) == Around(|pool|, out, entry)
  {
    var p := if out + 1 >= |pool| then 0 else out + 1;
    forall k | 0 <= k < entry ensures Mails(pool, out, entry)[k] == ([pool[out]] + Mails(pool, p, entry - 1))[k] {
      MailAt(pool, out, entry, k);
      if k > 0 { MailAt(pool, p, entry - 1, k - 1); }
    }
    hide Mails;
  }

  class Mb {
    const flag: Flag
    const pool: array<int>
    var inOffset: nat
    var outOffset: nat
    var entry: nat
    var receivers: seq<Thread>
    var senders: seq<Thread>
    /** The threads woken that have not run since. */
    ghost var receiversWoken: set<Thread>
    ghost var sendersWoken: set<Thread>

    ghost predicate Valid()
      reads this, pool
    {
      && pool.Length <= RT_MB_ENTRY_MAX && entry <= pool.Length
      && (if pool.Length == 0 then inOffset == outOffset == 0
          else outOffset < pool.Length && inOffset == Around(pool.Length, outOffset, entry))
      && Fair(flag, receivers, receiversWoken, entry) && Fair(flag, senders, sendersWoken, pool.Length - entry)
    }

    ghost function Contents(): seq<int>
      requires Valid()
      reads this, pool
    {
      Mails(pool[..], outOffset, entry)
    }

    /** rt_mb_init; the size is truncated to 16 bits, and may be 0. */
    constructor (size: nat, flag: Flag)
      ensures Valid() && Contents() == [] && pool.Length == size % (RT_MB_ENTRY_MAX + 1)
      ensures receivers == senders == [] && fresh(pool)
    {
      this.flag := flag;
      pool := new int[size % (RT_MB_ENTRY_MAX + 1)](_ => 0);
      inOffset, outOffset, entry := 0, 0, 0;
      receivers, senders, receiversWoken, sendersWoken := [], [], {}, {};
    }

    method WakeReceiver(ghost units: nat)
      requires Fair(flag, receivers, receiversWoken, units)
      modifies this`receivers, this`receiversWoken
      ensures Fair(flag, receivers, receiversWoken, units + 1)
      ensures old(receivers) == [] ==> receivers == [] && receiversWoken == old(receiversWoken)
      ensures old(receivers) != [] ==>
        receivers == old(receivers)[1..] && receiversWoken == old(receiversWoken) + {old(receivers)[0]}
      ensures flag == Prio ==> forall u :: u in old(receivers) ==> old(receivers)[0].prio <= u.prio
    {
      FirstIsMostUrgent(flag, receivers, receiversWoken, units);
      WakeFair(flag, receivers, receiversWoken, units);
      if receivers != [] {
        receiversWoken := receiversWoken + {receivers[0]};
        receivers := receivers[1..];
      }
    }

    method WakeSender(ghost units: nat)
      requires Fair(flag, senders, sendersWoken, units)
      modifies this`senders, this`sendersWoken
      ensures Fair(flag, senders, sendersWoken, units + 1)
      ensures old(senders) == [] ==> senders == [] && sendersWoken == old(sendersWoken)
      ensures old(senders) != [] ==>
        senders == old(senders)[1..] && sendersWoken == old(sendersWoken) + {old(senders)[0]}
      ensures flag == Prio ==> forall u :: u in old(senders) ==> old(senders)[0].prio <= u.prio
    {
      FirstIsMostUrgent(flag, senders, sendersWoken, units);
      WakeFair(flag, senders, sendersWoken, units);
      if senders != [] {
        sendersWoken := sendersWoken + {senders[0]};
        senders := senders[1..];
      }
    }

    /** _rt_mb_send_wait, also when a woken sender comes back: the mail is appended, or the thread gives up
        or is suspended.  The counter cannot overflow. */
    method Send(t: Thread, value: int, noWait: bool) returns (r: Reply)
      requires Valid() && t !in senders
      modifies this, pool
      ensures Valid() && sendersWoken == old(sendersWoken) - {t}
      ensures old(entry) < pool.Length && old(receivers) != [] ==>
        receivers == old(receivers)[1..] && receiversWoken == old(receiversWoken) + {old(receivers)[0]}
      ensures old(entry) < pool.Length && flag == Prio ==>
        forall u :: u in old(receivers) ==> old(receivers)[0].prio <= u.prio
      ensures old(entry) == pool.Length || old(receivers) == [] ==>
        receivers == old(receivers) && receiversWoken == old(receiversWoken)
      ensures old(entry) < pool.Length ==> r == Done && Contents() == old(Contents()) + [value] && unchanged(`senders)
      ensures old(entry) == pool.Length ==> r == (if noWait then Refused else Waits) && Contents() == old(Contents())
      ensures old(entry) == pool.Length ==>
        senders == (if noWait then old(senders) else Suspended(flag, old(senders), t))
    {
      hide Fair, Suspended, Mails;
      if entry == pool.Length {
        if noWait {
          GiveUpFair(flag, senders, sendersWoken, t);
          r := Refused;
        } else {
          SuspendFair(flag, senders, sendersWoken, t);
          senders := Enqueue(senders, t, flag);
          r := Waits;
        }
        sendersWoken := sendersWoken - {t};
        return;
      }
      Append(pool[..], outOffset, entry, value);
      TakeFair(flag, senders, sendersWoken, pool.Length - entry, t);
      sendersWoken := sendersWoken - {t};
      ghost var p := pool[..];
      pool[inOffset] := value;
      assert pool[..] == p[inOffset := value];
      inOffset := inOffset + 1;
      if inOffset >= pool.Length {
        inOffset := 0;
      }
      if entry < RT_MB_ENTRY_MAX {
        entry := entry + 1;
      } else {
        return Full;
      }
      WakeReceiver(entry - 1);
      r := Done;
    }

    /** rt_mb_urgent: the mail is put in front. */
    method Urgent(value: int) returns (r: Reply)
      requires Valid()
      modifies this, pool
      ensures Valid() && sendersWoken == old(sendersWoken) && unchanged(`senders)
      ensures old(entry) < pool.Length && old(receivers) != [] ==>
        receivers == old(receivers)[1..] && receiversWoken == old(receiversWoken) + {old(receivers)[0]}
      ensures old(entry) < pool.Length && flag == Prio ==>
        forall u :: u in old(receivers) ==> old(receivers)[0].prio <= u.prio
      ensures old(entry) == pool.Length || old(receivers) == [] ==>
        receivers == old(receivers) && receiversWoken == old(receiversWoken)
      ensures old(entry) < pool.Length ==> r == Done && Contents() == [value] + old(Contents())
      ensures old(entry) == pool.Length ==> r == Full && Contents() == old(Contents())
    {
      hide Fair, Mails;
      if entry == pool.Length { return Full; }
      Prepend(pool[..], outOffset, entry, value);
      SpaceTaken(flag, senders, sendersWoken, pool.Length - entry);
      ghost var p := pool[..];
      if outOffset > 0 {
        outOffset := outOffset - 1;
      } else {
        outOffset := pool.Length - 1;
      }
      pool[outOffset] := value;
      assert pool[..] == p[outOffset := value];
      entry := entry + 1;
      WakeReceiver(entry - 1);
      r := Done;
    }

    /** _rt_mb_recv, also when a woken receiver comes back. */
    method Receive(t: Thread, noWait: bool) returns (r: Mail)
      requires Valid() && t !in receivers
      modifies this
      ensures Valid() && receiversWoken == old(receiversWoken) - {t}
      ensures old(Contents()) != [] && old(senders) != [] ==>
        senders == old(senders)[1..] && sendersWoken == old(sendersWoken) + {old(senders)[0]}
      ensures old(Contents()) != [] && flag == Prio ==>
        forall u :: u in old(senders) ==> old(senders)[0].prio <= u.prio
      ensures old(Contents()) == [] || old(senders) == [] ==>
        senders == old(senders) && sendersWoken == old(sendersWoken)
      ensures old(Contents()) != [] ==>
        r == Got(old(Contents())[0]) && Contents() == old(Contents())[1..] && unchanged(`receivers)
      ensures old(Contents()) == [] ==> r == (if noWait then TimedOut else Blocked) && Contents() == []
      ensures old(Contents()) == [] ==>
        receivers == (if noWait then old(receivers) else Suspended(flag, old(receivers), t))
    {
      hide Fair, Suspended;
      if entry == 0 {
        if noWait {
          GiveUpFair(flag, receivers, receiversWoken, t);
          r := TimedOut;
        } else {
          SuspendFair(flag, receivers, receiversWoken, t);
          receivers := Enqueue(receivers, t, flag);
          r := Blocked;
        }
        receiversWoken := receiversWoken - {t};
        return;
      }
      PopFront(pool[..], outOffset, entry);
      TakeFair(flag, receivers, receiversWoken, entry, t);
      receiversWoken := receiversWoken - {t};
      r := Got(pool[outOffset]);
      outOffset := outOffset + 1;
      if outOffset >= pool.Length {
        outOffset := 0;
      }
      if entry > 0 {
        entry := entry - 1;
      }
      WakeSender(pool.Length - entry - 1);
    }

    /** The timer of a waiting thread expires. */
    method Expire(k: nat, sender: bool)
      requires Valid() && if sender then k < |senders| else k < |receivers|
      modifies this`senders, this`receivers
      ensures Valid() && Contents() == old(Contents())
      ensures sender ==> senders == old(senders)[..k] + old(senders)[k + 1..] && unchanged(`receivers)
      ensures !sender ==> receivers == old(receivers)[..k] + old(receivers)[k + 1..] && unchanged(`senders)
    {
      hide Fair;
      if sender {
        ExpireFair(flag, senders, sendersWoken, pool.Length - entry, k);
        senders := senders[..k] + senders[k + 1..];
      } else {
        ExpireFair(flag, receivers, receiversWoken, entry, k);
        receivers := receivers[..k] + receivers[k + 1..];
      }
    }

    /** RT_IPC_CMD_RESET. */
    method Reset()
      requires Valid()
      modifies this
      ensures Valid() && Contents() == [] && receivers == senders == []
      ensures receiversWoken == old(receiversWoken) && sendersWoken == old(sendersWoken)
    {
      receivers, senders := [], [];
      entry, inOffset, outOffset := 0, 0, 0;
      NobodyFair(flag, receiversWoken, 0);
      NobodyFair(flag, sendersWoken, pool.Length);
    }
  }

  /** A place is taken by someone who never waits for it. */
  lemma SpaceTaken(flag: Flag, list: seq<Thread>, woken: set<Thread>, units: nat)
    requires Fair(flag, list, woken, units) && units > 0
    ensures Fair(flag, list, woken, units - 1)
  {}
}
