/**
 A message queue in place: the linked slots of MessageSlots, their bytes, and the waiting receivers. Each method
 is one region under the interrupt lock, or the copy of one byte outside it, and is proved to be the step of
 module MessageQueue, so the ownership, the contents and the wakeups proved there for every interleaving hold of
 the linked lists and the bytes of this object. The slot a thread holds is the only one it writes outside the
 lock.
 */
module MessageQueueObjects {
  import opened Common
  import opened Waiting
  import opened MessageQueue
  import opened MessageSlots

  class MessageQueueObject {
    const msgSize: nat
    const maxMsgs: nat
    const flag: Flag
    const slots: SlotLists
    var data: seq<Bytes>
    var suspendThread: seq<Tid>
    var prio: map<Tid, nat>
    var place: map<Tid, Place>
    var error: map<Tid, Err>
    var timers: set<Tid>
    /** The message last linked through each slot, kept only to say what is taken. */
    var sent: seq<Bytes>

    ghost function Abs(): State
      reads this, slots
    {
      State(msgSize, maxMsgs, flag, slots.freeSlots, slots.queueSlots,
            data, sent, suspendThread, prio, place, error, timers)
    }

    ghost predicate Valid()
      reads this, slots, slots.next
    {
      slots.Valid() && slots.next.Length == maxMsgs && Inv(Abs())
    }

    /** `rt_mq_init`, for a system of idle threads. */
    constructor (msgSize: nat, maxMsgs: nat, flag: Flag, prio: map<Tid, nat>)
      ensures Valid() && Initial(Abs()) && fresh(slots) && fresh(slots.next)
      ensures this.msgSize == msgSize && this.maxMsgs == maxMsgs && this.prio == prio
    {
      this.msgSize, this.maxMsgs, this.flag, this.prio := msgSize, maxMsgs, flag, prio;
      slots := new SlotLists(maxMsgs);
      data := seq(maxMsgs, x => seq(msgSize, k => 0));
      sent := seq(maxMsgs, x => []);
      suspendThread, timers := [], {};
      place := map t | t in prio :: Idle;
      error := map t | t in prio :: EOK;
      new;
      forall x: nat | x < maxMsgs ensures x in slots.freeSlots {
        assert slots.freeSlots[maxMsgs - 1 - x] == x;
      }
      assert WellFormed(Abs());
      InitialInv(Abs());
    }

    lemma Shape()
      requires Inv(Abs())
      ensures WellFormed(Abs())
    {
    }

    /** A slot a thread holds is in neither list. */
    lemma HeldIsLoose(t: Tid, x: Slot)
      requires Valid() && Holds(place, t, x)
      ensures slots.Loose(x)
    {
      assert t in place && PlaceOk(msgSize, maxMsgs, place[t]);
    }

    /** First critical section of `rt_mq_send` and `rt_mq_urgent`. */
    method ReserveSlot(t: Tid, msg: Bytes, urgent: bool) returns (out: Output)
      requires Valid() && Enabled(Abs(), Reserve(t, msg, urgent))
      modifies this`place, slots`free, slots`freeSlots
      ensures Valid() && (Abs(), out) == Step(old(Abs()), Reserve(t, msg, urgent))
    {
      hide Inv, MessageQueue.Enabled;
      Shape();
      StepKeepsInv(Abs(), Reserve(t, msg, urgent));
      if |msg| > msgSize { return Refused(ERROR); }
      var x := slots.TakeFree();
      if x == Nil { return Refused(EFULL); }
      place := place[t := Filling(x, msg, 0, urgent)];
      out := Quiet;
    }

    /** One byte of the copy into the slot. */
    method StoreByte(t: Tid)
      requires Valid() && Enabled(Abs(), CopyIn(t))
      modifies this`place, this`data
      ensures Valid() && Abs() == Step(old(Abs()), CopyIn(t)).0
    {
      hide Inv;
      Shape();
      StepKeepsInv(Abs(), CopyIn(t));
      var p := place[t];
      SlotBounds(t);
      data := data[p.slot := data[p.slot][p.done := p.msg[p.done]]];
      place := place[t := p.(done := p.done + 1)];
    }

    lemma SlotBounds(t: Tid)
      requires WellFormed(Abs()) && t in place
      ensures place[t].Filling? ==> place[t].slot < |data| && |place[t].msg| <= |data[place[t].slot]|
      ensures place[t].Reading? ==> place[t].slot < |data| && Amount(msgSize, place[t].size) <= |data[place[t].slot]|
    {
      assert PlaceOk(msgSize, maxMsgs, place[t]);
    }

    /** `rt_ipc_list_resume` of the first waiting receiver, if there is one. */
    method ResumeHead()
      modifies this`suspendThread, this`timers
      ensures Abs() == WakeHead(old(Abs()))
    {
      if suspendThread != [] {
        timers := timers - {suspendThread[0]};
        suspendThread := suspendThread[1..];
      }
    }

    /** Second critical section of a send. */
    method LinkSlot(t: Tid) returns (out: Output)
      requires Valid() && Enabled(Abs(), Link(t))
      modifies this, slots, slots.next
      ensures Valid() && (Abs(), out) == Step(old(Abs()), Link(t))
    {
      hide Inv, WakeHead;
      Shape();
      StepKeepsInv(Abs(), Link(t));
      var p := place[t];
      SlotBounds(t);
      HeldIsLoose(t, p.slot);
      if p.urgent {
        slots.LinkHead(p.slot);
      } else {
        slots.LinkTail(p.slot);
      }
      sent := sent[p.slot := p.msg];
      place := place[t := Idle];
      ResumeHead();
      out := Linked(p.msg, p.urgent);
    }

    /** `rt_ipc_list_suspend` and, for a positive wait, the thread's timer. */
    method SuspendReceiver(t: Tid, size: nat, timeout: int)
      requires WellFormed(Abs()) && t in place
      modifies this`suspendThread, this`place, this`error, this`timers
      ensures Abs() == Suspend(old(Abs()), t, size, timeout)
    {
      hide Enqueue;
      error := error[t := EOK];
      suspendThread := ListSuspend(suspendThread, t, flag, prio);
      place := place[t := Waiting(size, timeout)];
      timers := if timeout > 0 then timers + {t} else timers - {t};
    }

    /** One pass through the loop of `rt_mq_recv`: suspend, give up, or take the head off the queue. */
    method RecvPass(t: Tid, size: nat, timeout: int) returns (out: Output)
      requires slots.Valid() && WellFormed(Abs()) && t in place
      modifies this`suspendThread, this`place, this`error, this`timers, slots`head, slots`tail, slots`entry,
               slots`queueSlots
      ensures slots.Valid() && (Abs(), out) == RecvLoop(old(Abs()), t, size, timeout)
    {
      hide Suspend;
      if slots.entry == 0 {
        if timeout == 0 {
          place, error := place[t := Idle], error[t := ETIMEOUT];
          return Refused(ETIMEOUT);
        }
        SuspendReceiver(t, size, timeout);
        return Blocked;
      }
      assert slots.queueSlots[0] in slots.queueSlots;
      var head := slots.TakeHead();
      place := place[t := Reading(head, size, [])];
      out := Taken(sent[head]);
    }

    /** `rt_mq_recv`, up to its `rt_schedule`, its return, or its copy. */
    method RecvStart(t: Tid, size: nat, timeout: int) returns (out: Output)
      requires Valid() && Enabled(Abs(), Recv(t, size, timeout))
      modifies this, slots
      ensures Valid() && (Abs(), out) == Step(old(Abs()), Recv(t, size, timeout))
    {
      hide Inv, RecvLoop;
      Shape();
      StepKeepsInv(Abs(), Recv(t, size, timeout));
      EntryCounts();
      if slots.entry == 0 && timeout == 0 { return Refused(ETIMEOUT); }
      out := RecvPass(t, size, timeout);
    }

    lemma EntryCounts()
      requires slots.Valid()
      ensures slots.entry == 0 <==> slots.queueSlots == []
    {
    }

    /** A receive, from its return out of `rt_schedule` on. */
    method RecvContinue(t: Tid, elapsed: nat) returns (out: Output)
      requires Valid() && Enabled(Abs(), Continue(t, elapsed))
      modifies this, slots
      ensures Valid() && (Abs(), out) == Step(old(Abs()), Continue(t, elapsed))
    {
      hide Inv, RecvLoop;
      Shape();
      StepKeepsInv(Abs(), Continue(t, elapsed));
      if error[t] != EOK {
        place := place[t := Idle];
        return Refused(error[t]);
      }
      var timeout := place[t].timeout;
      if timeout > 0 {
        // timeout -= tick_delta, in 32 bits
        timeout := (timeout - elapsed) % 0x1_0000_0000;
        if timeout >= 0x8000_0000 { timeout := 0; }
      }
      out := RecvPass(t, place[t].size, timeout);
    }

    /** One byte of the copy out of the slot. */
    method LoadByte(t: Tid)
      requires Valid() && Enabled(Abs(), CopyOut(t))
      modifies this`place
      ensures Valid() && Abs() == Step(old(Abs()), CopyOut(t)).0
    {
      hide Inv;
      Shape();
      StepKeepsInv(Abs(), CopyOut(t));
      SlotBounds(t);
      var p := place[t];
      place := place[t := p.(buffer := p.buffer + [data[p.slot][|p.buffer|]])];
    }

    /** Last critical section of `rt_mq_recv`. */
    method ReleaseSlot(t: Tid) returns (out: Output)
      requires Valid() && Enabled(Abs(), Release(t))
      modifies this`place, slots`free, slots`freeSlots, slots.next
      ensures Valid() && (Abs(), out) == Step(old(Abs()), Release(t))
    {
      hide Inv;
      Shape();
      StepKeepsInv(Abs(), Release(t));
      var p := place[t];
      HeldIsLoose(t, p.slot);
      slots.PutFree(p.slot);
      place := place[t := Idle];
      out := Delivered(p.buffer);
    }

    /** `rt_thread_timeout` for a receiver that waits here. */
    method ThreadTimeout(t: Tid)
      requires Valid() && Enabled(Abs(), Timeout(t))
      modifies this`suspendThread, this`error, this`timers
      ensures Valid() && Abs() == Step(old(Abs()), Timeout(t)).0
    {
      hide Inv;
      Shape();
      StepKeepsInv(Abs(), Timeout(t));
      TimerKnown(t);
      error := error[t := ETIMEOUT];
      suspendThread := Remove(suspendThread, t);
      timers := timers - {t};
    }

    lemma TimerKnown(t: Tid)
      requires Valid() && t in timers
      ensures t in error
    {
    }

    /** `rt_mq_control` with RT_IPC_CMD_RESET. */
    method ResetQueue()
      requires Valid()
      modifies this, slots, slots.next
      ensures Valid() && Abs() == Step(old(Abs()), Reset).0
    {
      hide Inv, Reverse;
      Shape();
      StepKeepsInv(Abs(), Reset);
      var waiters := suspendThread;
      error := map t | t in error :: if t in waiters then ERROR else error[t];
      timers := set t | t in timers && t !in waiters;
      suspendThread := [];
      slots.ReleaseAll();
    }
  }
}
