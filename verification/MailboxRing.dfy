/** The mailbox object: the ring buffer with its offsets, updated in place by each step. */
module MailboxRing {
  import opened Common
  import opened Waiting
  import opened Mailbox

  class MailboxObject {
    const msgPool: array<int>
    const flag: Flag
    var entry: nat
    var inOffset: nat
    var outOffset: nat
    var suspendThread: seq<Tid>
    var suspendSender: seq<Tid>
    var prio: map<Tid, nat>
    var threads: map<Tid, Thread>

    /** The offsets bound a run of `entry` slots that may wrap round the end of the pool. */
    ghost predicate InRing()
      reads this`entry, this`inOffset, this`outOffset
    {
      var size := msgPool.Length;
      && entry <= size
      && (size == 0 ==> inOffset == 0 && outOffset == 0)
      && (size > 0 ==> inOffset < size && outOffset < size
                       && inOffset == (if outOffset + entry < size then outOffset + entry
                                       else outOffset + entry - size))
    }

    ghost predicate Valid()
      reads this
    {
      InRing() && prio.Keys == threads.Keys && Known(suspendThread, prio) && Known(suspendSender, prio)
    }

    /** The stored mails, oldest first. */
    ghost function Contents(): (c: seq<int>)
      requires InRing()
      reads this`entry, this`inOffset, this`outOffset, msgPool
      ensures |c| == entry
    {
      if outOffset + entry <= msgPool.Length then msgPool[outOffset..outOffset + entry]
      else msgPool[outOffset..] + msgPool[..outOffset + entry - msgPool.Length]
    }

    ghost function Abs(): State
      requires Valid()
      reads this, msgPool
    {
      State(msgPool.Length, Contents(), flag, suspendThread, suspendSender, prio, threads)
    }

    /** `rt_mb_init` over a pool of `size` words, for a system of idle threads. */
    constructor (size: nat, flag: Flag, prio: map<Tid, nat>)
      ensures Valid() && fresh(msgPool) && msgPool.Length == size && Initial(Abs()) && this.prio == prio
    {
      msgPool := new int[size](_ => 0);
      this.flag := flag;
      entry, inOffset, outOffset := 0, 0, 0;
      suspendThread, suspendSender := [], [];
      this.prio := prio;
      threads := map t | t in prio :: Thread(Idle, EOK, false);
    }

    /** `rt_thread_resume` on the first waiter of either list. */
    method ResumeHead(sender: bool)
      requires Valid() && (if sender then suspendSender else suspendThread) != []
      requires NoDup(suspendThread) && NoDup(suspendSender)
      requires forall t :: t in suspendThread ==> t !in suspendSender
      modifies this`suspendThread, this`suspendSender, this`threads
      ensures Valid() && Abs() == WakeHead(old(Abs()), if sender then old(suspendSender) else old(suspendThread))
    {
      hide InRing, Contents, NoDup;
      if sender {
        var t := suspendSender[0];
        NotIn(suspendThread, t);
        suspendSender := suspendSender[1..];
        threads := threads[t := threads[t].(timer := false)];
      } else {
        var t := suspendThread[0];
        NotIn(suspendSender, t);
        suspendThread := suspendThread[1..];
        threads := threads[t := threads[t].(timer := false)];
      }
    }

    /** The store into the ring, after the wait loop of `rt_mb_send_wait`. */
    method Store(value: int)
      requires Valid() && Inv(Abs()) && entry < msgPool.Length
      modifies this, msgPool
      ensures Valid() && Abs() == Put(old(Abs()), value)
    {
      ghost var before := Contents();
      msgPool[inOffset] := value;
      inOffset := inOffset + 1;
      if inOffset >= msgPool.Length { inOffset := 0; }
      entry := entry + 1;
      assert Contents() == before + [value];
      if suspendThread != [] { ResumeHead(false); }
    }

    /** The load from the ring, after the wait loop of `rt_mb_recv`. */
    method Fetch() returns (value: int)
      requires Valid() && Inv(Abs()) && entry > 0
      modifies this
      ensures value == old(Contents())[0] && Valid() && Abs() == Get(old(Abs()))
    {
      ghost var before := Contents();
      value := msgPool[outOffset];
      outOffset := outOffset + 1;
      if outOffset >= msgPool.Length { outOffset := 0; }
      entry := entry - 1;
      assert forall k :: 0 <= k < entry ==> Contents()[k] == before[k + 1];
      assert Contents() == before[1..];
      if suspendSender != [] { ResumeHead(true); }
    }

    /** The tail of a call that gives up or succeeds. */
    method Leave(t: Tid, error: Err)
      requires Valid() && t in threads
      modifies this`threads
      ensures Valid() && Abs() == SetPlace(SetError(old(Abs()), t, error), t, Idle)
    {
      threads := threads[t := threads[t].(error := error)];
      threads := threads[t := threads[t].(place := Idle)];
    }

    /** `rt_ipc_list_suspend` on one of the lists and, for a positive wait, the thread's timer. */
    method Suspend(t: Tid, place: Place)
      requires Valid() && t in threads && !place.Idle?
      modifies this`threads, this`suspendSender, this`suspendThread
      ensures Valid() && Abs() == (if place.Sending? then SuspendSender(old(Abs()), t, place.value, place.timeout)
                                   else SuspendReceiver(old(Abs()), t, place.timeout))
    {
      hide Enqueue;
      if place.Sending? {
        EnqueueMembers(suspendSender, t, flag, prio);
        suspendSender := ListSuspend(suspendSender, t, flag, prio);
      } else {
        EnqueueMembers(suspendThread, t, flag, prio);
        suspendThread := ListSuspend(suspendThread, t, flag, prio);
      }
      threads := threads[t := Thread(place, EOK, place.timeout > 0)];
    }

    /** One pass through the loop of `rt_mb_send_wait`, up to suspending or returning. */
    method SendPass(t: Tid, value: int, timeout: int) returns (out: Output)
      requires Valid() && Inv(Abs()) && t in threads && !Queued(Abs(), t)
      modifies this, msgPool
      ensures Valid() && (Abs(), out) == SendLoop(old(Abs()), t, value, timeout)
    {
      hide Inv, Enqueue, Remove, WakeHead;
      if entry == msgPool.Length {
        if timeout == 0 {
          Leave(t, EOK);
          return Refused(EFULL);
        }
        Suspend(t, Sending(value, timeout));
        return Blocked;
      }
      PutKnown(Abs(), value, t);
      Store(value);
      threads := threads[t := threads[t].(place := Idle)];
      out := Accepted(value);
    }

    lemma PutKnown(s: State, value: int, t: Tid)
      requires Inv(s) && t in s.threads
      ensures t in Put(s, value).threads
      ensures s.queue != [] ==> t in Get(s).threads
    {
    }

    /** One pass through the loop of `rt_mb_recv`. */
    method RecvPass(t: Tid, timeout: int) returns (out: Output)
      requires Valid() && Inv(Abs()) && t in threads && !Queued(Abs(), t)
      modifies this, msgPool
      ensures Valid() && (Abs(), out) == RecvLoop(old(Abs()), t, timeout)
    {
      hide Inv, Enqueue, Remove, WakeHead;
      if entry == 0 {
        if timeout == 0 {
          Leave(t, ETIMEOUT);
          return Refused(ETIMEOUT);
        }
        Suspend(t, Receiving(timeout));
        return Blocked;
      }
      PutKnown(Abs(), 0, t);
      var value := Fetch();
      threads := threads[t := threads[t].(place := Idle)];
      out := Delivered(value);
    }

    /** `rt_mb_send_wait`, up to its first `rt_schedule` or its return. */
    method SendWait(t: Tid, value: int, timeout: int) returns (out: Output)
      requires Valid() && Inv(Abs()) && Enabled(Abs(), Send(t, value, timeout)) && !Queued(Abs(), t)
      modifies this, msgPool
      ensures Valid() && (Abs(), out) == Step(old(Abs()), Send(t, value, timeout)) && Inv(Abs())
    {
      StepKeepsInv(Abs(), Send(t, value, timeout));
      if entry == msgPool.Length && timeout == 0 { return Refused(EFULL); }
      out := SendPass(t, value, timeout);
    }

    /** `rt_mb_recv`, up to its first `rt_schedule` or its return. */
    method Recv(t: Tid, timeout: int) returns (out: Output)
      requires Valid() && Inv(Abs()) && Enabled(Abs(), Action.Recv(t, timeout)) && !Queued(Abs(), t)
      modifies this, msgPool
      ensures Valid() && (Abs(), out) == Step(old(Abs()), Action.Recv(t, timeout)) && Inv(Abs())
    {
      StepKeepsInv(Abs(), Action.Recv(t, timeout));
      if entry == 0 && timeout == 0 { return Refused(ETIMEOUT); }
      out := RecvPass(t, timeout);
    }

    /** Either call, from its return out of `rt_schedule` to the next one or its return. */
    method Continue(t: Tid, elapsed: nat) returns (out: Output)
      requires Valid() && Inv(Abs()) && Enabled(Abs(), Action.Continue(t, elapsed))
      modifies this, msgPool
      ensures Valid() && (Abs(), out) == Step(old(Abs()), Action.Continue(t, elapsed)) && Inv(Abs())
    {
      hide Inv, SendLoop, RecvLoop;
      StepKeepsInv(Abs(), Action.Continue(t, elapsed));
      var th := threads[t];
      if th.error != EOK {
        threads := threads[t := th.(place := Idle)];
        return Refused(th.error);
      }
      var timeout := th.place.timeout;
      if timeout > 0 {
        // timeout -= tick_delta, in 32 bits
        timeout := (timeout - elapsed) % 0x1_0000_0000;
        if timeout >= 0x8000_0000 { timeout := 0; }
      }
      if th.place.Sending? {
        out := SendPass(t, th.place.value, timeout);
      } else {
        out := RecvPass(t, timeout);
      }
    }

    /** `rt_thread_timeout` for a thread that waits here. */
    method ThreadTimeout(t: Tid)
      requires Valid() && Inv(Abs()) && Enabled(Abs(), Timeout(t))
      modifies this
      ensures Valid() && Abs() == Step(old(Abs()), Timeout(t)).0 && Inv(Abs())
    {
      hide NoDup, Remove;
      StepKeepsInv(Abs(), Timeout(t));
      RemoveMembers(suspendThread, t);
      RemoveMembers(suspendSender, t);
      suspendThread, suspendSender := Remove(suspendThread, t), Remove(suspendSender, t);
      threads := threads[t := threads[t].(error := ETIMEOUT, timer := false)];
      assert threads == Step(old(Abs()), Timeout(t)).0.threads;
    }

    /** `rt_mb_control` with RT_IPC_CMD_RESET: the loops of `rt_ipc_list_resume_all`, then an empty ring. */
    method ResetMailbox()
      requires Valid() && Inv(Abs())
      modifies this
      ensures Valid() && Abs() == Step(old(Abs()), Reset).0 && Inv(Abs())
    {
      hide Inv, NoDup, Contents, Failed;
      ghost var s := Abs();
      StepKeepsInv(s, Reset);
      NoneTwice(s);
      FailedBoth(s);
      ResumeAll(false);
      ResumeAll(true);
      entry, inOffset, outOffset := 0, 0, 0;
      assert Contents() == [];
    }

    lemma NoneTwice(s: State)
      requires Inv(s)
      ensures NoDup(s.receivers) && NoDup(s.senders) && NoDup([])
    {
    }

    /** Failing one list after the other fails every waiter of the mailbox. */
    lemma FailedBoth(s: State)
      ensures Failed(s.senders, [], Failed(s.receivers, [], s.threads)) == ResetStep(s).threads
    {
    }

    /** The effect of `rt_ipc_list_resume_all` on the threads of one list. */
    ghost function Failed(q: seq<Tid>, rest: seq<Tid>, was: map<Tid, Thread>): map<Tid, Thread> {
      map t | t in was :: if t in q && t !in rest then was[t].(error := ERROR, timer := false) else was[t]
    }

    lemma FailedStep(q: seq<Tid>, rest: seq<Tid>, was: map<Tid, Thread>)
      requires rest != [] && NoDup(rest) && (forall t :: t in rest ==> t in q) && rest[0] in was
      ensures rest[0] in Failed(q, rest, was)
      ensures var m := Failed(q, rest, was);
              Failed(q, rest[1..], was) == m[rest[0] := m[rest[0]].(error := ERROR, timer := false)]
      ensures NoDup(rest[1..]) && forall t :: t in rest[1..] ==> t in rest
    {
      assert rest == [rest[0]] + rest[1..];
      assert rest[0] !in rest[1..];
    }

    lemma FailedNone(q: seq<Tid>, was: map<Tid, Thread>)
      ensures Failed(q, q, was) == was
    {
    }

    /** `rt_ipc_list_resume_all` */
    method ResumeAll(sender: bool)
      requires Valid() && NoDup(suspendThread) && NoDup(suspendSender)
      modifies this`suspendThread, this`suspendSender, this`threads
      ensures Valid() && Contents() == old(Contents())
      ensures suspendThread == (if sender then old(suspendThread) else [])
      ensures suspendSender == (if sender then [] else old(suspendSender))
      ensures threads == Failed(if sender then old(suspendSender) else old(suspendThread), [], old(threads))
    {
      hide InRing, Contents, NoDup, Failed;
      ghost var all := if sender then suspendSender else suspendThread;
      FailedNone(all, threads);
      var rest := if sender then suspendSender else suspendThread;
      while rest != []
        invariant suspendThread == old(suspendThread) && suspendSender == old(suspendSender)
        invariant Known(rest, prio) && NoDup(rest) && threads.Keys == prio.Keys
        invariant forall t :: t in rest ==> t in all
        invariant threads == Failed(all, rest, old(threads))
        decreases |rest|
      {
        var t := rest[0];
        FailedStep(all, rest, old(threads));
        rest := rest[1..];
        threads := threads[t := threads[t].(error := ERROR, timer := false)];
      }
      if sender { suspendSender := []; } else { suspendThread := []; }
    }
  }
}
