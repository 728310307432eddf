/**
 Mailboxes as a step system.  A step is one region between disabling and enabling interrupts;
 a blocking call is split at `rt_schedule` into the step that suspends and the step that continues
 once the thread runs again.  Any number of threads, any interleaving.
 */
module Mailbox {
  import opened Common
  import opened Waiting

  /** `Sending` and `Receiving` threads are inside the wait loop: suspended, or woken and yet to re-check. */
  datatype Place = Idle | Sending(value: int, timeout: int) | Receiving(timeout: int)

  datatype Thread = Thread(place: Place, error: Err, timer: bool)

  datatype State = State(
    size: nat, queue: seq<int>, flag: Flag,
    receivers: seq<Tid>, senders: seq<Tid>,
    prio: map<Tid, nat>, threads: map<Tid, Thread>)

  datatype Action =
    | Send(t: Tid, value: int, timeout: int)
    | SendFromIsr(value: int)
    | Recv(t: Tid, timeout: int)
    | Continue(t: Tid, elapsed: nat)
    | Timeout(t: Tid)
    | Resume(t: Tid)
    | ChangePriority(t: Tid, p: nat)
    | Reset

  datatype Output = Accepted(value: int) | Delivered(value: int) | Cleared | Refused(error: Err) | Blocked | Quiet

  // ---- Waiting and waking ----

  predicate Queued(s: State, t: Tid) {
    t in s.receivers || t in s.senders
  }

  predicate WellFormed(s: State) {
    && s.prio.Keys == s.threads.Keys
    && Known(s.receivers, s.prio) && Known(s.senders, s.prio)
  }

  /** `rt_ipc_list_suspend` on one of the two lists, the error cleared, the timer started if wanted. */
  function SuspendSender(s: State, t: Tid, value: int, timeout: int): State
    requires WellFormed(s) && t in s.threads
  {
    s.(senders := Enqueue(s.senders, t, s.flag, s.prio),
       threads := s.threads[t := Thread(Sending(value, timeout), EOK, timeout > 0)])
  }

  function SuspendReceiver(s: State, t: Tid, timeout: int): State
    requires WellFormed(s) && t in s.threads
  {
    s.(receivers := Enqueue(s.receivers, t, s.flag, s.prio),
       threads := s.threads[t := Thread(Receiving(timeout), EOK, timeout > 0)])
  }

  /** `rt_thread_resume`: off its list, timer stopped. */
  function Wake(s: State, t: Tid): State
    requires t in s.threads
  {
    s.(receivers := Remove(s.receivers, t), senders := Remove(s.senders, t),
       threads := s.threads[t := s.threads[t].(timer := false)])
  }

  function WakeHead(s: State, q: seq<Tid>): State
    requires q != [] ==> q[0] in s.threads
  {
    if q == [] then s else Wake(s, q[0])
  }

  function SetPlace(s: State, t: Tid, place: Place): State
    requires t in s.threads
  {
    s.(threads := s.threads[t := s.threads[t].(place := place)])
  }

  function SetError(s: State, t: Tid, error: Err): State
    requires t in s.threads
  {
    s.(threads := s.threads[t := s.threads[t].(error := error)])
  }

  /** The stored mail goes in at the back and wakes the first receiver. */
  function Put(s: State, value: int): State
    requires WellFormed(s)
  {
    WakeHead(s.(queue := s.queue + [value]), s.receivers)
  }

  function Get(s: State): State
    requires WellFormed(s) && s.queue != []
  {
    WakeHead(s.(queue := s.queue[1..]), s.senders)
  }

  /** From the loop test of `rt_mb_send_wait` to the next `rt_schedule` or return. */
  function SendLoop(s: State, t: Tid, value: int, timeout: int): (State, Output)
    requires WellFormed(s) && t in s.threads
  {
    if |s.queue| == s.size then
      if timeout == 0 then (SetPlace(SetError(s, t, EOK), t, Idle), Refused(EFULL))
      else (SuspendSender(s, t, value, timeout), Blocked)
    else (SetPlace(Put(s, value), t, Idle), Accepted(value))
  }

  function RecvLoop(s: State, t: Tid, timeout: int): (State, Output)
    requires WellFormed(s) && t in s.threads
  {
    if s.queue == [] then
      if timeout == 0 then (SetPlace(SetError(s, t, ETIMEOUT), t, Idle), Refused(ETIMEOUT))
      else (SuspendReceiver(s, t, timeout), Blocked)
    else (SetPlace(Get(s), t, Idle), Delivered(s.queue[0]))
  }

  function SendStep(s: State, t: Tid, value: int, timeout: int): (State, Output)
    requires WellFormed(s) && t in s.threads
  {
    if |s.queue| == s.size && timeout == 0 then (s, Refused(EFULL)) else SendLoop(s, t, value, timeout)
  }

  function IsrStep(s: State, value: int): (State, Output)
    requires WellFormed(s)
  {
    if |s.queue| == s.size then (s, Refused(EFULL)) else (Put(s, value), Accepted(value))
  }

  function RecvStep(s: State, t: Tid, timeout: int): (State, Output)
    requires WellFormed(s) && t in s.threads
  {
    if s.queue == [] && timeout == 0 then (s, Refused(ETIMEOUT)) else RecvLoop(s, t, timeout)
  }

  /** A woken thread returns its error, or goes round its loop with the remaining time. */
  function ContinueStep(s: State, t: Tid, elapsed: nat): (State, Output)
    requires WellFormed(s) && t in s.threads
  {
    var th := s.threads[t];
    match th.place
    case Idle => (s, Quiet)
    case Sending(value, timeout) =>
      if th.error != EOK then (SetPlace(s, t, Idle), Refused(th.error))
      else SendLoop(s, t, value, Remaining(timeout, elapsed))
    case Receiving(timeout) =>
      if th.error != EOK then (SetPlace(s, t, Idle), Refused(th.error))
      else RecvLoop(s, t, Remaining(timeout, elapsed))
  }

  /** `rt_ipc_list_resume_all` on both lists, then an empty ring. */
  function ResetStep(s: State): State {
    s.(queue := [], receivers := [], senders := [],
       threads := map t | t in s.threads ::
         if Queued(s, t) then s.threads[t].(error := ERROR, timer := false) else s.threads[t])
  }

  /** Which steps can be taken: a call by an idle thread, continuing a woken one, a running timer, ... */
  predicate Enabled(s: State, a: Action) {
    match a
    case Send(t, _, _) => t in s.threads && s.threads[t].place.Idle?
    case SendFromIsr(_) => true
    case Recv(t, _) => t in s.threads && s.threads[t].place.Idle?
    case Continue(t, _) => t in s.threads && !s.threads[t].place.Idle? && !Queued(s, t)
    case Timeout(t) => t in s.threads && s.threads[t].timer
    case Resume(t) => t in s.threads && Queued(s, t)
    case ChangePriority(t, _) => t in s.threads
    case Reset => true
  }

  function Step(s: State, a: Action): (State, Output)
    requires WellFormed(s) && Enabled(s, a)
  {
    match a
    case Send(t, value, timeout) => SendStep(s, t, value, timeout)
    case SendFromIsr(value) => IsrStep(s, value)
    case Recv(t, timeout) => RecvStep(s, t, timeout)
    case Continue(t, elapsed) => ContinueStep(s, t, elapsed)
    case Timeout(t) => (Wake(SetError(s, t, ETIMEOUT), t), Quiet)
    case Resume(t) => (Wake(s, t), Quiet)
    case ChangePriority(t, p) => (s.(prio := s.prio[t := p]), Quiet)
    case Reset => (ResetStep(s), Cleared)
  }

  // ---- The invariant ----

  /** Receivers resumed without error that have not re-checked the mailbox yet. */
  function WokenReceivers(s: State): set<Tid> {
    set t | t in s.threads && s.threads[t].place.Receiving? && s.threads[t].error == EOK && t !in s.receivers
  }

  function WokenSenders(s: State): set<Tid> {
    set t | t in s.threads && s.threads[t].place.Sending? && s.threads[t].error == EOK && t !in s.senders
  }

  /** Every suspended thread waits on the list of what it is doing, and only suspended threads have timers. */
  ghost predicate Shape(s: State) {
    && WellFormed(s) && |s.queue| <= s.size
    && NoDup(s.receivers) && NoDup(s.senders)
    && (forall t :: t in s.receivers ==> s.threads[t].place.Receiving? && s.threads[t].error == EOK)
    && (forall t :: t in s.senders ==> s.threads[t].place.Sending? && s.threads[t].error == EOK)
    && (forall t :: t in s.threads && s.threads[t].timer ==> Queued(s, t))
  }

  /** No lost wakeup, on either side. */
  ghost predicate NoLostWakeup(s: State) {
    && (s.receivers != [] ==> |s.queue| <= |WokenReceivers(s)|)
    && (s.senders != [] ==> s.size - |s.queue| <= |WokenSenders(s)|)
  }

  ghost predicate Inv(s: State) {
    Shape(s) && NoLostWakeup(s)
  }

  lemma WakeReceiver(s: State, t: Tid)
    requires Shape(s) && t in s.receivers
    ensures Shape(Wake(s, t))
    ensures Wake(s, t).senders == s.senders
    ensures WokenReceivers(Wake(s, t)) == WokenReceivers(s) + {t} && t !in WokenReceivers(s)
    ensures WokenSenders(Wake(s, t)) == WokenSenders(s)
  {
    RemoveMembers(s.receivers, t);
    RemoveMembers(s.senders, t);
    NotIn(s.senders, t);
  }

  lemma WakeSender(s: State, t: Tid)
    requires Shape(s) && t in s.senders
    ensures Shape(Wake(s, t))
    ensures Wake(s, t).receivers == s.receivers
    ensures WokenSenders(Wake(s, t)) == WokenSenders(s) + {t} && t !in WokenSenders(s)
    ensures WokenReceivers(Wake(s, t)) == WokenReceivers(s)
  {
    RemoveMembers(s.receivers, t);
    RemoveMembers(s.senders, t);
    NotIn(s.receivers, t);
  }

  lemma {:induction false} NotIn(q: seq<Tid>, t: Tid)
    requires t !in q
    ensures Remove(q, t) == q
  {
    if q != [] { NotIn(q[1..], t); }
  }

  // ---- What each step keeps ----

  /** A thread that leaves its loop stops counting as woken. */
  lemma LeaveLoop(s: State, t: Tid)
    requires Shape(s) && t in s.threads && !Queued(s, t)
    ensures Shape(SetPlace(s, t, Idle))
    ensures WokenReceivers(SetPlace(s, t, Idle)) == WokenReceivers(s) - {t}
    ensures WokenSenders(SetPlace(s, t, Idle)) == WokenSenders(s) - {t}
  {
  }

  lemma ErrorOfUnqueued(s: State, t: Tid, e: Err)
    requires Shape(s) && t in s.threads && !Queued(s, t)
    ensures Shape(SetError(s, t, e))
    ensures WokenReceivers(SetError(s, t, e)) - {t} == WokenReceivers(s) - {t}
    ensures WokenSenders(SetError(s, t, e)) - {t} == WokenSenders(s) - {t}
  {
  }

  lemma PutKeeps(s: State, value: int)
    requires Inv(s) && |s.queue| < s.size
    ensures Shape(Put(s, value)) && Put(s, value).queue == s.queue + [value] && Put(s, value).size == s.size
    ensures Put(s, value).senders == s.senders && WokenSenders(Put(s, value)) == WokenSenders(s)
    ensures Put(s, value).receivers != [] ==> |s.queue| + 1 <= |WokenReceivers(Put(s, value))|
    ensures forall t :: t in s.threads && !Queued(s, t) ==>
      !Queued(Put(s, value), t) && Put(s, value).threads[t] == s.threads[t]
      && (t in WokenReceivers(Put(s, value)) <==> t in WokenReceivers(s))
  {
    var s1 := s.(queue := s.queue + [value]);
    assert WokenReceivers(s1) == WokenReceivers(s) && WokenSenders(s1) == WokenSenders(s);
    if s.receivers != [] {
      WakeReceiver(s1, s.receivers[0]);
      RemoveMembers(s.receivers, s.receivers[0]);
    }
  }

  lemma GetKeeps(s: State)
    requires Inv(s) && s.queue != []
    ensures Shape(Get(s)) && Get(s).queue == s.queue[1..] && Get(s).size == s.size
    ensures Get(s).receivers == s.receivers && WokenReceivers(Get(s)) == WokenReceivers(s)
    ensures Get(s).senders != [] ==> s.size - |s.queue| + 1 <= |WokenSenders(Get(s))|
    ensures forall t :: t in s.threads && !Queued(s, t) ==>
      !Queued(Get(s), t) && Get(s).threads[t] == s.threads[t]
      && (t in WokenSenders(Get(s)) <==> t in WokenSenders(s))
  {
    var s1 := s.(queue := s.queue[1..]);
    assert WokenReceivers(s1) == WokenReceivers(s) && WokenSenders(s1) == WokenSenders(s);
    if s.senders != [] {
      WakeSender(s1, s.senders[0]);
      RemoveMembers(s.senders, s.senders[0]);
    }
  }

  lemma SuspendSenderShape(s: State, t: Tid, value: int, timeout: int)
    requires Shape(s) && t in s.threads && !Queued(s, t) && !s.threads[t].place.Receiving?
    ensures Shape(SuspendSender(s, t, value, timeout))
  {
    hide NoDup, Enqueue;
    EnqueueMembers(s.senders, t, s.flag, s.prio);
  }

  lemma SuspendReceiverShape(s: State, t: Tid, timeout: int)
    requires Shape(s) && t in s.threads && !Queued(s, t) && !s.threads[t].place.Sending?
    ensures Shape(SuspendReceiver(s, t, timeout))
  {
    hide NoDup, Enqueue;
    EnqueueMembers(s.receivers, t, s.flag, s.prio);
  }

  lemma SuspendSenderKeeps(s: State, t: Tid, value: int, timeout: int)
    requires Inv(s) && t in s.threads && !Queued(s, t) && !s.threads[t].place.Receiving? && |s.queue| == s.size
    ensures Inv(SuspendSender(s, t, value, timeout))
  {
    hide Shape, NoDup, Enqueue;
    assert WellFormed(s) by { ShapeKnown(s); }
    SuspendSenderShape(s, t, value, timeout);
    assert WokenReceivers(SuspendSender(s, t, value, timeout)) == WokenReceivers(s);
  }

  lemma SuspendReceiverKeeps(s: State, t: Tid, timeout: int)
    requires Inv(s) && t in s.threads && !Queued(s, t) && !s.threads[t].place.Sending? && s.queue == []
    ensures Inv(SuspendReceiver(s, t, timeout))
  {
    hide Shape, NoDup, Enqueue;
    assert WellFormed(s) by { ShapeKnown(s); }
    SuspendReceiverShape(s, t, timeout);
    assert WokenSenders(SuspendReceiver(s, t, timeout)) == WokenSenders(s);
  }

  lemma ShapeKnown(s: State)
    requires Shape(s)
    ensures WellFormed(s)
  {
  }

  lemma SendLoopKeeps(s: State, t: Tid, value: int, timeout: int)
    requires Inv(s) && t in s.threads && !Queued(s, t) && !s.threads[t].place.Receiving?
    ensures Inv(SendLoop(s, t, value, timeout).0)
  {
    if |s.queue| == s.size {
      if timeout == 0 {
        ErrorOfUnqueued(s, t, EOK);
        LeaveLoop(SetError(s, t, EOK), t);
      } else {
        SuspendSenderKeeps(s, t, value, timeout);
      }
    } else {
      PutKeeps(s, value);
      LeaveLoop(Put(s, value), t);
      assert t !in WokenReceivers(Put(s, value));
    }
  }

  lemma RecvLoopKeeps(s: State, t: Tid, timeout: int)
    requires Inv(s) && t in s.threads && !Queued(s, t) && !s.threads[t].place.Sending?
    ensures Inv(RecvLoop(s, t, timeout).0)
  {
    if s.queue == [] {
      if timeout == 0 {
        ErrorOfUnqueued(s, t, ETIMEOUT);
        LeaveLoop(SetError(s, t, ETIMEOUT), t);
      } else {
        SuspendReceiverKeeps(s, t, timeout);
      }
    } else {
      GetKeeps(s);
      LeaveLoop(Get(s), t);
      assert t !in WokenSenders(Get(s));
    }
  }

  lemma WakeShape(s: State, t: Tid, error: Err)
    requires Shape(s) && Queued(s, t)
    ensures Shape(Wake(SetError(s, t, error), t))
  {
    hide NoDup, Remove;
    RemoveMembers(s.receivers, t);
    RemoveMembers(s.senders, t);
  }

  lemma WakeWoken(s: State, t: Tid, error: Err)
    requires Shape(s) && Queued(s, t)
    ensures WokenReceivers(s) <= WokenReceivers(Wake(SetError(s, t, error), t))
    ensures WokenSenders(s) <= WokenSenders(Wake(SetError(s, t, error), t))
  {
    hide NoDup, Remove;
    RemoveMembers(s.receivers, t);
    RemoveMembers(s.senders, t);
  }

  /** A timeout, or a wake from outside, takes one thread off its list. */
  lemma WakeKeeps(s: State, t: Tid, error: Err)
    requires Inv(s) && Queued(s, t)
    ensures Inv(Wake(SetError(s, t, error), t))
  {
    hide Shape, NoDup, WokenReceivers, WokenSenders;
    assert t in s.threads by { ShapeKnown(s); }
    var s' := Wake(SetError(s, t, error), t);
    WakeShape(s, t, error);
    WakeWoken(s, t, error);
    SubsetSize(WokenReceivers(s), WokenReceivers(s'));
    SubsetSize(WokenSenders(s), WokenSenders(s'));
  }

  lemma Unpack(s: State)
    requires Inv(s)
    ensures Shape(s) && NoLostWakeup(s)
  {
  }

  lemma IsrKeeps(s: State, value: int)
    requires Inv(s)
    ensures Inv(IsrStep(s, value).0)
  {
    if |s.queue| != s.size { PutKeeps(s, value); }
  }

  lemma GiveUpKeeps(s: State, t: Tid)
    requires Inv(s) && t in s.threads && !Queued(s, t) && s.threads[t].error != EOK
    ensures Inv(SetPlace(s, t, Idle))
  {
    LeaveLoop(s, t);
  }

  lemma PriorityKeeps(s: State, t: Tid, p: nat)
    requires Inv(s) && t in s.threads
    ensures Inv(s.(prio := s.prio[t := p]))
  {
    var s' := s.(prio := s.prio[t := p]);
    assert WokenReceivers(s') == WokenReceivers(s) && WokenSenders(s') == WokenSenders(s);
  }

  lemma ResetKeeps(s: State)
    requires Inv(s)
    ensures Inv(ResetStep(s))
  {
  }

  /** Every step of every interleaving keeps the invariant: no lost wakeup, a bounded queue, consistent lists. */
  lemma StepKeepsInv(s: State, a: Action)
    requires Inv(s) && Enabled(s, a)
    ensures Inv(Step(s, a).0)
  {
    hide SendLoop, RecvLoop, Wake, Put, Get, Enqueue, Remove, Remaining, Inv;
    Unpack(s);
    match a
    case Send(t, value, timeout) => if !(|s.queue| == s.size && timeout == 0) { SendLoopKeeps(s, t, value, timeout); }
    case SendFromIsr(value) => IsrKeeps(s, value);
    case Recv(t, timeout) => if !(s.queue == [] && timeout == 0) { RecvLoopKeeps(s, t, timeout); }
    case Continue(t, elapsed) =>
      var th := s.threads[t];
      if th.error != EOK {
        GiveUpKeeps(s, t);
      } else if th.place.Sending? {
        SendLoopKeeps(s, t, th.place.value, Remaining(th.place.timeout, elapsed));
      } else {
        RecvLoopKeeps(s, t, Remaining(th.place.timeout, elapsed));
      }
    case Timeout(t) => WakeKeeps(s, t, ETIMEOUT);
    case Resume(t) =>
      assert SetError(s, t, s.threads[t].error) == s by { assert s.threads[t := s.threads[t]] == s.threads; }
      WakeKeeps(s, t, s.threads[t].error);
    case ChangePriority(t, p) => PriorityKeeps(s, t, p);
    case Reset => ResetKeeps(s);
  }

  // ---- Whole runs ----

  /** A new mailbox: empty, no thread in it. */
  ghost predicate Initial(s: State) {
    && s.queue == [] && s.receivers == [] && s.senders == [] && s.prio.Keys == s.threads.Keys
    && forall t :: t in s.threads ==> s.threads[t].place.Idle? && !s.threads[t].timer
  }

  /** The outputs of a run and its last state; the run stops at a step that is not enabled. */
  function Run(s: State, acts: seq<Action>): (State, seq<Output>)
    decreases |acts|
  {
    if acts == [] || !WellFormed(s) || !Enabled(s, acts[0]) then (s, [])
    else
      var (s1, out) := Step(s, acts[0]);
      var (s2, outs) := Run(s1, acts[1..]);
      (s2, [out] + outs)
  }

  lemma {:induction false} RunKeepsInv(s: State, acts: seq<Action>)
    requires Inv(s)
    ensures Inv(Run(s, acts).0)
    decreases |acts|
  {
    if acts != [] && Enabled(s, acts[0]) {
      StepKeepsInv(s, acts[0]);
      RunKeepsInv(Step(s, acts[0]).0, acts[1..]);
    }
  }

  /** From a new mailbox, after any run, nobody sleeps beside a mail or a free slot unless a woken thread will look. */
  lemma NoLostWakeupInAnyRun(s: State, acts: seq<Action>)
    requires Initial(s)
    ensures var s' := Run(s, acts).0;
            && (s'.receivers != [] ==> |s'.queue| <= |WokenReceivers(s')|)
            && (s'.senders != [] ==> s'.size - |s'.queue| <= |WokenSenders(s')|)
            && |s'.queue| <= s'.size
  {
    RunKeepsInv(s, acts);
  }

  /** Once every woken thread has re-checked, waiting receivers mean empty and waiting senders mean full. */
  lemma Quiescent(s: State, acts: seq<Action>)
    requires Initial(s) && s.size > 0
    requires var s' := Run(s, acts).0; WokenReceivers(s') == {} && WokenSenders(s') == {}
    ensures var s' := Run(s, acts).0;
            && (s'.receivers != [] ==> s'.queue == [])
            && (s'.senders != [] ==> |s'.queue| == s'.size)
            && (s'.receivers == [] || s'.senders == [])
  {
    RunKeepsInv(s, acts);
    SizeFixed(s, acts);
  }

  lemma {:induction false} SizeFixed(s: State, acts: seq<Action>)
    ensures Run(s, acts).0.size == s.size
    decreases |acts|
  {
    if acts != [] && WellFormed(s) && Enabled(s, acts[0]) {
      SizeFixed(Step(s, acts[0]).0, acts[1..]);
    }
  }

  function AcceptedOf(outs: seq<Output>): seq<int> {
    if outs == [] then []
    else (if outs[0].Accepted? then [outs[0].value] else []) + AcceptedOf(outs[1..])
  }

  function DeliveredOf(outs: seq<Output>): seq<int> {
    if outs == [] then []
    else (if outs[0].Delivered? then [outs[0].value] else []) + DeliveredOf(outs[1..])
  }

  /** What one step does to the stored mails. */
  lemma StepQueue(s: State, a: Action)
    requires WellFormed(s) && Enabled(s, a)
    ensures var (s', out) := Step(s, a);
            s'.queue == (match out
                         case Accepted(v) => s.queue + [v]
                         case Delivered(v) => if s.queue != [] then s.queue[1..] else []
                         case Cleared => []
                         case _ => s.queue)
            && (out.Delivered? ==> s.queue != [] && out.value == s.queue[0])
  {
  }

  /** Between resets, the mails delivered are exactly the mails accepted, in order: none lost, none twice. */
  lemma {:induction false} Fifo(s: State, acts: seq<Action>)
    requires Inv(s) && Reset !in acts
    ensures var (s', outs) := Run(s, acts);
            s.queue + AcceptedOf(outs) == DeliveredOf(outs) + s'.queue
    decreases |acts|
  {
    if acts != [] && Enabled(s, acts[0]) {
      var (s1, out) := Step(s, acts[0]);
      var (s2, outs) := Run(s1, acts[1..]);
      StepKeepsInv(s, acts[0]);
      StepQueue(s, acts[0]);
      NotCleared(s, acts[0]);
      hide Step, Inv;
      Fifo(s1, acts[1..]);
      FifoStep(out, outs, s.queue, s1.queue, s2.queue);
    }
  }

  lemma FifoStep(out: Output, outs: seq<Output>, q: seq<int>, q1: seq<int>, q2: seq<int>)
    requires q1 + AcceptedOf(outs) == DeliveredOf(outs) + q2
    requires match out
             case Accepted(v) => q1 == q + [v]
             case Delivered(v) => q == [v] + q1
             case _ => q1 == q
    ensures q + AcceptedOf([out] + outs) == DeliveredOf([out] + outs) + q2
  {
    var all := [out] + outs;
    assert all[1..] == outs;
    match out
    case Accepted(v) => assert q + ([v] + AcceptedOf(outs)) == q + [v] + AcceptedOf(outs);
    case Delivered(v) =>
      assert [v] + q1 + AcceptedOf(outs) == [v] + (q1 + AcceptedOf(outs));
      assert [v] + DeliveredOf(outs) + q2 == [v] + (DeliveredOf(outs) + q2);
    case _ => assert AcceptedOf(all) == AcceptedOf(outs) && DeliveredOf(all) == DeliveredOf(outs);
  }

  lemma NotCleared(s: State, a: Action)
    requires WellFormed(s) && Enabled(s, a) && a != Reset
    ensures !Step(s, a).1.Cleared?
  {
  }
}
